/** The `/signup` and `/login` handlers of `server/routes/auth.js` over the
    user collection, modelled as a map from stored e-mail to user document.
    The password hash and the token signer are passed in as values. */
module AuthRoutes {
  import opened Wrappers
  import opened Text

  /** A user document as stored. */
  datatype StoredUser = StoredUser(id: string, name: string, email: string, password: string, role: string)

  /** The user fields a successful login returns: no password. */
  datatype PublicUser = PublicUser(id: string, name: string, email: string, role: string)

  function Public(u: StoredUser): PublicUser {
    PublicUser(u.id, u.name, u.email, u.role)
  }

  /** A request body field is present when it is given and is not the empty
      string (the handlers test it with `!`). */
  predicate Given(field: Option<string>) {
    field.Some? && field.value != ""
  }

  datatype SignupBody = SignupBody(name: Option<string>, email: Option<string>, password: Option<string>, role: Option<string>)
  datatype LoginBody = LoginBody(email: Option<string>, password: Option<string>)

  /** A status code with the `message` of the JSON body. */
  datatype Reply = Reply(status: int, message: string)

  datatype LoginReply = LoginFailed(status: int, message: string) | LoggedIn(token: string, user: PublicUser)

  const MissingSignupFields: string := "Please enter all fields: name, email, and password are required"
  const AlreadyRegistered: string := "Email already registered"
  const Registered: string := "User registered successfully"
  const MissingLoginFields: string := "Please enter all fields"
  const InvalidCredentials: string := "Invalid credentials"

  /** Every document sits under its own e-mail, and every stored e-mail is in
      the normal form sign-up gives it: lower-case and trimmed. */
  ghost predicate ValidUsers(users: map<string, StoredUser>) {
    forall k :: k in users ==> users[k].email == k && IsLower(k) && IsTrimmed(k)
  }

  lemma NormalizeIsNormal(email: string)
    ensures IsLower(Normalize(email)) && IsTrimmed(Normalize(email))
  {
    TrimKeepsLower(ToLower(email));
  }

  /** Login lower-cases the e-mail but does not trim it, so an address typed
      with leading white space never finds a stored user. */
  lemma WhitespaceLedLoginMisses(users: map<string, StoredUser>, email: string)
    requires ValidUsers(users)
    requires email != [] && IsWhitespace(email[0])
    ensures ToLower(email) !in users
  {
    assert ToLower(email)[0] == email[0];
  }

  /** A stored e-mail, typed as stored, is found again by login's lookup. */
  lemma StoredEmailFound(users: map<string, StoredUser>, k: string)
    requires ValidUsers(users) && k in users
    ensures ToLower(k) == k && ToLower(k) in users
  {
  }

  /** An address without surrounding white space is stored under the key login
      looks up, whatever its letter case. */
  lemma LoginKeyMatchesSignup(email: string)
    requires IsTrimmed(email)
    ensures ToLower(email) == Normalize(email)
  {
    assert IsTrimmed(ToLower(email));
    TrimOfTrimmed(ToLower(email));
  }

  class UserStore {
    var users: map<string, StoredUser>

    constructor()
      ensures users == map[] && ValidUsers(users)
    {
      users := map[];
    }

    /** `POST /signup`: all three fields are required; the e-mail is
        lower-cased and trimmed; an address already taken is refused;
        otherwise the user is stored with the hashed password and the role
        defaulting to `student`, and nothing else changes. */
    method Signup(body: SignupBody, hash: string -> string, newId: string) returns (reply: Reply)
      modifies this
      ensures ValidUsers(old(users)) ==> ValidUsers(users)
      ensures !(Given(body.name) && Given(body.email) && Given(body.password)) ==>
                reply == Reply(400, MissingSignupFields) && users == old(users)
      ensures Given(body.name) && Given(body.email) && Given(body.password) && Normalize(body.email.value) in old(users) ==>
                reply == Reply(400, AlreadyRegistered) && users == old(users)
      ensures Given(body.name) && Given(body.email) && Given(body.password) && Normalize(body.email.value) !in old(users) ==>
                var e := Normalize(body.email.value);
                reply == Reply(201, Registered) &&
                users == old(users)[e := StoredUser(newId, body.name.value, e, hash(body.password.value),
                                                    if Given(body.role) then body.role.value else "student")]
    {
      if !Given(body.name) || !Given(body.email) || !Given(body.password) {
        return Reply(400, MissingSignupFields);
      }
      var normalizedEmail := Trim(ToLower(body.email.value));
      if normalizedEmail in users {
        return Reply(400, AlreadyRegistered);
      }
      var hashedPassword := hash(body.password.value);
      var role := if Given(body.role) then body.role.value else "student";
      NormalizeIsNormal(body.email.value);
      users := users[normalizedEmail := StoredUser(newId, body.name.value, normalizedEmail, hashedPassword, role)];
      reply := Reply(201, Registered);
    }

    /** `POST /login`: both fields are required; the user is looked up by the
        lower-cased (not trimmed) e-mail; an unknown address and a wrong
        password get the same answer; success returns the token and the
        public fields of the user.  `compare(password, hash)` is bcrypt's
        check and `token` what the signer produces. */
    method Login(body: LoginBody, compare: (string, string) -> bool, token: string) returns (reply: LoginReply)
      ensures !(Given(body.email) && Given(body.password)) ==> reply == LoginFailed(400, MissingLoginFields)
      ensures Given(body.email) && Given(body.password) ==>
                var key := ToLower(body.email.value);
                if key in users && compare(body.password.value, users[key].password)
                then reply == LoggedIn(token, Public(users[key]))
                else reply == LoginFailed(400, InvalidCredentials)
      ensures ValidUsers(users) && reply.LoggedIn? ==>
                reply.user.email in users && reply.user == Public(users[reply.user.email])
    {
      if !Given(body.email) || !Given(body.password) {
        return LoginFailed(400, MissingLoginFields);
      }
      var key := ToLower(body.email.value);
      if key !in users {
        return LoginFailed(400, InvalidCredentials);
      }
      var user := users[key];
      if !compare(body.password.value, user.password) {
        return LoginFailed(400, InvalidCredentials);
      }
      reply := LoggedIn(token, Public(user));
    }
  }
}
