/** The two pieces of logic in `client/src/App.tsx`: the `ProtectedRoute`
    decision and the `checkBackend` start-up probe. */
module App {
  import opened Wrappers
  import opened Records
  import Text
  import Replies

  /** What `ProtectedRoute` renders. */
  datatype RouteView = LoadingView | Navigate(to: string) | Children

  /** A `requiredRole` prop counts only when it is a non-empty string. */
  predicate RoleRequired(requiredRole: Option<string>) {
    requiredRole.Some? && requiredRole.value != ""
  }

  /** The route guard: wait for the session, then demand a user, then demand
      the required role, if any. */
  function ProtectedRoute(loading: bool, user: Option<User>, requiredRole: Option<string>): (v: RouteView)
    ensures loading ==> v == LoadingView
    ensures !loading && user.None? ==> v == Navigate("/login")
    ensures v == Navigate("/") <==>
              !loading && user.Some? && RoleRequired(requiredRole) && RoleName(user.value.role) != requiredRole.value
    ensures v == Children <==>
              !loading && user.Some? && (!RoleRequired(requiredRole) || RoleName(user.value.role) == requiredRole.value)
  {
    if loading then LoadingView
    else if user.None? then Navigate("/login")
    else if RoleRequired(requiredRole) && RoleName(user.value.role) != requiredRole.value then Navigate("/")
    else Children
  }

  /** A route that requires no role admits every signed-in user once loaded,
      and a route that requires a role admits only users holding it. */
  lemma ProtectedRouteRoles(user: User, role: Role)
    ensures ProtectedRoute(false, Some(user), None) == Children
    ensures ProtectedRoute(false, Some(user), Some(RoleName(role))) == Children <==> user.role == role
  {
    if RoleName(user.role) == RoleName(role) {
      assert user.role == role by {
        match user.role
        case Student => {}
        case Owner => {}
        case Admin => {}
      }
    }
  }

  /** The outcome of one probe of `/api/test`: a reply carrying the optional
      `message` of its body, or a failure (network error, abort or bad JSON). */
  datatype Probe = Reply(message: Option<string>) | Fails

  const MaxRetries: nat := 3

  const Connecting: string := "Connecting to server..."
  const PleaseRefresh: string := "Server is starting up. Please refresh in 30 seconds."

  /** The status shown after a failure while attempts remain. */
  function WakingUp(attempt: nat): string {
    "Server is waking up... Attempt " + Text.Decimal(attempt) + "/" + Text.Decimal(MaxRetries)
  }

  /** The status shown after a reply: its message, or `Connected` when that is
      absent or empty. */
  function ConnectedStatus(message: Option<string>): (s: string)
    ensures s != []
    ensures message.Some? && message.value != [] ==> s == message.value
    ensures message.None? || message == Some("") ==> s == "Connected"
  {
    Replies.OrElse(message, "Connected")
  }

  /** `checkBackend`: probe up to three times, stopping at the first reply.
      `probe(k)` is what the `k`-th probe (from 0) would get; the result is how
      many probes were made and every status shown, in order. */
  method CheckBackend(probe: nat -> Probe) returns (attempts: nat, statuses: seq<string>)
    ensures 1 <= attempts <= MaxRetries
    ensures forall k :: 0 <= k < attempts - 1 ==> probe(k).Fails?
    ensures attempts < MaxRetries ==> probe(attempts - 1).Reply?
    ensures |statuses| == attempts + 1 && statuses[0] == Connecting
    ensures forall k :: 1 <= k < attempts ==> statuses[k] == WakingUp(k + 1)
    ensures statuses[attempts] ==
              if probe(attempts - 1).Reply? then ConnectedStatus(probe(attempts - 1).message)
              else PleaseRefresh
  {
    statuses := [Connecting];
    var attempt: nat := 0;
    while attempt < MaxRetries
      invariant attempt <= MaxRetries
      invariant |statuses| == attempt + 1 && statuses[0] == Connecting
      invariant forall k :: 0 <= k < attempt ==> probe(k).Fails?
      invariant forall k :: 1 <= k <= attempt && k < MaxRetries ==> statuses[k] == WakingUp(k + 1)
      invariant attempt == MaxRetries ==> statuses[attempt] == PleaseRefresh
    {
      var outcome := probe(attempt);
      if outcome.Reply? {
        statuses := statuses + [ConnectedStatus(outcome.message)];
        attempts := attempt + 1;
        return;
      }
      attempt := attempt + 1;
      if attempt < MaxRetries {
        statuses := statuses + [WakingUp(attempt + 1)];
      } else {
        statuses := statuses + [PleaseRefresh];
      }
    }
    attempts := attempt;
  }
}
