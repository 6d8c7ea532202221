/** The profile page (`client/src/pages/Profile.tsx`): loading the profile,
    renaming, changing the password and the role badge. */
module Profile {
  import opened Wrappers
  import Text
  import Replies
  import FormRules

  datatype ProfileData = ProfileData(
    id: string, name: string, email: string, role: string,
    createdAt: string, totalReports: int, totalUpvotes: int)

  /** A reply whose success carries `data`, a refusal with an optional
      message, or an exception. */
  datatype Reply<T> = Success(data: T) | Failure(message: Option<string>) | Thrown

  datatype PasswordRequest = PasswordRequest(currentPassword: string, newPassword: string)

  const LoadFailed: string := "Failed to load profile"
  const ConnectionError: string := "Error connecting to server"
  const RenameFailed: string := "Failed to update name"
  const RenameError: string := "Error updating name"
  const PasswordsDiffer: string := "New passwords do not match"
  const PasswordTooShort: string := "Password must be at least 6 characters"
  const PasswordChanged: string := "Password changed successfully!"
  const PasswordFailed: string := "Failed to change password"
  const PasswordError: string := "Error changing password"

  /** A rename is sent only for a non-blank name that differs, once trimmed,
      from the current one; with no profile loaded nothing equals it. */
  predicate RenameWanted(newName: string, profile: Option<ProfileData>) {
    var trimmed := Text.Trim(newName);
    trimmed != "" && !(profile.Some? && trimmed == profile.value.name)
  }

  /** Re-submitting the name already shown, in any surrounding white space,
      sends nothing. */
  lemma SameNameNotSent(p: ProfileData, pad1: string, pad2: string)
    requires Text.IsTrimmed(p.name) && Text.AllWhitespace(pad1) && Text.AllWhitespace(pad2)
    ensures !RenameWanted(pad1 + p.name + pad2, Some(p))
  {
    Text.TrimPadded(pad1, p.name, pad2);
  }

  /** `getRoleBadge`: the three known roles have their colours, anything
      else is gray. */
  function RoleBadge(role: string): (style: string)
    ensures role == "student" <==> style == "bg-blue-100 text-blue-800"
    ensures role == "owner" <==> style == "bg-purple-100 text-purple-800"
    ensures role == "admin" <==> style == "bg-red-100 text-red-800"
    ensures role !in {"student", "owner", "admin"} <==> style == "bg-gray-100 text-gray-800"
  {
    if role == "student" then "bg-blue-100 text-blue-800"
    else if role == "owner" then "bg-purple-100 text-purple-800"
    else if role == "admin" then "bg-red-100 text-red-800"
    else "bg-gray-100 text-gray-800"
  }

  class ProfilePage {
    var profile: Option<ProfileData>
    var loading: bool
    var error: string
    var editingName: bool
    var newName: string
    var nameLoading: bool
    var currentPassword: string
    var newPassword: string
    var confirmPassword: string
    var passwordLoading: bool
    var passwordMessage: string

    constructor()
      ensures profile.None? && loading && error == "" && !editingName && newName == "" && !nameLoading
      ensures currentPassword == "" && newPassword == "" && confirmPassword == ""
      ensures !passwordLoading && passwordMessage == ""
    {
      profile := None;
      loading := true;
      error := "";
      editingName := false;
      newName := "";
      nameLoading := false;
      currentPassword := "";
      newPassword := "";
      confirmPassword := "";
      passwordLoading := false;
      passwordMessage := "";
    }

    /** `fetchProfile`: without a token nothing is fetched (the page goes to
        the login form); otherwise a loaded profile also fills the name
        field, and a failure shows an error. */
    method FetchProfile(token: Option<string>, reply: Reply<ProfileData>) returns (fetched: bool)
      modifies this
      ensures fetched <==> token.Some? && token.value != ""
      ensures !fetched ==> profile == old(profile) && loading == old(loading) && error == old(error) && newName == old(newName)
      ensures fetched ==> !loading
      ensures fetched && reply.Success? ==> profile == Some(reply.data) && newName == reply.data.name && error == old(error)
      ensures fetched && reply.Failure? ==>
                profile == old(profile) && newName == old(newName) && error == Replies.OrElse(reply.message, LoadFailed)
      ensures fetched && reply.Thrown? ==> profile == old(profile) && newName == old(newName) && error == ConnectionError
      ensures editingName == old(editingName) && nameLoading == old(nameLoading)
      ensures currentPassword == old(currentPassword) && newPassword == old(newPassword)
      ensures confirmPassword == old(confirmPassword)
      ensures passwordLoading == old(passwordLoading) && passwordMessage == old(passwordMessage)
    {
      if token.None? || token.value == "" {
        return false;
      }
      fetched := true;
      match reply {
        case Success(data) =>
          profile := Some(data);
          newName := data.name;
        case Failure(m) =>
          error := Replies.OrElse(m, LoadFailed);
        case Thrown =>
          error := ConnectionError;
      }
      loading := false;
    }

    /** `handleNameUpdate`: a blank or unchanged name just closes the editor;
        otherwise the trimmed name is sent, and success stores the name the
        server returns (on a loaded profile) and closes the editor, while a
        failure raises an alert and leaves the editor open. */
    method HandleNameUpdate(reply: Reply<string>) returns (sent: Option<string>, alert: Option<string>)
      modifies this
      ensures sent.Some? <==> RenameWanted(old(newName), old(profile))
      ensures sent.None? ==>
                !editingName && alert.None? && profile == old(profile) && nameLoading == old(nameLoading)
      ensures sent.Some? ==> sent.value == Text.Trim(old(newName)) && !nameLoading
      ensures sent.Some? && reply.Success? ==>
                alert.None? && !editingName &&
                profile == (if old(profile).Some? then Some(old(profile).value.(name := reply.data)) else None)
      ensures sent.Some? && reply.Failure? ==>
                alert == Some(Replies.OrElse(reply.message, RenameFailed)) &&
                profile == old(profile) && editingName == old(editingName)
      ensures sent.Some? && reply.Thrown? ==>
                alert == Some(RenameError) && profile == old(profile) && editingName == old(editingName)
      ensures newName == old(newName) && loading == old(loading) && error == old(error)
      ensures currentPassword == old(currentPassword) && newPassword == old(newPassword)
      ensures confirmPassword == old(confirmPassword)
      ensures passwordLoading == old(passwordLoading) && passwordMessage == old(passwordMessage)
    {
      var trimmed := Text.Trim(newName);
      if !RenameWanted(newName, profile) {
        editingName := false;
        return None, None;
      }
      sent := Some(trimmed);
      nameLoading := true;
      alert := None;
      match reply {
        case Success(name) =>
          if profile.Some? {
            profile := Some(profile.value.(name := name));
          }
          editingName := false;
        case Failure(m) =>
          alert := Some(Replies.OrElse(m, RenameFailed));
        case Thrown =>
          alert := Some(RenameError);
      }
      nameLoading := false;
    }

    /** `handlePasswordChange`: passwords that differ, then a new password
        that is too short, are refused before any request; success clears
        the three fields. */
    method HandlePasswordChange(reply: Replies.ApiReply) returns (request: Option<PasswordRequest>)
      modifies this
      ensures request.Some? <==>
                FormRules.CheckPasswords(old(newPassword), old(confirmPassword)) == FormRules.Acceptable
      ensures FormRules.CheckPasswords(old(newPassword), old(confirmPassword)) == FormRules.Mismatch ==>
                passwordMessage == PasswordsDiffer
      ensures FormRules.CheckPasswords(old(newPassword), old(confirmPassword)) == FormRules.TooShort ==>
                passwordMessage == PasswordTooShort
      ensures request.None? ==>
                passwordLoading == old(passwordLoading) && currentPassword == old(currentPassword) &&
                newPassword == old(newPassword) && confirmPassword == old(confirmPassword)
      ensures request.Some? ==>
                request.value == PasswordRequest(old(currentPassword), old(newPassword)) && !passwordLoading
      ensures request.Some? && reply.Succeeded() ==>
                passwordMessage == PasswordChanged &&
                currentPassword == "" && newPassword == "" && confirmPassword == ""
      ensures request.Some? && !reply.Succeeded() ==>
                passwordMessage == (if reply.Thrown? then PasswordError else Replies.OrElse(reply.message, PasswordFailed)) &&
                currentPassword == old(currentPassword) && newPassword == old(newPassword) &&
                confirmPassword == old(confirmPassword)
      ensures profile == old(profile) && loading == old(loading) && error == old(error)
      ensures editingName == old(editingName) && newName == old(newName) && nameLoading == old(nameLoading)
    {
      var verdict := FormRules.CheckPasswords(newPassword, confirmPassword);
      if verdict == FormRules.Mismatch {
        passwordMessage := PasswordsDiffer;
        return None;
      }
      if verdict == FormRules.TooShort {
        passwordMessage := PasswordTooShort;
        return None;
      }
      request := Some(PasswordRequest(currentPassword, newPassword));
      passwordMessage := "";
      passwordLoading := true;
      match reply {
        case Answered(success, m) =>
          if success {
            passwordMessage := PasswordChanged;
            currentPassword := "";
            newPassword := "";
            confirmPassword := "";
          } else {
            passwordMessage := Replies.OrElse(m, PasswordFailed);
          }
        case Thrown =>
          passwordMessage := PasswordError;
      }
      passwordLoading := false;
    }
  }
}
