/** The guard in front of the owner routes (`server/middleware/ownerMiddleware.js`). */
module OwnerMiddleware {
  import opened Wrappers

  /** The user the authentication middleware attached, as far as this guard
      looks at it. */
  datatype RequestUser = RequestUser(role: string)

  /** Either a refusal with its status and message, or passing on to the
      route (`next()`). */
  datatype Decision = Refuse(status: int, message: string) | Next

  const AuthRequired: string := "Authentication required"
  const OwnerRequired: string := "Accommodation owner access required"

  /** No user: 401; a user who is not an owner: 403; an owner: on to the
      route. */
  function OwnerGate(user: Option<RequestUser>): (d: Decision)
    ensures d == Next <==> user.Some? && user.value.role == "owner"
    ensures d == Refuse(401, AuthRequired) <==> user.None?
    ensures d == Refuse(403, OwnerRequired) <==> user.Some? && user.value.role != "owner"
  {
    if user.None? then Refuse(401, AuthRequired)
    else if user.value.role != "owner" then Refuse(403, OwnerRequired)
    else Next
  }

  /** Exactly one outcome, and only 401 or 403 ever refuse. */
  lemma OwnerGateOutcomes(user: Option<RequestUser>)
    ensures OwnerGate(user).Refuse? ==> OwnerGate(user).status in {401, 403}
    ensures OwnerGate(user).Refuse? != (OwnerGate(user) == Next)
  {
  }
}
