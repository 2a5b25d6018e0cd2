/**
 * The `requirePerm(permission)` middleware: answer 403 naming the missing
 * permission, or pass the request on.
 */
module RequirePerm {
  import opened Common

  /** What the middleware does with a request. */
  datatype GateOutcome = Forbidden(status: int, message: string, missing: string) | CallNext

  /** The permissions of the request's user; a request without a user has none. */
  function RequestPermissions(user: Option<seq<string>>): (perms: seq<string>)
    ensures user.None? ==> perms == []
    ensures user.Some? ==> perms == user.value
  {
    if user.Some? then user.value else []
  }

  /** `requirePerm(permission)` applied to a request whose user holds `user`'s permissions. */
  function RequirePerm(permission: string, user: Option<seq<string>>): (r: GateOutcome)
    ensures r.Forbidden? ==> r.status == 403 && r.message == "Forbidden" && r.missing == permission
  {
    if permission !in RequestPermissions(user) then Forbidden(403, "Forbidden", permission) else CallNext
  }

  /** The request is passed on exactly when the user holds the permission. */
  lemma PassesIffHeld(permission: string, user: Option<seq<string>>)
    ensures RequirePerm(permission, user) == CallNext <==> user.Some? && permission in user.value
  {
  }

  /** A request without a user is always refused. */
  lemma NoUserForbidden(permission: string)
    ensures RequirePerm(permission, None) == Forbidden(403, "Forbidden", permission)
  {
  }

  /** Only whether the permission is held matters, not the rest of the list. */
  lemma OnlyMembershipMatters(permission: string, a: seq<string>, b: seq<string>)
    requires permission in a <==> permission in b
    ensures RequirePerm(permission, Some(a)) == RequirePerm(permission, Some(b))
  {
  }
}
