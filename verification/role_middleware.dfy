/** `checkRole(requiredRoles)` from middleware/roleMiddleware.js: admit the request
    only when the role the user references, read afresh from the role store, has
    a name in the route's allowed list. */
module RoleMiddleware {
  import opened Base
  import opened RoleModel
  import opened Store
  import opened Http

  const NotAuthorized := "Not authorized"
  const AccessDenied := "Access denied. Insufficient permissions."
  const VerificationFailed := "Role verification failed"

  /** `user` is `req.user`; `fail` says that the role lookup raised. A lookup
      that finds nothing makes `userRole.name` throw, which lands in the same
      500 branch. The token's own role claim is not an input. */
  function CheckRole(requiredRoles: seq<string>, user: Option<PublicUser>, roles: seq<Role>, fail: bool): (g: Gate)
    ensures user.None? ==> g == Stop(401, NotAuthorized)
    ensures g == Next <==>
      user.Some? && !fail && user.value.roleId < |roles| && roles[user.value.roleId].name in requiredRoles
    ensures g == Stop(403, AccessDenied) <==>
      user.Some? && !fail && user.value.roleId < |roles| && roles[user.value.roleId].name !in requiredRoles
    ensures g == Stop(500, VerificationFailed) <==>
      user.Some? && (fail || user.value.roleId >= |roles|)
    ensures g.Stop? ==> g.status in {401, 403, 500}
  {
    if user.None? then Stop(401, NotAuthorized)
    else if fail then Stop(500, VerificationFailed)
    else match RoleById(roles, user.value.roleId)
      case None => Stop(500, VerificationFailed)
      case Some(role) =>
        if role.name in requiredRoles then Next else Stop(403, AccessDenied)
  }

  /** Two users referencing the same stored role get the same decision: only the
      stored role's name matters, and it is compared by exact string equality. */
  lemma DecisionDependsOnStoredRoleName(requiredRoles: seq<string>, u1: PublicUser, u2: PublicUser, roles1: seq<Role>, roles2: seq<Role>, fail: bool)
    requires u1.roleId < |roles1| && u2.roleId < |roles2|
    requires roles1[u1.roleId].name == roles2[u2.roleId].name
    ensures CheckRole(requiredRoles, Some(u1), roles1, fail) == CheckRole(requiredRoles, Some(u2), roles2, fail)
  {
  }
}
