/** routes/roleRoutes.js: both role routes run `protect` and then
    `checkRole(['Admin'])` imported from middleware/authMiddleware.js, whose role
    lookup always throws. */
module RoleRoutes {
  import opened Base
  import opened RoleModel
  import opened Store
  import opened Http
  import opened Router
  import AuthMiddleware

  function Table(): (t: seq<Route>)
    ensures |t| == 2
    ensures forall i :: 0 <= i < |t| ==> t[i].guards == [Protect, CheckRole(FromAuthMiddleware, ["Admin"])]
    ensures t[0].verb == Post && t[0].path == "/" && t[0].handler == AddRole
    ensures t[1].verb == Put && t[1].path == "/:id" && t[1].handler == UpdateRole
  {
    [ Route(Post, "/", [Protect, CheckRole(FromAuthMiddleware, ["Admin"])], AddRole),
      Route(Put, "/:id", [Protect, CheckRole(FromAuthMiddleware, ["Admin"])], UpdateRole) ]
  }

  /** No request ever passes a role route's chain, Admin or not: it is refused
      by `protect` with 401, or, once authenticated, answered 500 whether or not
      the role store would have answered. */
  lemma RoleRoutesNeverAdmit(k: nat, header: Option<string>, users: seq<User>, roles: seq<Role>, verify: Verifier, fails: seq<bool>)
    requires k < |Table()| && |fails| == 2
    ensures var s := RunChain(Table()[k].guards, header, None, users, roles, verify, fails);
      && s.gate != Next
      && (s.gate == Stop(500, "Role verification failed") <==>
           AuthMiddleware.ProtectDecision(header, None, users, verify, fails[0]).gate == Next)
      && (s.gate.Stop? && s.gate.status == 401 <==>
           AuthMiddleware.ProtectDecision(header, None, users, verify, fails[0]).gate != Next)
  {
    var guards := Table()[k].guards;
    assert guards[1..] == [CheckRole(FromAuthMiddleware, ["Admin"])];
    assert guards[1..][1..] == [];
  }
}
