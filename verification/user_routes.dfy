/** routes/userRoutes.js: the user routes, each with its guard chain. Only
    listing all users checks a role; the `checkRole` used here is the one from
    middleware/roleMiddleware.js. */
module UserRoutes {
  import opened Base
  import opened RoleModel
  import opened Store
  import opened Http
  import opened Router
  import AuthMiddleware
  import RoleMiddleware
  import UserController

  /** The table, paths relative to the mount point. */
  function Table(): (t: seq<Route>)
    ensures |t| == 3
    ensures forall i :: 0 <= i < |t| ==> |t[i].guards| >= 1 && t[i].guards[0] == Protect
    ensures forall i :: 0 <= i < |t| ==> t[i].handler in {GetAllUsers, GetUserProfile, UpdateUserProfile}
    ensures t[0].verb == Get && t[0].path == "/" && t[0].handler == GetAllUsers
    ensures t[1].verb == Get && t[1].path == "/profile" && t[1].handler == GetUserProfile
    ensures t[2].verb == Put && t[2].path == "/profile" && t[2].handler == UpdateUserProfile
  {
    [ Route(Get, "/", [Protect, CheckRole(FromRoleMiddleware, ["Admin"])], GetAllUsers),
      Route(Get, "/profile", [Protect], GetUserProfile),
      Route(Put, "/profile", [Protect], UpdateUserProfile) ]
  }

  /** Listing all users is for Admins only: a fresh request passes its chain
      exactly when `protect` admits it (its token verifies and the user it names
      exists), the role lookup does not raise, and that user's role, as stored
      now, is named `Admin`. An admitted user whose stored role has another name
      gets 403; one whose role lookup raises or finds nothing gets 500. `fails`
      holds one store fault per guard: `protect`'s, then `checkRole`'s. */
  lemma ListUsersAdminOnly(header: Option<string>, users: seq<User>, roles: seq<Role>, verify: Verifier, fails: seq<bool>)
    requires |fails| == 2
    ensures var s := RunChain(Table()[0].guards, header, None, users, roles, verify, fails);
      var claims := AuthMiddleware.Verified(header, verify);
      var admitted := !fails[0] && claims.Some? && claims.value.id < |users|;
      && (s.gate.Stop? && s.gate.status == 401 <==> !admitted)
      && (s.gate == Next <==>
           admitted && !fails[1] && users[claims.value.id].roleId < |roles| &&
           roles[users[claims.value.id].roleId].name == "Admin")
      && (s.gate == Stop(403, RoleMiddleware.AccessDenied) <==>
           admitted && !fails[1] && users[claims.value.id].roleId < |roles| &&
           roles[users[claims.value.id].roleId].name != "Admin")
      && (s.gate == Stop(500, RoleMiddleware.VerificationFailed) <==>
           admitted && (fails[1] || users[claims.value.id].roleId >= |roles|))
  {
    var guards := Table()[0].guards;
    var first := RunGuard(guards[0], header, None, users, roles, verify, fails[0]);
    assert guards[1..] == [CheckRole(FromRoleMiddleware, ["Admin"])];
    assert guards[1..][1..] == [];
  }

  /** For an authenticated user of the store, and a store that does not fail,
      listing all users is decided by the name of the user's stored role alone. */
  lemma ListUsersDecidedByStoredRole(header: Option<string>, users: seq<User>, roles: seq<Role>, verify: Verifier)
    requires AuthMiddleware.Verified(header, verify).Some?
    requires AuthMiddleware.Verified(header, verify).value.id < |users|
    requires users[AuthMiddleware.Verified(header, verify).value.id].roleId < |roles|
    ensures var u := users[AuthMiddleware.Verified(header, verify).value.id];
      RunChain(Table()[0].guards, header, None, users, roles, verify, [false, false]).gate
        == if roles[u.roleId].name == "Admin" then Next else Stop(403, RoleMiddleware.AccessDenied)
  {
    ListUsersAdminOnly(header, users, roles, verify, [false, false]);
  }

  /** The profile routes check no role: any user `protect` admits, of any role,
      reaches the handler. `fail` says that `protect`'s user lookup raised. */
  lemma ProfileRoutesAnyRole(k: nat, header: Option<string>, users: seq<User>, roles: seq<Role>, verify: Verifier, fail: bool)
    requires k == 1 || k == 2
    ensures RunChain(Table()[k].guards, header, None, users, roles, verify, [fail])
         == AuthMiddleware.ProtectDecision(header, None, users, verify, fail)
  {
    assert Table()[k].guards == [Protect];
    assert Table()[k].guards[1..] == [];
  }

  /** Once `GET /profile` has passed its chain, the handler finds the attached
      user, so it never answers 404 unless the store fails. */
  lemma ProfileFoundAfterProtect(header: Option<string>, users: seq<User>, roles: seq<Role>, verify: Verifier, fail: bool)
    requires RunChain(Table()[1].guards, header, None, users, roles, verify, [fail]).gate == Next
    ensures var s := RunChain(Table()[1].guards, header, None, users, roles, verify, [fail]);
      s.user.Some? && UserController.GetUserProfile(users, s.user.value.id, false).status == 200
  {
    ProfileRoutesAnyRole(1, header, users, roles, verify, fail);
  }
}
