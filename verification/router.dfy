/** How a route is declared — a method, a path, the middleware it runs before its
    handler, and the handler — and how a chain of guards runs: each guard either
    passes the request on or answers it, and the first answer ends the chain. */
module Router {
  import opened Base
  import opened RoleModel
  import opened Store
  import opened Http
  import RoleMiddleware
  import AuthMiddleware

  datatype Method = Get | Post | Put | Patch

  datatype Handler =
    | RegisterUser | LoginUser | Logout
    | GetAllUsers | GetUserProfile | UpdateUserProfile | UpdateUserStatus
    | AddRole | UpdateRole

  /** Which file a `checkRole` was imported from: the two are different
      functions. */
  datatype CheckRoleSource = FromRoleMiddleware | FromAuthMiddleware

  datatype Guard = Protect | CheckRole(source: CheckRoleSource, allowed: seq<string>)

  datatype Route = Route(verb: Method, path: string, guards: seq<Guard>, handler: Handler)

  /** One guard applied to the request state `user` (`req.user`). */
  function RunGuard(g: Guard, header: Option<string>, user: Option<PublicUser>,
                    users: seq<User>, roles: seq<Role>, verify: Verifier, fail: bool): (s: Step)
    ensures s.gate.Stop? ==> s.gate.status in {401, 403, 500}
    ensures g.CheckRole? ==> s.user == user
  {
    match g
    case Protect => AuthMiddleware.ProtectDecision(header, user, users, verify, fail)
    case CheckRole(FromRoleMiddleware, allowed) => Step(RoleMiddleware.CheckRole(allowed, user, roles, fail), user)
    case CheckRole(FromAuthMiddleware, allowed) => Step(AuthMiddleware.CheckRole(allowed, user), user)
  }

  /** The guards of a route, in order, starting from `req.user == user`.
      `fails[i]` says that the store lookup of the `i`-th guard raised: each
      guard queries the store on its own, so each may fail on its own. */
  function RunChain(guards: seq<Guard>, header: Option<string>, user: Option<PublicUser>,
                    users: seq<User>, roles: seq<Role>, verify: Verifier, fails: seq<bool>): (s: Step)
    requires |fails| == |guards|
    ensures s.gate.Stop? ==> s.gate.status in {401, 403, 500}
    ensures guards == [] ==> s == Step(Next, user)
    decreases |guards|
  {
    if guards == [] then Step(Next, user)
    else
      var first := RunGuard(guards[0], header, user, users, roles, verify, fails[0]);
      if first.gate.Stop? then first
      else RunChain(guards[1..], header, first.user, users, roles, verify, fails[1..])
  }

  /** A chain that starts with `protect` and admits the request leaves in
      `req.user` a user that is in the store, with the id its token names. */
  lemma {:induction false} ProtectFirstAdmitsStoredUser(guards: seq<Guard>, header: Option<string>, user: Option<PublicUser>,
                                                        users: seq<User>, roles: seq<Role>, verify: Verifier, fails: seq<bool>)
    requires |fails| == |guards|
    requires |guards| >= 1 && guards[0] == Protect
    requires forall i :: 1 <= i < |guards| ==> guards[i] != Protect
    requires RunChain(guards, header, user, users, roles, verify, fails).gate == Next
    ensures var s := RunChain(guards, header, user, users, roles, verify, fails);
      && AuthMiddleware.Verified(header, verify).Some?
      && var id := AuthMiddleware.Verified(header, verify).value.id;
      && id < |users| && s.user == Some(Strip(id, users[id]))
  {
    var first := RunGuard(guards[0], header, user, users, roles, verify, fails[0]);
    assert forall i :: 0 <= i < |guards[1..]| ==> guards[1..][i] == guards[i + 1];
    CheckRolesKeepUser(guards[1..], header, first.user, users, roles, verify, fails[1..]);
  }

  /** A `checkRole` never changes `req.user`; a chain after `protect` that holds
      only `checkRole` guards ends with the user `protect` attached. */
  lemma {:induction false} CheckRolesKeepUser(guards: seq<Guard>, header: Option<string>, user: Option<PublicUser>,
                                              users: seq<User>, roles: seq<Role>, verify: Verifier, fails: seq<bool>)
    requires |fails| == |guards|
    ensures (forall i :: 0 <= i < |guards| ==> guards[i] != Protect) ==>
      RunChain(guards, header, user, users, roles, verify, fails).user == user
    decreases |guards|
  {
    if guards != [] && (forall i :: 0 <= i < |guards| ==> guards[i] != Protect) {
      assert forall i :: 1 <= i < |guards| ==> guards[1..][i - 1] == guards[i];
      CheckRolesKeepUser(guards[1..], header, user, users, roles, verify, fails[1..]);
    }
  }
}
