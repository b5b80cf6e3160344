/** server.js: which routers are mounted where, the startup seeding of the three
    default roles, and the fallback error handler. */
module Server {
  import opened Base
  import opened RoleModel
  import opened Store
  import opened Http
  import opened Router
  import AuthRoutes
  import UserRoutes
  import RoleRoutes

  /** The roles seeding creates, in creation order. */
  function DefaultRoles(): (r: seq<Role>)
    ensures |r| == 3
    ensures r[0].name == "User" && r[1].name == "Moderator" && r[2].name == "Admin"
    ensures AllSchemaValid(r) && DistinctNames(r)
    ensures forall p :: p in r[0].permissions ==> p in r[1].permissions
    ensures forall p :: p in r[1].permissions ==> p in r[2].permissions
    ensures "manage:users" !in r[0].permissions && "manage:users" in r[1].permissions
    ensures "manage:roles" !in r[1].permissions && "manage:roles" in r[2].permissions
    ensures "full:access" in r[2].permissions
  {
    [ Role("User", ["read:profile", "update:profile"]),
      Role("Moderator", ["read:profile", "update:profile", "manage:users"]),
      Role("Admin", ["read:profile", "update:profile", "manage:users", "manage:roles", "full:access"]) ]
  }

  /** After seeding, each default role is found by its name at its creation
      position, and no other role holds the name of any of them. */
  lemma DefaultRoleIds(name: string, id: RoleId)
    requires id < 3 && name == ["User", "Moderator", "Admin"][id]
    ensures RoleByName(DefaultRoles(), name) == Some(id)
    ensures forall j :: 0 <= j < 3 && j != id ==> DefaultRoles()[j].name != name
  {
    RoleByNameUnique(DefaultRoles(), name, id);
  }

  /** `seedRoles`: when the role collection is empty, create the default roles;
      otherwise do nothing. `fail` says that counting or creating raised; the
      error is logged and swallowed, so nothing reaches the caller. */
  method SeedRoles(db: Database, fail: bool)
    requires db.Valid()
    modifies db
    ensures db.Valid() && db.users == old(db.users)
    ensures !fail && |old(db.roles)| == 0 ==> db.roles == DefaultRoles()
    ensures fail || |old(db.roles)| != 0 ==> db.roles == old(db.roles)
  {
    if fail {
      return;
    }
    var roleCount := |db.roles|;
    if roleCount == 0 {
      db.roles := DefaultRoles();
    }
  }

  /** Seeding an empty store twice leaves exactly the three default roles, not
      six; if both attempts fail it leaves none. */
  method SeedTwiceOnEmptyStore(first: bool, second: bool) returns (count: nat)
    ensures count == if first && second then 0 else 3
  {
    var db := new Database();
    SeedRoles(db, first);
    SeedRoles(db, second);
    count := |db.roles|;
  }

  /** The fallback error handler: always 500 "Something broke!", with the stack
      trace unless `NODE_ENV` is `production`. */
  function FallbackError(nodeEnv: Option<string>, stack: string): (r: Response)
    ensures r.status == 500 && r.message == "Something broke!"
    ensures r.body == ErrorDetail(stack) <==> nodeEnv != Some("production")
    ensures r.body == EmptyErrorObject <==> nodeEnv == Some("production")
  {
    Response(500, "Something broke!", if nodeEnv == Some("production") then EmptyErrorObject else ErrorDetail(stack))
  }

  /** A route path below a mount point, as Express matches it: the router's
      root answers the mount path itself, any other path follows the mount. */
  function Under(mount: string, path: string): (r: string)
    ensures mount <= r
    ensures path == "/" ==> |r| == |mount|
    ensures path != "/" ==> r[|mount|..] == path
  {
    if path == "/" then mount else mount + path
  }

  /** A router's routes as seen from the application once mounted at `mount`:
      same order, every path below the mount point, and method, guards and
      handler untouched. */
  function Prefixed(mount: string, routes: seq<Route>): (r: seq<Route>)
    ensures |r| == |routes|
    ensures forall i :: 0 <= i < |r| ==> mount <= r[i].path
    ensures forall i :: 0 <= i < |r| ==>
      r[i].verb == routes[i].verb && r[i].guards == routes[i].guards && r[i].handler == routes[i].handler
    ensures forall i :: 0 <= i < |r| && routes[i].path != "/" ==> r[i].path[|mount|..] == routes[i].path
  {
    seq(|routes|, i requires 0 <= i < |routes| => routes[i].(path := Under(mount, routes[i].path)))
  }

  /** Every route the server can reach, in mounting order: only the auth and
      user routers are mounted, so every path lies below `/api/auth` or
      `/api/users`, and no route leads to a role handler or to the status
      handler. */
  function Reachable(): (r: seq<Route>)
    ensures |r| == |AuthRoutes.Table()| + |UserRoutes.Table()|
    ensures forall i :: 0 <= i < |r| ==> "/api/auth" <= r[i].path || "/api/users" <= r[i].path
    ensures forall i :: 0 <= i < |r| ==> r[i].handler !in {AddRole, UpdateRole, UpdateUserStatus}
  {
    var auth := Prefixed("/api/auth", AuthRoutes.Table());
    var user := Prefixed("/api/users", UserRoutes.Table());
    MountedTogether(auth, user, "/api/auth", "/api/users", {AddRole, UpdateRole, UpdateUserStatus});
    auth + user
  }

  /** Two mounted routers side by side keep each route's mount prefix and keep
      out the handlers neither router names. */
  lemma MountedTogether(a: seq<Route>, b: seq<Route>, ma: string, mb: string, excluded: set<Handler>)
    requires forall i :: 0 <= i < |a| ==> ma <= a[i].path && a[i].handler !in excluded
    requires forall i :: 0 <= i < |b| ==> mb <= b[i].path && b[i].handler !in excluded
    ensures forall i :: 0 <= i < |a + b| ==> ma <= (a + b)[i].path || mb <= (a + b)[i].path
    ensures forall i :: 0 <= i < |a + b| ==> (a + b)[i].handler !in excluded
  {
    forall i | 0 <= i < |a + b|
      ensures (ma <= (a + b)[i].path || mb <= (a + b)[i].path) && (a + b)[i].handler !in excluded
    {
      if i >= |a| {
        assert (a + b)[i] == b[i - |a|];
      }
    }
  }

  /** The route a request reaches, the first that matches in mounting order. */
  function Lookup(verb: Method, path: string): (r: Option<Route>)
    ensures r.Some? ==> r.value in Reachable() && r.value.verb == verb && r.value.path == path
    ensures r.None? ==> forall i :: 0 <= i < |Reachable()| ==> !(Reachable()[i].verb == verb && Reachable()[i].path == path)
  {
    match FindFirst(Reachable(), (rt: Route) => rt.verb == verb && rt.path == path)
    case None => None
    case Some(i) => Some(Reachable()[i])
  }

  /** No request reaches `addRole`, `updateRole` or `updateUserStatus`: the role
      router is not mounted and no mounted route names the status handler. */
  lemma UnreachableHandlers(verb: Method, path: string)
    ensures Lookup(verb, path).Some? ==> Lookup(verb, path).value.handler !in {AddRole, UpdateRole, UpdateUserStatus}
  {
  }

  /** `GET /api/users` reaches the Admin-only listing, behind `protect` and the
      role-store `checkRole`. */
  lemma ListUsersRouted()
    ensures Lookup(Get, "/api/users").Some?
    ensures Lookup(Get, "/api/users").value.handler == GetAllUsers
    ensures Lookup(Get, "/api/users").value.guards == [Protect, CheckRole(FromRoleMiddleware, ["Admin"])]
  {
    OnlyListRouteAtUsersRoot();
  }

  /** The fourth reachable route, the user router's root, is the only one that
      answers `GET /api/users`. */
  lemma OnlyListRouteAtUsersRoot()
    ensures |Reachable()| == 6
    ensures Reachable()[3] == Route(Get, "/api/users", [Protect, CheckRole(FromRoleMiddleware, ["Admin"])], GetAllUsers)
    ensures forall i :: 0 <= i < 6 && i != 3 ==> !(Reachable()[i].verb == Get && Reachable()[i].path == "/api/users")
  {
    var a := Prefixed("/api/auth", AuthRoutes.Table());
    var u := Prefixed("/api/users", UserRoutes.Table());
    var all := Reachable();
    assert all == a + u;
    assert all[3] == u[0];
    assert forall i :: 0 <= i < 3 ==> all[i].verb == a[i].verb;
    assert all[4] == u[1] && |u[1].path| == 18;
    assert all[5] == u[2];
  }

  /** `POST /api/roles` reaches nothing. */
  lemma RoleRoutesNotMounted()
    ensures Lookup(Post, "/api/roles").None?
  {
    var all := Reachable();
    forall i | 0 <= i < |all| ensures all[i].path != "/api/roles" {
      if "/api/auth" <= all[i].path {
        assert all[i].path[5] == 'a';
      } else {
        assert all[i].path[5] == 'u';
      }
    }
  }
}
