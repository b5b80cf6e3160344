/** Whole-system runs through the handlers and the guard chains, on a store that
    starts empty, as the server would see them one request after another. */
module Scenarios {
  import opened Base
  import opened RoleModel
  import opened Store
  import opened Http
  import opened Router
  import AuthMiddleware
  import AuthController
  import RoleController
  import RoleMiddleware
  import UserRoutes
  import Server

  /** Start the server on an empty store (seeding the default roles) and register
      one account asking for the default role at position `rid`: the account is
      stored with that role and the registration answers 201 when a token is
      issued. */
  method SeedAndRegister(username: string, email: string, password: string, roleName: Option<string>, rid: RoleId,
                         hash: Hasher, issue: Issuer) returns (db: Database, r: Response)
    requires rid < 3 && AuthController.RequestedRole(roleName) == ["User", "Moderator", "Admin"][rid]
    ensures fresh(db) && db.Valid()
    ensures db.roles == Server.DefaultRoles()
    ensures db.users == [User(username, email, hash(password), rid, true)]
    ensures r.status == if issue(0, rid).Some? then 201 else 500
    ensures issue(0, rid).Some? ==> r.body.Auth? && r.body.token == issue(0, rid).value
  {
    db := new Database();
    Server.SeedRoles(db, false);
    Server.DefaultRoleIds(AuthController.RequestedRole(roleName), rid);
    assert !Taken([], username, email);
    r := AuthController.RegisterUser(db, username, email, password, roleName, hash, issue, false);
  }

  /** After seeding, a user who registers without naming a role gets the `User`
      role, logs in with the same password, and is then refused the user list
      with 403. The codec is only assumed to verify the token it issued. */
  method DefaultRegistrationDeniedUserList(hash: Hasher, matches: Matcher, issue: Issuer, verify: Verifier)
    returns (registered: nat, loggedIn: nat, listed: nat)
    requires matches("pw123", hash("pw123"))
    requires issue(0, 0).Some? && issue(0, 0).value != "" && ' ' !in issue(0, 0).value
    requires verify(issue(0, 0).value) == Some(Claims(0, 0))
    ensures registered == 201 && loggedIn == 200 && listed == 403
  {
    var db, reg := SeedAndRegister("alice", "a@x.com", "pw123", None, 0, hash, issue);
    registered := reg.status;
    var roles := db.roles;
    var users := db.users;
    assert UserByEmail(users, "a@x.com") == Some(0);
    var login := AuthController.LoginUser(users, roles, "a@x.com", "pw123", matches, issue, false);
    loggedIn := login.status;
    var header := Some("Bearer " + login.body.token);
    AuthMiddleware.BearerHeaderVerified(login.body.token, verify);
    UserRoutes.ListUsersDecidedByStoredRole(header, users, roles, verify);
    var s := RunChain(UserRoutes.Table()[0].guards, header, None, users, roles, verify, [false, false]);
    listed := s.gate.status;
  }

  /** Role names are read afresh on every request: an Admin who holds a valid
      token is admitted to the user list, and once the `Admin` role is renamed
      the same token is refused with 403, without logging in again. */
  method RenamedRoleLosesAccess(hash: Hasher, issue: Issuer, verify: Verifier)
    returns (admittedBefore: bool, statusAfter: nat)
    requires issue(0, 2).Some? && issue(0, 2).value != "" && ' ' !in issue(0, 2).value
    requires verify(issue(0, 2).value) == Some(Claims(0, 2))
    ensures admittedBefore && statusAfter == 403
  {
    var db, reg := SeedAndRegister("root", "r@x.com", "pw", Some("Admin"), 2, hash, issue);
    var seeded, users := db.roles, db.users;
    var header := Some("Bearer " + issue(0, 2).value);
    AdminChainBeforeAndAfterRename(header, users, seeded, issue(0, 2).value, verify);
    var before := RunChain(UserRoutes.Table()[0].guards, header, None, users, seeded, verify, [false, false]);
    admittedBefore := before.gate == Next;
    assert !RoleController.NameHeldByOther(seeded, 2, "Retired");
    var upd := RoleController.UpdateRole(db, 2, "Retired", ["read:profile"], false);
    assert db.roles == seeded[2 := Role("Retired", ["read:profile"])];
    var after := RunChain(UserRoutes.Table()[0].guards, header, None, db.users, db.roles, verify, [false, false]);
    statusAfter := after.gate.status;
  }

  /** The user-list chain for the one registered Admin, on the seeded roles and
      after the `Admin` role has been renamed. */
  lemma AdminChainBeforeAndAfterRename(header: Option<string>, users: seq<User>, seeded: seq<Role>, token: string, verify: Verifier)
    requires token != "" && ' ' !in token && header == Some("Bearer " + token)
    requires verify(token) == Some(Claims(0, 2))
    requires |users| == 1 && users[0].roleId == 2
    requires seeded == Server.DefaultRoles()
    ensures RunChain(UserRoutes.Table()[0].guards, header, None, users, seeded, verify, [false, false]).gate == Next
    ensures RunChain(UserRoutes.Table()[0].guards, header, None, users,
                     seeded[2 := Role("Retired", ["read:profile"])], verify, [false, false]).gate.status == 403
  {
    AuthMiddleware.BearerHeaderVerified(token, verify);
    UserRoutes.ListUsersDecidedByStoredRole(header, users, seeded, verify);
    UserRoutes.ListUsersDecidedByStoredRole(header, users, seeded[2 := Role("Retired", ["read:profile"])], verify);
  }

  /** `findByIdAndUpdate` skips the schema's validators: after seeding, the
      `User` role can be renamed to a name outside the enumeration, and the
      collection then holds a role the schema would never have created. */
  method RenameOutsideEnumeration() returns (status: nat, schemaValid: bool)
    ensures status == 200 && !schemaValid
  {
    var db := new Database();
    Server.SeedRoles(db, false);
    var r := RoleController.UpdateRole(db, 0, "Superuser", ["read:profile"], false);
    status := r.status;
    schemaValid := SchemaValid(db.roles[0]);
  }

  /** Two codecs that agree on which user a token names, but not necessarily on
      the role it claims, lead to the same decision on the Admin-only route: the
      decision reads the role stored for the user, never the token's role claim. */
  lemma TokenRoleClaimIgnored(header: Option<string>, users: seq<User>, roles: seq<Role>, v1: Verifier, v2: Verifier, fails: seq<bool>)
    requires |fails| == 2
    requires AuthMiddleware.Verified(header, v1).Some? <==> AuthMiddleware.Verified(header, v2).Some?
    requires AuthMiddleware.Verified(header, v1).Some? ==>
      AuthMiddleware.Verified(header, v1).value.id == AuthMiddleware.Verified(header, v2).value.id
    ensures RunChain(UserRoutes.Table()[0].guards, header, None, users, roles, v1, fails).gate
         == RunChain(UserRoutes.Table()[0].guards, header, None, users, roles, v2, fails).gate
  {
    UserRoutes.ListUsersAdminOnly(header, users, roles, v1, fails);
    UserRoutes.ListUsersAdminOnly(header, users, roles, v2, fails);
    var g := UserRoutes.Table()[0].guards;
    assert g[1..] == [CheckRole(FromRoleMiddleware, ["Admin"])];
    assert g[1..][1..] == [];
  }
}
