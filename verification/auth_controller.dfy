/** controllers/authController.js: registration (a uniqueness check, a role
    lookup with a default, an insert, a token) and login (a lookup by email, a
    password comparison, a token). */
module AuthController {
  import opened Base
  import opened RoleModel
  import opened Store
  import opened Http

  const AlreadyExists := "User already exists"
  const InvalidRole := "Invalid role specified"
  const RegistrationFailed := "Registration failed"
  const InvalidCredentials := "Invalid email or password"
  const LoginFailed := "Login failed"

  /** `roleName || 'User'`. */
  function RequestedRole(roleName: Option<string>): (name: string)
    ensures Falsy(roleName) ==> name == "User"
    ensures !Falsy(roleName) ==> name == roleName.value
  {
    Or(roleName, "User")
  }

  /** `registerUser`. `fail` says that a store call raised before the user was
      written. Signing happens after the insert, so a signing failure answers 500
      with the new user already stored. */
  method RegisterUser(db: Database, username: string, email: string, password: string, roleName: Option<string>,
                      hash: Hasher, issue: Issuer, fail: bool) returns (r: Response)
    requires db.Valid()
    modifies db
    ensures db.Valid() && db.roles == old(db.roles)
    ensures UniqueIdentities(old(db.users)) ==> UniqueIdentities(db.users)
    ensures fail ==> db.users == old(db.users) && r == Response(500, RegistrationFailed, Empty)
    ensures !fail && Taken(old(db.users), username, email) ==>
      db.users == old(db.users) && r == Response(400, AlreadyExists, Empty)
    ensures !fail && !Taken(old(db.users), username, email) && RoleByName(db.roles, RequestedRole(roleName)).None? ==>
      db.users == old(db.users) && r == Response(400, InvalidRole, Empty)
    ensures !fail && !Taken(old(db.users), username, email) && RoleByName(db.roles, RequestedRole(roleName)).Some? ==>
      var rid := RoleByName(db.roles, RequestedRole(roleName)).value;
      var id := |old(db.users)|;
      && db.users == old(db.users) + [User(username, email, hash(password), rid, true)]
      && r == if issue(id, rid).Some?
              then Response(201, "", Auth(id, username, email, db.roles[rid].name, issue(id, rid).value))
              else Response(500, RegistrationFailed, Empty)
  {
    if fail {
      return Response(500, RegistrationFailed, Empty);
    }
    if Taken(db.users, username, email) {
      return Response(400, AlreadyExists, Empty);
    }
    var role := RoleByName(db.roles, RequestedRole(roleName));
    if role.None? {
      return Response(400, InvalidRole, Empty);
    }
    var id := |db.users|;
    var user := User(username, email, hash(password), role.value, true);
    db.users := db.users + [user];
    assert forall i :: 0 <= i < id ==> db.users[i] == old(db.users)[i];
    var token := issue(id, role.value);
    if token.None? {
      return Response(500, RegistrationFailed, Empty);
    }
    r := Response(201, "", Auth(id, username, email, db.roles[role.value].name, token.value));
  }

  /** `loginUser`: a pure read of both stores. The first user with the email is
      the candidate; a missing user and a wrong password give the same answer. A
      role reference that does not resolve makes the populated role null, and
      reading its id throws. */
  function LoginUser(users: seq<User>, roles: seq<Role>, email: string, password: string,
                     matches: Matcher, issue: Issuer, fail: bool): (r: Response)
    ensures r.status in {200, 401, 500}
    ensures fail ==> r == Response(500, LoginFailed, Empty)
    ensures r.status == 401 <==>
      !fail && (UserByEmail(users, email).None? || !matches(password, users[UserByEmail(users, email).value].passwordHash))
    ensures r.status == 401 ==> r == Response(401, InvalidCredentials, Empty)
    ensures r.status == 500 ==> r == Response(500, LoginFailed, Empty)
    ensures r.status == 200 ==>
      && UserByEmail(users, email).Some?
      && var id := UserByEmail(users, email).value;
      && var u := users[id];
      && matches(password, u.passwordHash) && u.roleId < |roles| && issue(id, u.roleId).Some?
      && r == Response(200, "", Auth(id, u.username, u.email, roles[u.roleId].name, issue(id, u.roleId).value))
    ensures !fail && UserByEmail(users, email).Some? ==>
      var id := UserByEmail(users, email).value;
      var u := users[id];
      matches(password, u.passwordHash) && u.roleId < |roles| && issue(id, u.roleId).Some? ==> r.status == 200
  {
    if fail then Response(500, LoginFailed, Empty)
    else match UserByEmail(users, email)
      case None => Response(401, InvalidCredentials, Empty)
      case Some(id) =>
        var u := users[id];
        if !matches(password, u.passwordHash) then Response(401, InvalidCredentials, Empty)
        else match RoleById(roles, u.roleId)
          case None => Response(500, LoginFailed, Empty)
          case Some(role) =>
            match issue(id, u.roleId)
            case None => Response(500, LoginFailed, Empty)
            case Some(token) => Response(200, "", Auth(id, u.username, u.email, role.name, token))
  }

  /** A user just registered with an unused username and email can log in with
      the same password (when the hash matches its own plaintext): the login
      finds that very user and reports the role it was registered with. */
  lemma LoginAfterRegistration(users: seq<User>, roles: seq<Role>, username: string, email: string, password: string,
                               rid: RoleId, hash: Hasher, matches: Matcher, issue: Issuer)
    requires !Taken(users, username, email)
    requires rid < |roles|
    requires matches(password, hash(password))
    requires issue(|users|, rid).Some?
    ensures LoginUser(users + [User(username, email, hash(password), rid, true)], roles, email, password, matches, issue, false)
         == Response(200, "", Auth(|users|, username, email, roles[rid].name, issue(|users|, rid).value))
  {
    var after := users + [User(username, email, hash(password), rid, true)];
    assert after[|users|].email == email;
    assert forall j :: 0 <= j < |users| ==> after[j] == users[j];
    assert UserByEmail(after, email) == Some(|users|);
  }
}
