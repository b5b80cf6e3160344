/** The two collections the handlers share — users and roles — and the external
    collaborators they call: the token codec and the password hash. A record's id
    is its position in its collection: documents are never deleted, so an id stays
    valid and names the same record for the life of the store, and the store's
    natural order is the order of the positions. */
module Store {
  import opened Base
  import opened RoleModel

  type UserId = nat
  type RoleId = nat

  /** A stored user document: the role is referenced by id, not embedded. */
  datatype User = User(username: string, email: string, passwordHash: string, roleId: RoleId, isActive: bool)

  /** A user as handed out by the server: the same document without its
      password field (`select('-password')`). */
  datatype PublicUser = PublicUser(id: UserId, username: string, email: string, roleId: RoleId, isActive: bool)

  function Strip(id: UserId, u: User): (p: PublicUser)
    ensures p.id == id && p.roleId == u.roleId && p.isActive == u.isActive
    ensures p.username == u.username && p.email == u.email
  {
    PublicUser(id, u.username, u.email, u.roleId, u.isActive)
  }

  /** The claims a signed token carries: the user's id and the role id it had
      when the token was issued. */
  datatype Claims = Claims(id: UserId, role: RoleId)

  /** Token verification: the claims of a token that verifies (signature and
      expiry are inside the codec), `None` when verification throws. */
  type Verifier = string -> Option<Claims>

  /** Token signing: `None` when signing throws (for instance without a secret). */
  type Issuer = (UserId, RoleId) -> Option<string>

  /** The one-way hash the user document applies to a new password. */
  type Hasher = string -> string

  /** `matchPassword(plaintext)` against a stored hash. */
  type Matcher = (string, string) -> bool

  /** `User.findById(id)`. */
  function UserById(users: seq<User>, id: UserId): (r: Option<User>)
    ensures r.Some? <==> id < |users|
    ensures r.Some? ==> r.value == users[id]
  {
    if id < |users| then Some(users[id]) else None
  }

  /** `Role.findById(id)`. */
  function RoleById(roles: seq<Role>, id: RoleId): (r: Option<Role>)
    ensures r.Some? <==> id < |roles|
    ensures r.Some? ==> r.value == roles[id]
  {
    if id < |roles| then Some(roles[id]) else None
  }

  /** `User.findOne({ email })`: the first user, in natural order, with that email. */
  function UserByEmail(users: seq<User>, email: string): (r: Option<UserId>)
    ensures r.Some? ==> r.value < |users| && users[r.value].email == email
    ensures r.Some? ==> forall j :: 0 <= j < r.value ==> users[j].email != email
    ensures r.None? <==> forall j :: 0 <= j < |users| ==> users[j].email != email
  {
    FindFirst(users, (u: User) => u.email == email)
  }

  /** `Role.findOne({ name })`: the first role, in natural order, with that name. */
  function RoleByName(roles: seq<Role>, name: string): (r: Option<RoleId>)
    ensures r.Some? ==> r.value < |roles| && roles[r.value].name == name
    ensures r.None? <==> forall j :: 0 <= j < |roles| ==> roles[j].name != name
  {
    FindFirst(roles, (r: Role) => r.name == name)
  }

  /** `User.findOne({ $or: [{ email }, { username }] })` finds a document. */
  predicate Taken(users: seq<User>, username: string, email: string) {
    exists i :: 0 <= i < |users| && (users[i].email == email || users[i].username == username)
  }

  /** No two users share a username, and no two share an email. */
  predicate UniqueIdentities(users: seq<User>) {
    forall i, j :: 0 <= i < j < |users| ==>
      users[i].username != users[j].username && users[i].email != users[j].email
  }

  /** Every user's role reference resolves to a stored role. */
  predicate RoleRefsResolve(users: seq<User>, roles: seq<Role>) {
    forall i :: 0 <= i < |users| ==> users[i].roleId < |roles|
  }

  /** What every handler keeps true of the store: role names are unique (the
      index on `name`) and role references resolve (roles are never deleted and a
      user is only ever created with a role that was found). */
  predicate StoreValid(users: seq<User>, roles: seq<Role>) {
    DistinctNames(roles) && RoleRefsResolve(users, roles)
  }

  /** Under the unique index a role name resolves to the only role with it. */
  lemma RoleByNameUnique(roles: seq<Role>, name: string, id: RoleId)
    requires DistinctNames(roles)
    requires id < |roles| && roles[id].name == name
    ensures RoleByName(roles, name) == Some(id)
  {
  }

  /** The database the handlers share. */
  class Database {
    var users: seq<User>
    var roles: seq<Role>

    ghost predicate Valid()
      reads this
    {
      StoreValid(users, roles)
    }

    constructor ()
      ensures Valid()
      ensures users == [] && roles == []
    {
      users := [];
      roles := [];
    }
  }
}
