/** The Role document: a unique name drawn from a closed enumeration and a list of
    permission strings (models/Role.js). The schema's validators run when a role is
    created; the unique index on `name` is enforced by the store on every write. */
module RoleModel {

  datatype Role = Role(name: string, permissions: seq<string>)

  /** The enumeration the schema allows for `name`, in declaration order. */
  const RoleNames: seq<string> := ["User", "Moderator", "Admin"]

  /** `name` is required (an empty string fails `required`) and must be one of
      the enumerated names. */
  predicate NameValid(name: string) {
    name != "" && name in RoleNames
  }

  /** Every element of `permissions` is a required string. */
  predicate PermissionsValid(permissions: seq<string>) {
    forall i :: 0 <= i < |permissions| ==> permissions[i] != ""
  }

  /** What the schema's validators accept on creation. */
  predicate SchemaValid(r: Role) {
    NameValid(r.name) && PermissionsValid(r.permissions)
  }

  /** The unique index on `name`: no two stored roles share a name. */
  predicate DistinctNames(roles: seq<Role>) {
    forall i, j :: 0 <= i < j < |roles| ==> roles[i].name != roles[j].name
  }

  /** Every stored role passed the schema's validators. */
  predicate AllSchemaValid(roles: seq<Role>) {
    forall i :: 0 <= i < |roles| ==> SchemaValid(roles[i])
  }

  /** The set of names held by a role collection. */
  function Names(roles: seq<Role>): (names: set<string>)
    ensures forall i :: 0 <= i < |roles| ==> roles[i].name in names
    ensures forall n :: n in names ==> exists i :: 0 <= i < |roles| && roles[i].name == n
  {
    if roles == [] then {}
    else Names(roles[..|roles| - 1]) + {roles[|roles| - 1].name}
  }

  /** Distinct names give as many names as roles. */
  lemma {:induction false} DistinctNamesCount(roles: seq<Role>)
    requires DistinctNames(roles)
    ensures |Names(roles)| == |roles|
  {
    if roles != [] {
      var init := roles[..|roles| - 1];
      InitKeepsDistinctNames(roles);
      DistinctNamesCount(init);
      LastNameIsNew(roles);
    }
  }

  /** Dropping the last role keeps the names distinct. */
  lemma InitKeepsDistinctNames(roles: seq<Role>)
    requires roles != [] && DistinctNames(roles)
    ensures DistinctNames(roles[..|roles| - 1])
  {
  }

  /** The last role's name is held by none of the roles before it. */
  lemma LastNameIsNew(roles: seq<Role>)
    requires roles != [] && DistinctNames(roles)
    ensures roles[|roles| - 1].name !in Names(roles[..|roles| - 1])
  {
  }

  /** Because names are unique and drawn from a three-value enumeration, a role
      collection whose every role passed the schema holds at most three roles. */
  lemma AtMostThreeRoles(roles: seq<Role>)
    requires DistinctNames(roles) && AllSchemaValid(roles)
    ensures |roles| <= 3
  {
    DistinctNamesCount(roles);
    NamesWithinEnumeration(roles);
    var allowed: set<string> := {"User", "Moderator", "Admin"};
    assert |allowed| == 3;
    SubsetCard(Names(roles), allowed);
  }

  /** Roles that passed the schema only carry enumerated names. */
  lemma NamesWithinEnumeration(roles: seq<Role>)
    requires AllSchemaValid(roles)
    ensures Names(roles) <= {"User", "Moderator", "Admin"}
  {
  }

  lemma SubsetCard(a: set<string>, b: set<string>)
    requires a <= b
    ensures |a| <= |b|
  {
    assert b == a + (b - a);
  }
}
