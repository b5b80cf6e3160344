/** controllers/roleController.js: creating a role after a name check, and
    overwriting a stored role in place. */
module RoleController {
  import opened Base
  import opened RoleModel
  import opened Store
  import opened Http

  const RoleExists := "Role already exists"
  const RoleCreated := "Role created successfully"
  const CreateFailed := "Failed to create role"
  const RoleNotFound := "Role not found"
  const RoleUpdated := "Role updated successfully"
  const UpdateFailed := "Failed to update role"

  /** Some role other than `id` already holds `name`. */
  predicate NameHeldByOther(roles: seq<Role>, id: RoleId, name: string) {
    exists j :: 0 <= j < |roles| && j != id && roles[j].name == name
  }

  /** `addRole`. `Role.create` runs the schema's validators, so a name outside
      the enumeration, an empty name or an empty permission is refused there and
      reported like any other store error. */
  method AddRole(db: Database, name: string, permissions: seq<string>, fail: bool) returns (r: Response)
    requires db.Valid()
    modifies db
    ensures db.Valid() && db.users == old(db.users)
    ensures AllSchemaValid(old(db.roles)) ==> AllSchemaValid(db.roles)
    ensures fail ==> db.roles == old(db.roles) && r == Response(500, CreateFailed, Empty)
    ensures !fail && RoleByName(old(db.roles), name).Some? ==>
      db.roles == old(db.roles) && r == Response(400, RoleExists, Empty)
    ensures !fail && RoleByName(old(db.roles), name).None? && !SchemaValid(Role(name, permissions)) ==>
      db.roles == old(db.roles) && r == Response(500, CreateFailed, Empty)
    ensures !fail && RoleByName(old(db.roles), name).None? && SchemaValid(Role(name, permissions)) ==>
      && db.roles == old(db.roles) + [Role(name, permissions)]
      && r == Response(201, RoleCreated, RoleRecord(|old(db.roles)|, Role(name, permissions)))
  {
    if fail {
      return Response(500, CreateFailed, Empty);
    }
    var existing := RoleByName(db.roles, name);
    if existing.Some? {
      return Response(400, RoleExists, Empty);
    }
    var role := Role(name, permissions);
    if !SchemaValid(role) {
      return Response(500, CreateFailed, Empty);
    }
    var id := |db.roles|;
    db.roles := db.roles + [role];
    assert forall i :: 0 <= i < id ==> db.roles[i] == old(db.roles)[i];
    r := Response(201, RoleCreated, RoleRecord(id, role));
  }

  /** `updateRole`: `findByIdAndUpdate` writes both fields as sent. It does not
      run the schema's validators, but the unique index on `name` still refuses a
      name another role holds, which the handler reports as a store error. */
  method UpdateRole(db: Database, id: RoleId, name: string, permissions: seq<string>, fail: bool) returns (r: Response)
    requires db.Valid()
    modifies db
    ensures db.Valid() && db.users == old(db.users)
    ensures fail ==> db.roles == old(db.roles) && r == Response(500, UpdateFailed, Empty)
    ensures !fail && id >= |old(db.roles)| ==> db.roles == old(db.roles) && r == Response(404, RoleNotFound, Empty)
    ensures !fail && id < |old(db.roles)| && NameHeldByOther(old(db.roles), id, name) ==>
      db.roles == old(db.roles) && r == Response(500, UpdateFailed, Empty)
    ensures !fail && id < |old(db.roles)| && !NameHeldByOther(old(db.roles), id, name) ==>
      && db.roles == old(db.roles)[id := Role(name, permissions)]
      && r == Response(200, RoleUpdated, RoleRecord(id, Role(name, permissions)))
  {
    if fail {
      return Response(500, UpdateFailed, Empty);
    }
    if id >= |db.roles| {
      return Response(404, RoleNotFound, Empty);
    }
    if NameHeldByOther(db.roles, id, name) {
      return Response(500, UpdateFailed, Empty);
    }
    var role := Role(name, permissions);
    db.roles := db.roles[id := role];
    r := Response(200, RoleUpdated, RoleRecord(id, role));
  }

  /** Updating a role leaves every other role as it was, and the updated role's
      schema validity is exactly that of the request: a name outside the
      enumeration can be stored this way. */
  lemma UpdateKeepsOthers(roles: seq<Role>, id: RoleId, name: string, permissions: seq<string>)
    requires id < |roles| && AllSchemaValid(roles)
    ensures forall j :: 0 <= j < |roles| && j != id ==> roles[id := Role(name, permissions)][j] == roles[j]
    ensures AllSchemaValid(roles[id := Role(name, permissions)]) <==> SchemaValid(Role(name, permissions))
  {
    var after := roles[id := Role(name, permissions)];
    assert after[id] == Role(name, permissions);
  }
}
