/** controllers/userController.js: reading all users or one's own profile, and
    the two in-place edits of a user document. */
module UserController {
  import opened Base
  import opened Store
  import opened Http

  const FetchUsersFailed := "Error fetching users"
  const NotFound := "User not found"
  const FetchProfileFailed := "Error fetching profile"
  const ProfileUpdateFailed := "Profile update failed"
  const StatusUpdateFailed := "Failed to update user status"

  /** `getAllUsers`: every stored user, in the store's order, without the
      password field. */
  function GetAllUsers(users: seq<User>, fail: bool): (r: Response)
    ensures fail ==> r == Response(500, FetchUsersFailed, Empty)
    ensures !fail ==> r.status == 200 && r.message == "" && r.body.UserList?
    ensures !fail ==> |r.body.users| == |users|
    ensures !fail ==> forall i :: 0 <= i < |users| ==>
      r.body.users[i].id == i && r.body.users[i].username == users[i].username &&
      r.body.users[i].email == users[i].email && r.body.users[i].roleId == users[i].roleId &&
      r.body.users[i].isActive == users[i].isActive
  {
    if fail then Response(500, FetchUsersFailed, Empty)
    else Response(200, "", UserList(seq(|users|, i requires 0 <= i < |users| => Strip(i, users[i]))))
  }

  /** `getUserProfile` for the user `protect` attached (`self` is its id). */
  function GetUserProfile(users: seq<User>, self: UserId, fail: bool): (r: Response)
    ensures r.status in {200, 404, 500}
    ensures r.status == 500 <==> fail
    ensures r.status == 404 <==> !fail && self >= |users|
    ensures r.status == 404 ==> r == Response(404, NotFound, Empty)
    ensures r.status == 200 ==> self < |users| && r == Response(200, "", Profile(Strip(self, users[self])))
    ensures r.status == 500 ==> r == Response(500, FetchProfileFailed, Empty)
  {
    if fail then Response(500, FetchProfileFailed, Empty)
    else match UserById(users, self)
      case None => Response(404, NotFound, Empty)
      case Some(u) => Response(200, "", Profile(Strip(self, u)))
  }

  /** The document `updateUserProfile` saves: `username || old`, `email || old`,
      everything else untouched. */
  function ProfileEdit(u: User, username: Option<string>, email: Option<string>): (v: User)
    ensures v.passwordHash == u.passwordHash && v.roleId == u.roleId && v.isActive == u.isActive
    ensures v.username == (if Falsy(username) then u.username else username.value)
    ensures v.email == (if Falsy(email) then u.email else email.value)
  {
    u.(username := Or(username, u.username), email := Or(email, u.email))
  }

  /** `updateUserProfile`. The handler performs no uniqueness check of its own;
      `fail` covers a refused or failed save. */
  method UpdateUserProfile(db: Database, self: UserId, username: Option<string>, email: Option<string>, fail: bool)
    returns (r: Response)
    requires db.Valid()
    modifies db
    ensures db.Valid() && db.roles == old(db.roles)
    ensures fail ==> db.users == old(db.users) && r == Response(500, ProfileUpdateFailed, Empty)
    ensures !fail && self >= |old(db.users)| ==> db.users == old(db.users) && r == Response(404, NotFound, Empty)
    ensures !fail && self < |old(db.users)| ==>
      var v := ProfileEdit(old(db.users)[self], username, email);
      && db.users == old(db.users)[self := v]
      && r == Response(200, "", ProfileUpdate(self, v.username, v.email))
  {
    if fail {
      return Response(500, ProfileUpdateFailed, Empty);
    }
    if self >= |db.users| {
      return Response(404, NotFound, Empty);
    }
    var v := ProfileEdit(db.users[self], username, email);
    db.users := db.users[self := v];
    r := Response(200, "", ProfileUpdate(self, v.username, v.email));
  }

  /** The status message: "activated" exactly when the new flag is true. */
  function StatusMessage(isActive: bool): (m: string)
    ensures isActive <==> m == "User activated successfully"
    ensures !isActive <==> m == "User deactivated successfully"
  {
    "User " + (if isActive then "activated" else "deactivated") + " successfully"
  }

  /** `updateUserStatus`: sets the active flag to the value sent and nothing
      else. */
  method UpdateUserStatus(db: Database, id: UserId, isActive: bool, fail: bool) returns (r: Response)
    requires db.Valid()
    modifies db
    ensures db.Valid() && db.roles == old(db.roles)
    ensures fail ==> db.users == old(db.users) && r == Response(500, StatusUpdateFailed, Empty)
    ensures !fail && id >= |old(db.users)| ==> db.users == old(db.users) && r == Response(404, NotFound, Empty)
    ensures !fail && id < |old(db.users)| ==>
      var u := old(db.users)[id];
      && db.users == old(db.users)[id := u.(isActive := isActive)]
      && r == Response(200, StatusMessage(isActive), StatusUpdate(id, u.username, u.email, isActive))
  {
    if fail {
      return Response(500, StatusUpdateFailed, Empty);
    }
    if id >= |db.users| {
      return Response(404, NotFound, Empty);
    }
    var u := db.users[id];
    db.users := db.users[id := u.(isActive := isActive)];
    r := Response(200, StatusMessage(isActive), StatusUpdate(id, u.username, u.email, isActive));
  }
}
