/** The profile update endpoint (backend/src/controllers/user.controller.ts):
    uploads a new picture when one is given and stores its URL as the only
    change to the caller's document. */
module UserController {
  import opened Wrappers
  import opened Errors
  import opened UserModel
  import opened Schemas
  import opened Http
  import Validation

  const UnauthorizedAccess := "Unauthorized access"
  const UserNotFound := "User not found"
  const ProfileUpdated := "Profile updated successfully"

  /** The response's `data`: exactly these four fields. */
  function ProfileOf(u: User): (p: Profile)
    ensures p.id == u.id && p.fullName == u.fullName && p.email == u.email && p.profilePic == u.profilePic
  {
    Profile(u.id, u.fullName, u.email, u.profilePic)
  }

  /** The URL to store, if any: `profilePic` is uploaded only when it is
      non-empty; `upload` is the image host, `None` meaning it refused. */
  function UploadedUrl(profilePic: string, upload: string -> Option<string>): (r: Result<Option<string>, Thrown>)
    ensures profilePic == "" ==> r == Ok(None)
    ensures profilePic != "" && upload(profilePic).None? ==> r == Err(UploadFailed)
    ensures profilePic != "" && upload(profilePic).Some? ==> r == Ok(upload(profilePic))
  {
    if profilePic == "" then Ok(None)
    else
      match upload(profilePic)
      case None => Err(UploadFailed)
      case Some(url) => Ok(Some(url))
  }

  /** `updateProfile` for the caller `userId` (`req.user?._id`). */
  function UpdateProfile(users: UserStore, userId: Option<string>, profilePic: string, upload: string -> Option<string>): (r: Reply)
    ensures r.cookies == []
    // Without a caller nothing is uploaded or changed.
    ensures userId.None? ==> r == Reply(users, [], Err(App(Unauthorized(Some(UnauthorizedAccess)))))
    // A refused upload aborts before the update.
    ensures userId.Some? && UploadedUrl(profilePic, upload).Err? ==> r == Reply(users, [], Err(UploadFailed))
    // The upload happens before the lookup: a missing user is a 404 either way.
    ensures userId.Some? && UploadedUrl(profilePic, upload).Ok? && FindById(users, userId.value).None? ==>
      r == Reply(users, [], Err(App(NotFound(Some(UserNotFound)))))
    ensures r.outcome.Ok? <==> userId.Some? && UploadedUrl(profilePic, upload).Ok? && FindById(users, userId.value).Some?
    // Only the caller's `profilePic` changes, and only to a truthy URL.
    ensures r.outcome.Ok? ==>
      var prev := FindById(users, userId.value).value;
      var url := UploadedUrl(profilePic, upload).value;
      var updated := if Truthy(url) then prev.(profilePic := url.value) else prev;
      && r.users == (if Truthy(url) then Replace(users, updated) else users)
      && r.outcome.value == Response(200, ProfileUpdated, ProfileData(ProfileOf(updated)))
    ensures r.outcome.Err? ==> r.users == users
  {
    match userId
    case None => Reply(users, [], Err(App(Unauthorized(Some(UnauthorizedAccess)))))
    case Some(id) =>
      match UploadedUrl(profilePic, upload)
      case Err(e) => Reply(users, [], Err(e))
      case Ok(url) =>
        match FindById(users, id)
        case None => Reply(users, [], Err(App(NotFound(Some(UserNotFound)))))
        case Some(user) =>
          var updated := if Truthy(url) then user.(profilePic := url.value) else user;
          var users' := if Truthy(url) then Replace(users, updated) else users;
          Reply(users', [], Ok(Response(200, ProfileUpdated, ProfileData(ProfileOf(updated)))))
  }

  /** A successful update in a well-formed collection changes nothing but the
      caller's picture: every other user, and every other field of the
      caller, is as before, and the collection stays well formed. */
  lemma UpdateTouchesOnlyPicture(users: UserStore, userId: string, profilePic: string, upload: string -> Option<string>)
    requires Wf(users)
    requires UpdateProfile(users, Some(userId), profilePic, upload).outcome.Ok?
    ensures var after := UpdateProfile(users, Some(userId), profilePic, upload).users;
      && |after| == |users|
      && Wf(after)
      && forall i :: 0 <= i < |users| ==>
           after[i] == (if users[i].id == userId then users[i].(profilePic := after[i].profilePic) else users[i])
  {
    var url := UploadedUrl(profilePic, upload).value;
    if Truthy(url) {
      PictureReplaced(users, FindById(users, userId).value, url.value);
    }
  }

  /** Giving a stored user a new picture replaces exactly that user's
      document, and the store stays well formed. */
  lemma PictureReplaced(users: UserStore, prev: User, pic: string)
    requires Wf(users) && prev in users
    ensures Wf(Replace(users, prev.(profilePic := pic)))
    ensures forall i :: 0 <= i < |users| && users[i].id == prev.id ==> users[i] == prev
  {
    var k :| 0 <= k < |users| && users[k] == prev;
    forall i | 0 <= i < |users| && users[i].id == prev.id
      ensures users[i] == prev
    {
      assert users[k].id == users[i].id;
    }
    var updated := prev.(profilePic := pic);
    assert PathErrors(updated) == PathErrors(users[k]);
    assert !EmailTakenByOther(users, updated.email, updated.id);
    ReplaceKeepsWf(users, updated);
  }

  /** An empty `profilePic` is an empty update: the user is answered as stored. */
  lemma EmptyPictureChangesNothing(users: UserStore, userId: string, upload: string -> Option<string>)
    requires FindById(users, userId).Some?
    ensures UpdateProfile(users, Some(userId), "", upload) ==
      Reply(users, [], Ok(Response(200, ProfileUpdated, ProfileData(ProfileOf(FindById(users, userId).value)))))
  {
  }

  /** The answer never carries a password: `ProfileOf` has no such field, and
      it reports the stored picture after the update. */
  lemma ProfileReportsStoredPicture(users: UserStore, userId: string, profilePic: string, upload: string -> Option<string>)
    requires Wf(users)
    requires UpdateProfile(users, Some(userId), profilePic, upload).outcome.Ok?
    ensures var r := UpdateProfile(users, Some(userId), profilePic, upload);
      && r.outcome.value.data.ProfileData?
      && FindById(r.users, userId).Some?
      && r.outcome.value.data.profile == ProfileOf(FindById(r.users, userId).value)
  {
    var r := UpdateProfile(users, Some(userId), profilePic, upload);
    UpdateTouchesOnlyPicture(users, userId, profilePic, upload);
    var prev := FindById(users, userId).value;
    var k :| 0 <= k < |users| && users[k] == prev;
    FindStored(r.users, k);
  }

  /** After `protectRoute` has attached the caller (`userId` is the id it
      attached): `validate(updateUserSchema)`, then the handler. A body
      without a string `profilePic` is a 422 that changes nothing. */
  function UpdateProfileRoute(users: UserStore, userId: Option<string>, body: Body, upload: string -> Option<string>): (r: Reply)
    ensures !IsStr(body, "profilePic") ==>
      r.users == users && r.outcome.Err? && r.outcome.error.App? && r.outcome.error.err.statusCode == 422
    ensures IsStr(body, "profilePic") ==> r == UpdateProfile(users, userId, body["profilePic"].s, upload)
  {
    var parsed := ParseUpdateUser(body);
    match Validation.Validate(parsed)
    case Fail(e) => Reply(users, [], Err(App(e)))
    case Continue => UpdateProfile(users, userId, parsed.value, upload)
  }
}
