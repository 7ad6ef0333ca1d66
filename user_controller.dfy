/** The user handlers: profile lookup, the follow toggle, suggestions, and the
    profile update with its password change and image replacement. */
module UserController {
  import opened Wrappers
  import opened Documents
  import opened External
  import Seqs
  import Images
  import opened Database
  import AuthController

  // ---------------------------------------------------------------------------
  // Profile lookup

  /** GET /api/users/profile/:username. */
  method GetUserProfile(db: Db, username: string) returns (r: Response)
    ensures FindOne(db.users, ByUsername, username).None? <==> r == ErrorResponse(404, "User not found")
    ensures FindOne(db.users, ByUsername, username).Some? ==>
      && r.status == 200 && r.cookie == NoCookie && r.body.ProfileBody?
      && r.body.profile.username == username
      && r.body.profile == ToProfile(db.users[FindOne(db.users, ByUsername, username).value])
  {
    var i := FindOne(db.users, ByUsername, username);
    if i.None? {
      return ErrorResponse(404, "User not found");
    }
    r := Response(200, ProfileBody(ToProfile(db.users[i.value])), NoCookie);
  }

  // ---------------------------------------------------------------------------
  // Follow toggle

  /** The two writes of a follow: the target gains the requester as a follower, the
      requester gains the target in `following`. */
  function Follow(users: seq<User>, me: UserId, target: UserId): (r: seq<User>)
    ensures |r| == |users|
  {
    PushEdge(PushEdge(users, target, Followers, me), me, Following, target)
  }

  /** The two `$pull`s of an unfollow: the requester leaves the target's
      `followers`, the target leaves the requester's `following`. */
  function Unfollow(users: seq<User>, me: UserId, target: UserId): (r: seq<User>)
    ensures |r| == |users|
  {
    PullEdge(PullEdge(users, target, Followers, me), me, Following, target)
  }

  /** A follow writes both sides of the edge and touches no other document. */
  lemma FollowWrites(users: seq<User>, me: UserId, target: UserId)
    ensures var r := Follow(users, me, target);
      forall k :: 0 <= k < |r| && UserIndex(users, me) != Some(k) && UserIndex(users, target) != Some(k) ==>
        r[k] == users[k]
    ensures UserIndex(users, target).Some? ==>
      var r, i := Follow(users, me, target), UserIndex(users, target).value;
      r[i].followers == users[i].followers + [me]
      && (target != me ==> r[i] == users[i].(followers := users[i].followers + [me]))
    ensures UserIndex(users, me).Some? ==>
      var r, j := Follow(users, me, target), UserIndex(users, me).value;
      r[j].following == users[j].following + [target]
      && (target != me ==> r[j] == users[j].(following := users[j].following + [target]))
  {
    UserIndexStable(users, PushEdge(users, target, Followers, me), me);
  }

  /** An unfollow removes both sides of the edge and touches no other document. */
  lemma UnfollowWrites(users: seq<User>, me: UserId, target: UserId)
    ensures var r := Unfollow(users, me, target);
      forall k :: 0 <= k < |r| && UserIndex(users, me) != Some(k) && UserIndex(users, target) != Some(k) ==>
        r[k] == users[k]
    ensures UserIndex(users, target).Some? ==>
      var r, i := Unfollow(users, me, target), UserIndex(users, target).value;
      r[i].followers == Seqs.Without(users[i].followers, me)
      && (target != me ==> r[i] == users[i].(followers := Seqs.Without(users[i].followers, me)))
    ensures UserIndex(users, me).Some? ==>
      var r, j := Unfollow(users, me, target), UserIndex(users, me).value;
      r[j].following == Seqs.Without(users[j].following, target)
      && (target != me ==> r[j] == users[j].(following := Seqs.Without(users[j].following, target)))
  {
    UserIndexStable(users, PullEdge(users, target, Followers, me), me);
  }

  /** POST /api/users/follow/:id: following someone the requester does not follow
      notifies them; otherwise it is an unfollow. */
  method FollowUnfollowUser(db: Db, me: UserId, target: UserId) returns (r: Response)
    requires db.Valid()
    modifies db
    ensures db.Valid()
    ensures db.posts == old(db.posts) && db.nextId == old(db.nextId) && db.destroyed == old(db.destroyed)
    ensures target == me ==>
      r == ErrorResponse(400, "Cannot follow/unfollow yourself")
      && db.users == old(db.users) && db.notifications == old(db.notifications)
    ensures target != me && (UserIndex(old(db.users), target).None? || UserIndex(old(db.users), me).None?) ==>
      r == ErrorResponse(404, "User not found")
      && db.users == old(db.users) && db.notifications == old(db.notifications)
    ensures target != me && UserIndex(old(db.users), target).Some? && UserIndex(old(db.users), me).Some? ==>
      if target in old(db.users)[UserIndex(old(db.users), me).value].following then
        && db.users == Unfollow(old(db.users), me, target)
        && db.notifications == old(db.notifications)
        && r == MessageResponse(200, "User Unfollowed successfully")
      else
        && db.users == Follow(old(db.users), me, target)
        && db.notifications == old(db.notifications) + [Notification(me, target, FollowType)]
        && r == MessageResponse(200, "User Followed successfully")
  {
    if target == me {
      return ErrorResponse(400, "Cannot follow/unfollow yourself");
    }
    var t := UserIndex(db.users, target);
    var m := UserIndex(db.users, me);
    if t.None? || m.None? {
      return ErrorResponse(404, "User not found");
    }
    var before := db.users;
    if target in before[m.value].following {
      UnfollowKeepsWellFormed(before, me, target, db.nextId);
      db.users := Unfollow(before, me, target);
      r := MessageResponse(200, "User Unfollowed successfully");
    } else {
      FollowKeepsWellFormed(before, me, target, db.nextId);
      db.users := Follow(before, me, target);
      db.notifications := db.notifications + [Notification(me, target, FollowType)];
      r := MessageResponse(200, "User Followed successfully");
    }
  }

  lemma FollowKeepsWellFormed(users: seq<User>, me: UserId, target: UserId, bound: nat)
    requires UsersWellFormed(users, bound)
    ensures UsersWellFormed(Follow(users, me, target), bound)
  {
    PushEdgeKeepsWellFormed(users, target, Followers, me, bound);
    PushEdgeKeepsWellFormed(PushEdge(users, target, Followers, me), me, Following, target, bound);
  }

  lemma UnfollowKeepsWellFormed(users: seq<User>, me: UserId, target: UserId, bound: nat)
    requires UsersWellFormed(users, bound)
    ensures UsersWellFormed(Unfollow(users, me, target), bound)
  {
    PullEdgeKeepsWellFormed(users, target, Followers, me, bound);
    PullEdgeKeepsWellFormed(PullEdge(users, target, Followers, me), me, Following, target, bound);
  }

  /** An unfollow undoes a follow between users that were not linked (neither side
      held the other). */
  lemma UnfollowUndoesFollow(users: seq<User>, me: UserId, target: UserId)
    requires me != target
    requires UserIndex(users, target).Some? ==> me !in users[UserIndex(users, target).value].followers
    requires UserIndex(users, me).Some? ==> target !in users[UserIndex(users, me).value].following
    ensures Unfollow(Follow(users, me, target), me, target) == users
  {
    var a := PushEdge(users, target, Followers, me);
    UserIndexStable(users, a, me);
    PullPushCommute(a, target, Followers, me, me, Following, target);
    // Pull(target) (Push(me) a) == Push(me) (Pull(target) a) == Push(me) users
    PullUndoesPush(users, target, Followers, me);
    var b := PullEdge(a, target, Followers, me);
    assert b == users;
    PullUndoesPush(users, me, Following, target);
  }

  // ---------------------------------------------------------------------------
  // Suggestions

  /** The error `followedByMe.following` raises when the requester's document is
      gone. */
  const NullFollowing := "Cannot read properties of null (reading 'following')"

  /** The sampled users the requester does not follow, in sample order, none of
      them the requester. */
  function Unfollowed(sample: seq<User>, following: seq<UserId>, me: UserId): (r: seq<User>)
    requires forall k :: 0 <= k < |sample| ==> sample[k].id != me
    ensures Seqs.Subseq(r, sample)
    ensures forall j :: 0 <= j < |r| ==> r[j].id != me && r[j].id !in following
    ensures forall k :: 0 <= k < |sample| && sample[k].id !in following ==> sample[k] in r
    ensures forall u :: multiset(r)[u] == if u.id !in following then multiset(sample)[u] else 0
  {
    var kept := Seqs.Filter(sample, (u: User) => u.id !in following);
    forall j | 0 <= j < |kept| ensures kept[j].id != me {
      var x := kept[j];
      assert x in sample;
    }
    kept
  }

  /** GET /api/users/suggested. `sample` is what `$sample: { size: 10 }` drew from
      the users other than the requester; of those not already followed, the
      first four are sent back without their hashes, in sample order. A requester
      whose document is gone makes the filter's callback fail, which happens only
      when the sample holds someone. */
  method GetSuggestedUsers(db: Db, me: UserId, sample: seq<User>) returns (r: Response)
    requires |sample| <= 10
    requires forall k :: 0 <= k < |sample| ==> sample[k] in db.users && sample[k].id != me
    ensures UserIndex(db.users, me).None? && |sample| > 0 ==> r == ErrorResponse(500, NullFollowing)
    ensures UserIndex(db.users, me).None? && |sample| == 0 ==> r == Response(200, ProfilesBody([]), NoCookie)
    ensures UserIndex(db.users, me).Some? ==>
      var following := db.users[UserIndex(db.users, me).value].following;
      var unfollowed := Unfollowed(sample, following, me);
      && r.status == 200 && r.cookie == NoCookie && r.body.ProfilesBody?
      && |r.body.profiles| == (if |unfollowed| < 4 then |unfollowed| else 4)
      && (forall k :: 0 <= k < |r.body.profiles| ==> r.body.profiles[k] == ToProfile(unfollowed[k]))
      && Seqs.Subseq(unfollowed[..|r.body.profiles|], sample)
      && (forall k :: 0 <= k < |r.body.profiles| ==>
            r.body.profiles[k].id != me && r.body.profiles[k].id !in following)
  {
    var i := UserIndex(db.users, me);
    if i.None? {
      if |sample| > 0 {
        return ErrorResponse(500, NullFollowing);
      }
      return Response(200, ProfilesBody([]), NoCookie);
    }
    var profiles := Suggest(sample, db.users[i.value].following, me);
    r := Response(200, ProfilesBody(profiles), NoCookie);
  }

  /** `filter`, then `slice(0, 4)`, then the password-nulling `forEach`. */
  method Suggest(sample: seq<User>, following: seq<UserId>, me: UserId) returns (profiles: seq<Profile>)
    requires forall k :: 0 <= k < |sample| ==> sample[k].id != me
    ensures var unfollowed := Unfollowed(sample, following, me);
      && |profiles| == (if |unfollowed| < 4 then |unfollowed| else 4)
      && (forall k :: 0 <= k < |profiles| ==> profiles[k] == ToProfile(unfollowed[k]))
      && Seqs.Subseq(unfollowed[..|profiles|], sample)
      && (forall k :: 0 <= k < |profiles| ==> profiles[k].id != me && profiles[k].id !in following)
  {
    var unfollowed := Unfollowed(sample, following, me);
    var n := if |unfollowed| < 4 then |unfollowed| else 4;
    profiles := WithoutHashes(unfollowed[..n]);
    Seqs.PrefixOfSubseq(unfollowed, sample, n);
    forall k | 0 <= k < n ensures profiles[k].id != me && profiles[k].id !in following {
      assert profiles[k].id == unfollowed[k].id;
    }
  }

  /** The loop that nulls the password of each suggested user. */
  method WithoutHashes(users: seq<User>) returns (profiles: seq<Profile>)
    ensures |profiles| == |users|
    ensures forall j :: 0 <= j < |users| ==> profiles[j] == ToProfile(users[j])
  {
    profiles := [];
    var k := 0;
    while k < |users|
      invariant 0 <= k <= |users|
      invariant |profiles| == k
      invariant forall j :: 0 <= j < k ==> profiles[j] == ToProfile(users[j])
    {
      profiles := profiles + [ToProfile(users[k])];
      k := k + 1;
    }
  }

  // ---------------------------------------------------------------------------
  // Profile update

  /** The body of POST /api/users/update; a field left out is "". */
  datatype UpdateRequest = UpdateRequest(
    fullName: string,
    email: string,
    username: string,
    currentPassword: string,
    newPassword: string,
    bio: string,
    link: string,
    profileImg: string,
    coverImg: string)

  datatype PasswordOutcome = KeepHash | NewHash(hash: string) | PasswordRejected(message: string)

  const BothPasswords := "Please provide both current and new password"
  const WrongPassword := "Current password is incorrect"

  /** The password part of the update: both passwords or neither; the current one
      must match the stored hash and the new one have six characters or more. */
  function PasswordStep(current: string, replacement: string, stored: string): (r: PasswordOutcome)
    ensures r.KeepHash? <==> current == "" && replacement == ""
    ensures (current == "") != (replacement == "") <==> r == PasswordRejected(BothPasswords)
    ensures r.NewHash? <==> current != "" && replacement != "" && Compare(current, stored) && |replacement| >= 6
    ensures r.NewHash? ==> Compare(replacement, r.hash)
    ensures current != "" && replacement != "" && !Compare(current, stored) ==> r == PasswordRejected(WrongPassword)
    ensures current != "" && replacement != "" && Compare(current, stored) && |replacement| < 6 ==>
      r == PasswordRejected(AuthController.ShortPassword)
  {
    if (replacement == "" && current != "") || (current == "" && replacement != "") then PasswordRejected(BothPasswords)
    else if current != "" && replacement != "" then
      if !Compare(current, stored) then PasswordRejected(WrongPassword)
      else if |replacement| < 6 then PasswordRejected(AuthController.ShortPassword)
      else NewHash(Hash(replacement))
    else KeepHash
  }

  /** After a password change, the replacement password logs in and only it. */
  lemma PasswordChangeTakesEffect(current: string, replacement: string, stored: string, attempt: string)
    requires PasswordStep(current, replacement, stored).NewHash?
    ensures Compare(attempt, PasswordStep(current, replacement, stored).hash) <==> attempt == replacement
  {
    CompareHash(replacement, attempt);
  }

  /** `a || b` on strings. */
  function Or(a: string, b: string): (r: string)
    ensures r == a || r == b
    ensures r == "" <==> a == "" && b == ""
    ensures a != "" ==> r == a
  {
    if a != "" then a else b
  }

  /** The field assignments before `user.save()`: every non-empty field of the
      request (and each image URL the host returned) replaces the stored one. */
  function Merge(u: User, req: UpdateRequest, profileUrl: string, coverUrl: string): (r: User)
    ensures r.id == u.id && r.password == u.password
    ensures r.followers == u.followers && r.following == u.following && r.likedPosts == u.likedPosts
    ensures r.fullName == Or(req.fullName, u.fullName) && r.email == Or(req.email, u.email)
    ensures r.username == Or(req.username, u.username)
    ensures r.bio == Or(req.bio, u.bio) && r.link == Or(req.link, u.link)
    ensures r.profileImg == Or(profileUrl, u.profileImg) && r.coverImg == Or(coverUrl, u.coverImg)
  {
    u.(fullName := Or(req.fullName, u.fullName),
       email := Or(req.email, u.email),
       username := Or(req.username, u.username),
       bio := Or(req.bio, u.bio),
       link := Or(req.link, u.link),
       profileImg := Or(profileUrl, u.profileImg),
       coverImg := Or(coverUrl, u.coverImg))
  }

  /** An update can set a field but never clear one. */
  lemma MergeNeverClears(u: User, req: UpdateRequest, profileUrl: string, coverUrl: string)
    ensures var r := Merge(u, req, profileUrl, coverUrl);
      && (u.fullName != "" ==> r.fullName != "") && (u.email != "" ==> r.email != "")
      && (u.username != "" ==> r.username != "") && (u.bio != "" ==> r.bio != "")
      && (u.link != "" ==> r.link != "") && (u.profileImg != "" ==> r.profileImg != "")
      && (u.coverImg != "" ==> r.coverImg != "")
  {
  }

  /** Sending the same update twice is the same as sending it once. */
  lemma MergeIdempotent(u: User, req: UpdateRequest, profileUrl: string, coverUrl: string)
    ensures var once := Merge(u, req, profileUrl, coverUrl);
      Merge(once, req, profileUrl, coverUrl) == once
  {
  }

  /** An empty request with no replacement images changes nothing. */
  lemma MergeEmptyIsIdentity(u: User)
    ensures Merge(u, UpdateRequest("", "", "", "", "", "", "", "", ""), "", "") == u
  {
  }

  /** One image of the update: the old image is destroyed at the host first (by the
      public id of its URL), then the replacement one is uploaded. */
  datatype ImageStep =
    | Unchanged
    | Uploaded(url: string, destroyedId: Option<string>)
    | StepFailed(message: string, destroyedId: Option<string>)

  /** The public ids an image step had destroyed. */
  function Destroys(s: ImageStep): (r: seq<string>)
    ensures |r| <= 1
    ensures s.Unchanged? ==> r == []
  {
    if s.Unchanged? || s.destroyedId.None? then [] else [s.destroyedId.value]
  }

  /** The URL an image step leaves for the merge ("" keeps the stored image). */
  function UrlOf(s: ImageStep): (r: string)
    ensures s.Uploaded? ==> r == s.url
    ensures !s.Uploaded? ==> r == ""
  {
    if s.Uploaded? then s.url else ""
  }

  /** The replacement of one image, as intended (the request's image variable
      rebindable). */
  function ReplaceImage(newImg: string, oldImg: string, host: Host): (r: ImageStep)
    ensures newImg == "" <==> r.Unchanged?
    ensures newImg != "" ==>
      r.destroyedId == (if oldImg != "" && host.destroy(Images.PublicId(oldImg)).Ok?
                        then Some(Images.PublicId(oldImg)) else None)
    ensures r.Uploaded? <==>
      newImg != "" && (oldImg == "" || host.destroy(Images.PublicId(oldImg)).Ok?) && host.upload(newImg).Ok?
    ensures r.Uploaded? ==> r.url == host.upload(newImg).value
    ensures newImg != "" && oldImg != "" && host.destroy(Images.PublicId(oldImg)).Threw? ==>
      r == StepFailed(host.destroy(Images.PublicId(oldImg)).message, None)
  {
    if newImg == "" then Unchanged
    else
      var destroyed: Option<string> :=
        if oldImg == "" then None
        else
          match host.destroy(Images.PublicId(oldImg))
          case Threw(_) => None
          case Ok(_) => Some(Images.PublicId(oldImg));
      if oldImg != "" && host.destroy(Images.PublicId(oldImg)).Threw? then
        StepFailed(host.destroy(Images.PublicId(oldImg)).message, None)
      else
        match host.upload(newImg)
        case Threw(m) => StepFailed(m, destroyed)
        case Ok(url) => Uploaded(url, destroyed)
  }

  /** The error the handler's image reassignment raises: the image fields are
      destructured into `const` bindings and then assigned the uploaded URL. */
  const ConstAssignment := "Assignment to constant variable."

  /** The replacement of one image as the handler is written: the destroy and the
      upload happen, and then the reassignment throws. */
  function ReplaceImageAsWritten(newImg: string, oldImg: string, host: Host): (r: ImageStep)
    ensures !r.Uploaded?
    ensures r.Unchanged? <==> newImg == ""
    ensures ReplaceImage(newImg, oldImg, host).Uploaded? ==>
      r == StepFailed(ConstAssignment, ReplaceImage(newImg, oldImg, host).destroyedId)
    ensures !ReplaceImage(newImg, oldImg, host).Uploaded? ==> r == ReplaceImage(newImg, oldImg, host)
  {
    match ReplaceImage(newImg, oldImg, host)
    case Uploaded(_, g) => StepFailed(ConstAssignment, g)
    case other => other
  }

  /** As written, an update that sends an image never succeeds, even when the host
      accepts everything, and the stored image it replaces has already been
      destroyed while the document still points at it. The corrected step
      uploads the image. */
  lemma ImageUpdateAlwaysFailsAsWritten(newImg: string, oldImg: string, host: Host)
    requires newImg != "" && oldImg != ""
    requires host.destroy(Images.PublicId(oldImg)).Ok? && host.upload(newImg).Ok?
    ensures ReplaceImageAsWritten(newImg, oldImg, host) == StepFailed(ConstAssignment, Some(Images.PublicId(oldImg)))
    ensures ReplaceImage(newImg, oldImg, host) == Uploaded(host.upload(newImg).value, Some(Images.PublicId(oldImg)))
  {
  }

  /** The document the update saves. */
  function Updated(u: User, req: UpdateRequest, pw: PasswordOutcome, profile: ImageStep, cover: ImageStep): (r: User)
    ensures SameKeys(r, u) || req.username != "" || req.email != ""
    ensures pw.NewHash? ==> r.password == pw.hash
    ensures !pw.NewHash? ==> r.password == u.password
    ensures r.(password := u.password) == Merge(u, req, UrlOf(profile), UrlOf(cover))
  {
    var hashed := if pw.NewHash? then u.(password := pw.hash) else u;
    Merge(hashed, req, UrlOf(profile), UrlOf(cover))
  }

  /** POST /api/users/update. Checks run in order (user, passwords, profile image,
      cover image, unique indexes); an image destroyed before a later failure stays
      destroyed. */
  method UpdateUser(db: Db, me: UserId, req: UpdateRequest, host: Host) returns (r: Response)
    requires db.Valid()
    modifies db
    ensures db.Valid()
    ensures db.posts == old(db.posts) && db.notifications == old(db.notifications) && db.nextId == old(db.nextId)
    ensures r.status == 200 || db.users == old(db.users)
    ensures UserIndex(old(db.users), me).None? ==>
      r == ErrorResponse(404, "User not found") && db.destroyed == old(db.destroyed)
    ensures UserIndex(old(db.users), me).Some? ==>
      var i := UserIndex(old(db.users), me).value;
      var user := old(db.users)[i];
      var pw := PasswordStep(req.currentPassword, req.newPassword, user.password);
      var profile := ReplaceImage(req.profileImg, user.profileImg, host);
      var cover := ReplaceImage(req.coverImg, user.coverImg, host);
      var saved := Updated(user, req, pw, profile, cover);
      if pw.PasswordRejected? then
        r == ErrorResponse(400, pw.message) && db.destroyed == old(db.destroyed)
      else if profile.StepFailed? then
        r == ErrorResponse(500, profile.message) && db.destroyed == old(db.destroyed) + Destroys(profile)
      else if cover.StepFailed? then
        r == ErrorResponse(500, cover.message) && db.destroyed == old(db.destroyed) + Destroys(profile) + Destroys(cover)
      else
        && db.destroyed == old(db.destroyed) + Destroys(profile) + Destroys(cover)
        && match SaveConflict(old(db.users), i, saved)
           case Some(message) => r == ErrorResponse(500, message)
           case None =>
             && db.users == old(db.users)[i := saved]
             && r == Response(200, ProfileBody(ToProfile(saved)), NoCookie)
  {
    var i := UserIndex(db.users, me);
    if i.None? {
      return ErrorResponse(404, "User not found");
    }
    var user := db.users[i.value];
    var pw := PasswordStep(req.currentPassword, req.newPassword, user.password);
    if pw.PasswordRejected? {
      return ErrorResponse(400, pw.message);
    }
    var profile := ReplaceImage(req.profileImg, user.profileImg, host);
    db.destroyed := db.destroyed + Destroys(profile);
    if profile.StepFailed? {
      return ErrorResponse(500, profile.message);
    }
    var cover := ReplaceImage(req.coverImg, user.coverImg, host);
    db.destroyed := db.destroyed + Destroys(cover);
    if cover.StepFailed? {
      return ErrorResponse(500, cover.message);
    }
    var saved := Updated(user, req, pw, profile, cover);
    var conflict := SaveConflict(db.users, i.value, saved);
    if conflict.Some? {
      return ErrorResponse(500, conflict.value);
    }
    SaveKeepsUnique(db.users, i.value, saved);
    db.users := db.users[i.value := saved];
    r := Response(200, ProfileBody(ToProfile(saved)), NoCookie);
  }

  /** What a successful update stores: each non-empty request field, the uploaded
      images, the replacement hash when a password change was asked for, and the same
      id and relationships. */
  lemma UpdateStoresRequest(u: User, req: UpdateRequest, pw: PasswordOutcome, profile: ImageStep, cover: ImageStep)
    requires profile.Uploaded? || profile.Unchanged?
    requires cover.Uploaded? || cover.Unchanged?
    ensures var r := Updated(u, req, pw, profile, cover);
      && r.id == u.id && r.followers == u.followers && r.following == u.following
      && r.likedPosts == u.likedPosts
      && (req.username != "" ==> r.username == req.username)
      && (req.email != "" ==> r.email == req.email)
      && (req.fullName != "" ==> r.fullName == req.fullName)
      && (req.bio != "" ==> r.bio == req.bio) && (req.link != "" ==> r.link == req.link)
      && (profile.Uploaded? && profile.url != "" ==> r.profileImg == profile.url)
      && (profile.Unchanged? ==> r.profileImg == u.profileImg)
      && (cover.Uploaded? && cover.url != "" ==> r.coverImg == cover.url)
      && (cover.Unchanged? ==> r.coverImg == u.coverImg)
  {
    var r := Updated(u, req, pw, profile, cover);
    assert r.(password := u.password) == Merge(u, req, UrlOf(profile), UrlOf(cover));
  }
}
