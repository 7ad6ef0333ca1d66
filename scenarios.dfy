/** Request sequences across the handlers: what a client observes when it calls
    them one after another on the same store. */
module Scenarios {
  import opened Wrappers
  import opened Documents
  import opened External
  import Seqs
  import opened Database
  import AuthController
  import Middleware
  import PostController
  import UserController

  /** Signing up and then logging in with the same credentials returns the same
      user and opens a session for the same id; any other password is refused. */
  method SignupThenLogin(db: Db, fullName: string, username: string, email: string, password: string, other: string)
    returns (signup: Response, login: Response, wrong: Response)
    requires db.Valid()
    requires AuthController.SignupError(db.users, username, email, password).None?
    requires other != password
    modifies db
    ensures signup.status == 201 && login.status == 200
    ensures login.body == signup.body && login.cookie == signup.cookie
    ensures wrong == ErrorResponse(401, "Invalid Credentials")
  {
    var n := |db.users|;
    ghost var users0 := db.users;
    signup := AuthController.Signup(db, fullName, username, email, password);
    assert forall k :: 0 <= k < n ==> db.users[k] == users0[k];
    assert db.users[n].username == username;
    CompareHash(password, password);
    CompareHash(password, other);
    login := AuthController.Login(db, username, password);
    wrong := AuthController.Login(db, username, other);
  }

  /** A new account's session cookie, presented to the gate with a verifier that
      decodes it to the account's id, reaches `getMe` and receives the account's
      own profile. */
  method SignupThenMe(db: Db, fullName: string, username: string, email: string, password: string,
                      token: string, verify: string -> Verified)
    returns (signup: Response, me: Response)
    requires db.Valid()
    requires AuthController.SignupError(db.users, username, email, password).None?
    requires token != "" && verify(token) == Payload(db.nextId)
    modifies db
    ensures signup.status == 201 && signup.cookie == SetJwt(old(db.nextId))
    ensures me.status == 200 && me.body.ProfileBody?
    ensures me.body.profile.username == username && me.body.profile.email == email
  {
    var n := |db.users|;
    signup := AuthController.Signup(db, fullName, username, email, password);
    var id := signup.cookie.subject;
    assert db.users[n].id == id;
    Documents.UserIndexOf(db.users, n);
    var req := new Middleware.Request(token);
    var gate := Middleware.ProtectRoute(db, req, verify);
    assert gate.None? && req.user.Some?;
    me := AuthController.GetMe(db, req.user.value.id);
  }

  /** Liking a post twice leaves the post's likes and the user's liked posts as
      they were, with one like notification sent. */
  method LikeTwice(db: Db, me: UserId, postId: PostId) returns (first: Response, second: Response)
    requires db.Valid()
    requires PostIndex(db.posts, postId).Some?
    requires me !in db.posts[PostIndex(db.posts, postId).value].likes
    requires UserIndex(db.users, me).Some? ==> postId !in db.users[UserIndex(db.users, me).value].likedPosts
    modifies db
    ensures db.Valid()
    ensures db.posts == old(db.posts) && db.users == old(db.users)
    ensures var post := old(db.posts)[PostIndex(old(db.posts), postId).value];
      && first == Response(200, LikesBody(post.likes + [me]), NoCookie)
      && second == Response(200, LikesBody(post.likes), NoCookie)
      && db.notifications == old(db.notifications) + [Notification(me, post.user, LikeType)]
  {
    ghost var posts0, users0 := db.posts, db.users;
    ghost var i := PostIndex(posts0, postId).value;
    ghost var likes0 := posts0[i].likes;
    first := PostController.LikeUnlikePost(db, me, postId);
    PostIndexStable(posts0, db.posts, postId);
    assert me in db.posts[i].likes;
    second := PostController.LikeUnlikePost(db, me, postId);
    UnlikeUndoesLike(posts0, postId, me);
    PullUndoesPush(users0, me, LikedPosts, postId);
    Seqs.PullAfterPush(likes0, me);
  }

  /** Following and then unfollowing someone leaves both users as they were, with
      one follow notification sent. */
  method FollowTwice(db: Db, me: UserId, target: UserId) returns (first: Response, second: Response)
    requires db.Valid()
    requires me != target
    requires UserIndex(db.users, me).Some? && UserIndex(db.users, target).Some?
    requires target !in db.users[UserIndex(db.users, me).value].following
    requires me !in db.users[UserIndex(db.users, target).value].followers
    modifies db
    ensures db.Valid()
    ensures first == MessageResponse(200, "User Followed successfully")
    ensures second == MessageResponse(200, "User Unfollowed successfully")
    ensures db.users == old(db.users)
    ensures db.notifications == old(db.notifications) + [Notification(me, target, FollowType)]
  {
    ghost var users0 := db.users;
    ghost var m := UserIndex(users0, me).value;
    first := UserController.FollowUnfollowUser(db, me, target);
    ghost var step := PushEdge(users0, target, Followers, me);
    UserIndexStable(users0, step, me);
    UserIndexStable(users0, db.users, me);
    UserIndexStable(users0, db.users, target);
    assert step[m] == users0[m];
    assert target in db.users[m].following;
    second := UserController.FollowUnfollowUser(db, me, target);
    UserController.UnfollowUndoesFollow(users0, me, target);
  }

  /** A post just created is in the full timeline that follows. */
  method CreateThenList(db: Db, me: UserId, text: string, host: Host, now: int) returns (created: Response, all: Response)
    requires db.Valid()
    requires UserIndex(db.users, me).Some? && text != ""
    modifies db
    ensures created.status == 201 && created.body.PostBody?
    ensures all.body.PostsBody? && created.body.post in all.body.posts
    ensures created.body.post.text == text && created.body.post.user == me
  {
    created := PostController.CreatePost(db, me, text, "", host, now);
    all := PostController.GetAllPosts(db);
    assert created.body.post in multiset(db.posts);
  }

  /** Once its owner deletes a post, the timeline no longer holds a post with its id. */
  method DeleteThenList(db: Db, me: UserId, postId: PostId, host: Host) returns (deleted: Response, all: Response)
    requires db.Valid()
    requires PostIndex(db.posts, postId).Some?
    requires db.posts[PostIndex(db.posts, postId).value].user == me
    requires var q := db.posts[PostIndex(db.posts, postId).value];
      q.img == "" || host.destroy(PostController.PostImageId(q.img)).Ok?
    modifies db
    ensures deleted == MessageResponse(200, "Post deleted successfully")
    ensures all.body.PostsBody? && forall p :: p in all.body.posts ==> p.id != postId
  {
    deleted := PostController.DeletePost(db, me, postId, host);
    all := PostController.GetAllPosts(db);
    forall p | p in all.body.posts ensures p.id != postId {
      assert p in multiset(db.posts);
    }
  }
}
