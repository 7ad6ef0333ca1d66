/** The documents of the three collections (users, posts, notifications), the
    shapes the handlers send back, and the single-document writes (`$push`,
    `$pull`, `save`) the handlers perform, over collections kept as sequences in
    the store's natural order. */
module Documents {
  import opened Wrappers
  import Seqs

  /** ObjectIds, as unbounded numbers handed out by the store. */
  type UserId = nat
  type PostId = nat

  /** A user document. Fields a new account does not set are empty. */
  datatype User = User(
    id: UserId,
    fullName: string,
    username: string,
    email: string,
    password: string,          // the bcrypt hash
    followers: seq<UserId>,
    following: seq<UserId>,
    likedPosts: seq<PostId>,
    profileImg: string,
    coverImg: string,
    bio: string,
    link: string)

  datatype Comment = Comment(user: UserId, text: string)

  /** A post document; `createdAt` is the ordering key the store stamps on it. */
  datatype Post = Post(
    id: PostId,
    user: UserId,
    text: string,
    img: string,
    likes: seq<UserId>,
    comments: seq<Comment>,
    createdAt: int)

  datatype NotificationType = FollowType | LikeType | CommentType

  datatype Notification = Notification(from: UserId, to: UserId, kind: NotificationType)

  /** A user document under `.select("-password")`: every field but the hash. */
  datatype Profile = Profile(
    id: UserId,
    fullName: string,
    username: string,
    email: string,
    followers: seq<UserId>,
    following: seq<UserId>,
    likedPosts: seq<PostId>,
    profileImg: string,
    coverImg: string,
    bio: string,
    link: string)

  /** The eight fields that signup and login send back. */
  datatype PublicUser = PublicUser(
    id: UserId,
    fullName: string,
    username: string,
    email: string,
    followers: seq<UserId>,
    following: seq<UserId>,
    profileImg: string,
    coverImg: string)

  /** What a response does to the `jwt` session cookie. */
  datatype Cookie = NoCookie | SetJwt(subject: UserId) | ClearJwt

  /** The JSON bodies the handlers send. Error bodies come in two shapes, `{error}`
      and `{message}`, and which one a handler uses is observable to the client. */
  datatype Body =
    | ErrorBody(error: string)
    | MessageBody(message: string)
    | PublicBody(user: PublicUser)
    | ProfileBody(profile: Profile)
    | NullBody
    | ProfilesBody(profiles: seq<Profile>)
    | PostBody(post: Post)
    | PostsBody(posts: seq<Post>)
    | LikesBody(likes: seq<UserId>)

  datatype Response = Response(status: nat, body: Body, cookie: Cookie)

  function ErrorResponse(status: nat, error: string): Response
  {
    Response(status, ErrorBody(error), NoCookie)
  }

  function MessageResponse(status: nat, message: string): Response
  {
    Response(status, MessageBody(message), NoCookie)
  }

  function ToProfile(u: User): (p: Profile)
    ensures p.id == u.id && p.username == u.username && p.email == u.email
    ensures p.followers == u.followers && p.following == u.following && p.likedPosts == u.likedPosts
  {
    Profile(u.id, u.fullName, u.username, u.email, u.followers, u.following,
            u.likedPosts, u.profileImg, u.coverImg, u.bio, u.link)
  }

  function ToPublic(u: User): (p: PublicUser)
    ensures p.id == u.id && p.username == u.username && p.email == u.email
    ensures p.followers == u.followers && p.following == u.following
  {
    PublicUser(u.id, u.fullName, u.username, u.email, u.followers, u.following,
               u.profileImg, u.coverImg)
  }

  /** The profile projection forgets the password and nothing else: two documents
      have the same profile exactly when they differ at most in their hash. */
  lemma ProfileForgetsOnlyPassword(u: User, v: User)
    ensures ToProfile(u) == ToProfile(v) <==> u.(password := v.password) == v
  {
  }

  /** The public projection depends neither on the hash nor on the fields it leaves
      out (liked posts, bio, link). */
  lemma PublicIgnoresHidden(u: User, password: string, likedPosts: seq<PostId>, bio: string, link: string)
    ensures ToPublic(u.(password := password, likedPosts := likedPosts, bio := bio, link := link)) == ToPublic(u)
  {
  }

  // ---------------------------------------------------------------------------
  // Lookups

  /** `User.findById(id)`. */
  function UserIndex(users: seq<User>, id: UserId): (r: Option<nat>)
    ensures r.Some? ==> r.value < |users| && users[r.value].id == id
    ensures r.Some? ==> forall k :: 0 <= k < r.value ==> users[k].id != id
    ensures r.None? <==> forall k :: 0 <= k < |users| ==> users[k].id != id
  {
    Seqs.FirstIndex(users, (u: User) => u.id == id)
  }

  /** The two unique keys of the users collection. */
  datatype UniqueKey = ByUsername | ByEmail

  function KeyOf(u: User, key: UniqueKey): string
  {
    match key
    case ByUsername => u.username
    case ByEmail => u.email
  }

  /** `User.findOne({ username })` and `User.findOne({ email })`. */
  function FindOne(users: seq<User>, key: UniqueKey, value: string): (r: Option<nat>)
    ensures r.Some? ==> r.value < |users| && KeyOf(users[r.value], key) == value
    ensures r.None? <==> forall k :: 0 <= k < |users| ==> KeyOf(users[k], key) != value
  {
    Seqs.FirstIndex(users, (u: User) => KeyOf(u, key) == value)
  }

  /** `Post.findById(id)`. */
  function PostIndex(posts: seq<Post>, id: PostId): (r: Option<nat>)
    ensures r.Some? ==> r.value < |posts| && posts[r.value].id == id
    ensures r.Some? ==> forall k :: 0 <= k < r.value ==> posts[k].id != id
    ensures r.None? <==> forall k :: 0 <= k < |posts| ==> posts[k].id != id
  {
    Seqs.FirstIndex(posts, (p: Post) => p.id == id)
  }

  // ---------------------------------------------------------------------------
  // The unique indexes of the users collection and the ids the store has issued

  ghost predicate UniqueUsers(users: seq<User>)
  {
    forall i, j :: 0 <= i < j < |users| ==>
      users[i].id != users[j].id && users[i].username != users[j].username && users[i].email != users[j].email
  }

  ghost predicate UniquePosts(posts: seq<Post>)
  {
    forall i, j :: 0 <= i < j < |posts| ==> posts[i].id != posts[j].id
  }

  /** The users collection's unique indexes hold and every id is below `bound`. */
  ghost predicate UsersWellFormed(users: seq<User>, bound: nat)
  {
    UniqueUsers(users) && forall k :: 0 <= k < |users| ==> users[k].id < bound
  }

  /** Post ids are unique and below `bound`, and no post is liked twice by one user. */
  ghost predicate PostsWellFormed(posts: seq<Post>, bound: nat)
  {
    && UniquePosts(posts)
    && (forall k :: 0 <= k < |posts| ==> posts[k].id < bound)
    && (forall k :: 0 <= k < |posts| ==> Seqs.NoDuplicates(posts[k].likes))
  }

  /** With unique ids, the lookup by id finds the one document carrying it. */
  lemma UserIndexOf(users: seq<User>, i: nat)
    requires UniqueUsers(users) && i < |users|
    ensures UserIndex(users, users[i].id) == Some(i)
  {
  }

  /** Two collections whose documents carry the same ids, position by position,
      answer every lookup by id alike. */
  lemma UserIndexStable(a: seq<User>, b: seq<User>, id: UserId)
    requires |a| == |b| && forall k :: 0 <= k < |a| ==> a[k].id == b[k].id
    ensures UserIndex(a, id) == UserIndex(b, id)
  {
  }

  lemma PostIndexStable(a: seq<Post>, b: seq<Post>, id: PostId)
    requires |a| == |b| && forall k :: 0 <= k < |a| ==> a[k].id == b[k].id
    ensures PostIndex(a, id) == PostIndex(b, id)
  {
  }

  /** The message MongoDB's E11000 error carries when a write would give two user
      documents the same value under the unique index on `field` (the database
      name in front of the collection name is left out). */
  function DuplicateKeyMessage(field: string, value: string): (r: string)
    ensures |r| == 72 + 2 * |field| + |value|
    ensures r[..20] == "E11000 duplicate key"
    ensures r[|r| - 3 - |value|..|r| - 3] == value
  {
    "E11000 " + "duplicate key" + " error collection" + ":" + " users index: " + field + "_1 dup key: { " + field + ": "
    + "\"" + value + "\"" + " }"
  }

  /** `user.save()` for the document at index `i` under the unique indexes on
      `username` and `email`: the duplicate-key error it fails with, if any (the
      username index is consulted first). */
  function SaveConflict(users: seq<User>, i: nat, u: User): (r: Option<string>)
    ensures r.None? <==> forall k :: 0 <= k < |users| && k != i ==> users[k].username != u.username && users[k].email != u.email
    ensures r.Some? ==> r.value == DuplicateKeyMessage("username", u.username) || r.value == DuplicateKeyMessage("email", u.email)
    ensures (exists k :: 0 <= k < |users| && k != i && users[k].username == u.username) ==> r == Some(DuplicateKeyMessage("username", u.username))
  {
    if exists k :: 0 <= k < |users| && k != i && users[k].username == u.username then
      Some(DuplicateKeyMessage("username", u.username))
    else if exists k :: 0 <= k < |users| && k != i && users[k].email == u.email then
      Some(DuplicateKeyMessage("email", u.email))
    else None
  }

  /** Saving a document that keeps its id and clashes with no other document keeps
      every index unique. */
  lemma SaveKeepsUnique(users: seq<User>, i: nat, u: User)
    requires UniqueUsers(users) && i < |users| && u.id == users[i].id
    requires SaveConflict(users, i, u).None?
    ensures UniqueUsers(users[i := u])
  {
  }

  // ---------------------------------------------------------------------------
  // Single-document writes

  /** The three reference arrays of a user document. */
  datatype Edge = Followers | Following | LikedPosts

  function EdgeOf(u: User, e: Edge): seq<nat>
  {
    match e
    case Followers => u.followers
    case Following => u.following
    case LikedPosts => u.likedPosts
  }

  function WithEdge(u: User, e: Edge, s: seq<nat>): (r: User)
    ensures EdgeOf(r, e) == s
    ensures forall f :: f != e ==> EdgeOf(r, f) == EdgeOf(u, f)
    ensures r.(followers := u.followers, following := u.following, likedPosts := u.likedPosts) == u
  {
    match e
    case Followers => u.(followers := s)
    case Following => u.(following := s)
    case LikedPosts => u.(likedPosts := s)
  }

  /** Two documents that agree on id, username and email. */
  predicate SameKeys(u: User, v: User)
  {
    u.id == v.id && u.username == v.username && u.email == v.email
  }

  /** `User.updateOne({ _id: id }, { $push: { e: x } })` (and `findByIdAndUpdate`):
      the user with that id gets `x` appended to `e`; no other document, no other
      field changes; no user with that id, no change. */
  function PushEdge(users: seq<User>, id: UserId, e: Edge, x: nat): (r: seq<User>)
    ensures |r| == |users| && forall k :: 0 <= k < |r| ==> SameKeys(r[k], users[k])
    ensures forall k :: 0 <= k < |r| && UserIndex(users, id) != Some(k) ==> r[k] == users[k]
    ensures UserIndex(users, id).Some? ==>
      var i := UserIndex(users, id).value;
      EdgeOf(r[i], e) == EdgeOf(users[i], e) + [x] && r[i] == WithEdge(users[i], e, EdgeOf(r[i], e))
  {
    match UserIndex(users, id)
    case None => users
    case Some(i) => users[i := WithEdge(users[i], e, EdgeOf(users[i], e) + [x])]
  }

  /** `User.updateOne({ _id: id }, { $pull: { e: x } })`: every occurrence of `x`
      leaves `e` of the user with that id; nothing else changes. */
  function PullEdge(users: seq<User>, id: UserId, e: Edge, x: nat): (r: seq<User>)
    ensures |r| == |users| && forall k :: 0 <= k < |r| ==> SameKeys(r[k], users[k])
    ensures forall k :: 0 <= k < |r| && UserIndex(users, id) != Some(k) ==> r[k] == users[k]
    ensures UserIndex(users, id).Some? ==>
      var i := UserIndex(users, id).value;
      EdgeOf(r[i], e) == Seqs.Without(EdgeOf(users[i], e), x) && r[i] == WithEdge(users[i], e, EdgeOf(r[i], e))
  {
    match UserIndex(users, id)
    case None => users
    case Some(i) => users[i := WithEdge(users[i], e, Seqs.Without(EdgeOf(users[i], e), x))]
  }

  /** Writes that keep every document's keys keep the unique indexes and the ids. */
  lemma SameKeysKeepWellFormed(a: seq<User>, b: seq<User>, bound: nat)
    requires UsersWellFormed(a, bound) && |a| == |b| && forall k :: 0 <= k < |a| ==> SameKeys(a[k], b[k])
    ensures UsersWellFormed(b, bound)
  {
  }

  lemma PushEdgeKeepsWellFormed(users: seq<User>, id: UserId, e: Edge, x: nat, bound: nat)
    requires UsersWellFormed(users, bound)
    ensures UsersWellFormed(PushEdge(users, id, e, x), bound)
  {
    SameKeysKeepWellFormed(users, PushEdge(users, id, e, x), bound);
  }

  lemma PullEdgeKeepsWellFormed(users: seq<User>, id: UserId, e: Edge, x: nat, bound: nat)
    requires UsersWellFormed(users, bound)
    ensures UsersWellFormed(PullEdge(users, id, e, x), bound)
  {
    SameKeysKeepWellFormed(users, PullEdge(users, id, e, x), bound);
  }

  /** A `$pull` undoes the `$push` of a reference that was not there before. */
  lemma PullUndoesPush(users: seq<User>, id: UserId, e: Edge, x: nat)
    requires UserIndex(users, id).Some? ==> x !in EdgeOf(users[UserIndex(users, id).value], e)
    ensures PullEdge(PushEdge(users, id, e, x), id, e, x) == users
  {
    var pushed := PushEdge(users, id, e, x);
    UserIndexStable(users, pushed, id);
    var r := PullEdge(pushed, id, e, x);
    match UserIndex(users, id)
    case None =>
    case Some(i) =>
      var s := EdgeOf(users[i], e);
      Seqs.PullAfterPush(s, x);
      assert pushed[i] == WithEdge(users[i], e, s + [x]);
      assert r[i] == WithEdge(pushed[i], e, s);
      WithEdgeRestored(users[i], e, s + [x]);
      forall k | 0 <= k < |r| && k != i ensures r[k] == users[k] {
        assert r[k] == pushed[k];
      }
  }

  /** Writing a reference array back to what it was restores the document. */
  lemma WithEdgeRestored(u: User, e: Edge, s: seq<nat>)
    ensures WithEdge(WithEdge(u, e, s), e, EdgeOf(u, e)) == u
  {
  }

  /** Writes to two different users commute. */
  lemma PullPushCommute(users: seq<User>, a: UserId, e: Edge, x: nat, b: UserId, f: Edge, y: nat)
    requires a != b
    ensures PullEdge(PushEdge(users, b, f, y), a, e, x) == PushEdge(PullEdge(users, a, e, x), b, f, y)
  {
    var left := PullEdge(PushEdge(users, b, f, y), a, e, x);
    var right := PushEdge(PullEdge(users, a, e, x), b, f, y);
    forall k | 0 <= k < |users|
      ensures left[k] == right[k]
    {
      CommuteAt(users, a, e, x, b, f, y, k);
    }
  }

  lemma CommuteAt(users: seq<User>, a: UserId, e: Edge, x: nat, b: UserId, f: Edge, y: nat, k: nat)
    requires a != b && k < |users|
    ensures PullEdge(PushEdge(users, b, f, y), a, e, x)[k] == PushEdge(PullEdge(users, a, e, x), b, f, y)[k]
  {
    var pushed := PushEdge(users, b, f, y);
    var pulled := PullEdge(users, a, e, x);
    UserIndexStable(users, pushed, a);
    UserIndexStable(users, pulled, b);
    var ia, ib := UserIndex(users, a), UserIndex(users, b);
    if ia == Some(k) {
      assert ib != Some(k);
      assert pushed[k] == users[k];
    } else if ib == Some(k) {
      assert pulled[k] == users[k];
    }
  }

  /** `post.likes.push(u); post.save()`. */
  function PushLike(posts: seq<Post>, id: PostId, u: UserId): (r: seq<Post>)
    ensures |r| == |posts| && forall k :: 0 <= k < |r| ==> r[k].id == posts[k].id
    ensures forall k :: 0 <= k < |r| && PostIndex(posts, id) != Some(k) ==> r[k] == posts[k]
    ensures PostIndex(posts, id).Some? ==>
      var i := PostIndex(posts, id).value;
      r[i] == posts[i].(likes := posts[i].likes + [u])
  {
    match PostIndex(posts, id)
    case None => posts
    case Some(i) => posts[i := posts[i].(likes := posts[i].likes + [u])]
  }

  /** `Post.updateOne({ _id: id }, { $pull: { likes: u } })`. */
  function PullLike(posts: seq<Post>, id: PostId, u: UserId): (r: seq<Post>)
    ensures |r| == |posts| && forall k :: 0 <= k < |r| ==> r[k].id == posts[k].id
    ensures forall k :: 0 <= k < |r| && PostIndex(posts, id) != Some(k) ==> r[k] == posts[k]
    ensures PostIndex(posts, id).Some? ==>
      var i := PostIndex(posts, id).value;
      r[i] == posts[i].(likes := Seqs.Without(posts[i].likes, u)) && u !in r[i].likes
  {
    match PostIndex(posts, id)
    case None => posts
    case Some(i) =>
      var likes: seq<UserId> := Seqs.Without(posts[i].likes, u);
      assert multiset(likes)[u] == 0;
      posts[i := posts[i].(likes := likes)]
  }

  lemma UnlikeUndoesLike(posts: seq<Post>, id: PostId, u: UserId)
    requires PostIndex(posts, id).Some? ==> u !in posts[PostIndex(posts, id).value].likes
    ensures PullLike(PushLike(posts, id, u), id, u) == posts
  {
    var pushed := PushLike(posts, id, u);
    PostIndexStable(posts, pushed, id);
    var r := PullLike(pushed, id, u);
    match PostIndex(posts, id)
    case None =>
    case Some(i) =>
      Seqs.PullAfterPush(posts[i].likes, u);
      assert r[i] == posts[i];
      assert forall k :: 0 <= k < |r| ==> r[k] == posts[k];
  }

  /** Liking a post the user has not liked keeps the posts well formed... */
  lemma LikeKeepsPostsWellFormed(posts: seq<Post>, id: PostId, u: UserId, bound: nat)
    requires PostsWellFormed(posts, bound)
    requires PostIndex(posts, id).Some? ==> u !in posts[PostIndex(posts, id).value].likes
    ensures PostsWellFormed(PushLike(posts, id, u), bound)
  {
    var r := PushLike(posts, id, u);
    if PostIndex(posts, id).Some? {
      var i := PostIndex(posts, id).value;
      var likes := posts[i].likes + [u];
      assert forall a, b :: 0 <= a < b < |likes| ==> likes[a] != likes[b];
      assert forall k :: 0 <= k < |r| ==> Seqs.NoDuplicates(r[k].likes);
    }
  }

  /** ... and so does unliking. */
  lemma UnlikeKeepsPostsWellFormed(posts: seq<Post>, id: PostId, u: UserId, bound: nat)
    requires PostsWellFormed(posts, bound)
    ensures PostsWellFormed(PullLike(posts, id, u), bound)
  {
    var r := PullLike(posts, id, u);
    if PostIndex(posts, id).Some? {
      var i := PostIndex(posts, id).value;
      Seqs.WithoutKeepsNoDuplicates(posts[i].likes, u);
      assert forall k :: 0 <= k < |r| ==> Seqs.NoDuplicates(r[k].likes);
    }
  }
}
