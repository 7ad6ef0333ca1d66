/** The post handlers: the four read queries and the four writes (create, like
    toggle, comment, delete), each producing its notification where the source
    does. */
module PostController {
  import opened Wrappers
  import opened Documents
  import opened External
  import Seqs
  import Images
  import opened Database

  // ---------------------------------------------------------------------------
  // Ordering: `.sort({ createdAt: -1 })`

  ghost predicate NewestFirst(ps: seq<Post>)
  {
    forall i, j :: 0 <= i < j < |ps| ==> ps[i].createdAt >= ps[j].createdAt
  }

  function InsertByDate(p: Post, ps: seq<Post>): (r: seq<Post>)
    requires NewestFirst(ps)
    ensures NewestFirst(r)
    ensures multiset(r) == multiset(ps) + multiset{p}
    ensures |r| > 0 && (r[0] == p || (|ps| > 0 && r[0] == ps[0]))
  {
    if |ps| == 0 then [p]
    else if p.createdAt >= ps[0].createdAt then
      NewerInFront(p, ps);
      [p] + ps
    else
      assert ps == [ps[0]] + ps[1..];
      var rest := InsertByDate(p, ps[1..]);
      NewerInFront(ps[0], rest);
      [ps[0]] + rest
  }

  lemma NewerInFront(p: Post, ps: seq<Post>)
    requires NewestFirst(ps) && (|ps| == 0 || p.createdAt >= ps[0].createdAt)
    ensures NewestFirst([p] + ps)
  {
    var r := [p] + ps;
    forall i, j | 0 <= i < j < |r| ensures r[i].createdAt >= r[j].createdAt {
      if i > 0 {
        assert r[i] == ps[i - 1] && r[j] == ps[j - 1];
      } else {
        assert r[j] == ps[j - 1];
      }
    }
  }

  /** The posts newest first (ties in no particular order). */
  function SortNewest(ps: seq<Post>): (r: seq<Post>)
    ensures NewestFirst(r)
    ensures multiset(r) == multiset(ps)
  {
    if |ps| == 0 then []
    else
      assert ps == [ps[0]] + ps[1..];
      InsertByDate(ps[0], SortNewest(ps[1..]))
  }

  // ---------------------------------------------------------------------------
  // Read queries

  /** GET /api/posts/all: every post, newest first; none gives `[]`. */
  method GetAllPosts(db: Db) returns (r: Response)
    ensures r.status == 200 && r.cookie == NoCookie && r.body.PostsBody?
    ensures NewestFirst(r.body.posts)
    ensures multiset(r.body.posts) == multiset(db.posts)
    ensures db.posts == [] ==> r.body.posts == []
  {
    var sorted := SortNewest(db.posts);
    if |sorted| == 0 {
      return Response(200, PostsBody([]), NoCookie);
    }
    r := Response(200, PostsBody(sorted), NoCookie);
  }

  /** GET /api/posts/following: the posts of the users the requester follows,
      newest first. */
  method GetFollowingPosts(db: Db, me: UserId) returns (r: Response)
    ensures UserIndex(db.users, me).None? ==> r == MessageResponse(404, "User not found")
    ensures UserIndex(db.users, me).Some? ==>
      var following := db.users[UserIndex(db.users, me).value].following;
      && r.status == 200 && r.cookie == NoCookie && r.body.PostsBody?
      && NewestFirst(r.body.posts)
      && (forall p :: p in r.body.posts <==> p in db.posts && p.user in following)
      && multiset(r.body.posts) == multiset(Seqs.Filter(db.posts, (p: Post) => p.user in following))
  {
    var i := UserIndex(db.users, me);
    if i.None? {
      return MessageResponse(404, "User not found");
    }
    var following := db.users[i.value].following;
    var feed := Seqs.Filter(db.posts, (p: Post) => p.user in following);
    var sorted := SortNewest(feed);
    assert forall p :: p in sorted <==> p in multiset(feed);
    r := Response(200, PostsBody(sorted), NoCookie);
  }

  /** GET /api/posts/user/:username: that user's posts, newest first. */
  method GetUserPosts(db: Db, username: string) returns (r: Response)
    ensures FindOne(db.users, ByUsername, username).None? ==> r == ErrorResponse(404, "User not found")
    ensures FindOne(db.users, ByUsername, username).Some? ==>
      var owner := db.users[FindOne(db.users, ByUsername, username).value].id;
      && r.status == 200 && r.cookie == NoCookie && r.body.PostsBody?
      && NewestFirst(r.body.posts)
      && (forall p :: p in r.body.posts <==> p in db.posts && p.user == owner)
      && multiset(r.body.posts) == multiset(Seqs.Filter(db.posts, (p: Post) => p.user == owner))
  {
    var i := FindOne(db.users, ByUsername, username);
    if i.None? {
      return ErrorResponse(404, "User not found");
    }
    var owner := db.users[i.value].id;
    var mine := Seqs.Filter(db.posts, (p: Post) => p.user == owner);
    var sorted := SortNewest(mine);
    assert forall p :: p in sorted <==> p in multiset(mine);
    r := Response(200, PostsBody(sorted), NoCookie);
  }

  /** GET /api/posts/liked/:id: the posts whose ids the user's `likedPosts` lists, in
      the store's order. */
  method GetLikedPosts(db: Db, userId: UserId) returns (r: Response)
    ensures UserIndex(db.users, userId).None? ==> r == MessageResponse(404, "User not found")
    ensures UserIndex(db.users, userId).Some? ==>
      var liked := db.users[UserIndex(db.users, userId).value].likedPosts;
      && r.status == 200 && r.cookie == NoCookie && r.body.PostsBody?
      && (forall p :: p in r.body.posts <==> p in db.posts && p.id in liked)
      && (forall p :: multiset(r.body.posts)[p] == if p.id in liked then multiset(db.posts)[p] else 0)
      && Seqs.Subseq(r.body.posts, db.posts)
  {
    var i := UserIndex(db.users, userId);
    if i.None? {
      return MessageResponse(404, "User not found");
    }
    var liked := db.users[i.value].likedPosts;
    var found := Seqs.Filter(db.posts, (p: Post) => p.id in liked);
    r := Response(200, PostsBody(found), NoCookie);
  }

  // ---------------------------------------------------------------------------
  // Writes

  /** The document `createPost` saves. */
  function NewPost(id: PostId, owner: UserId, text: string, img: string, now: int): (p: Post)
    ensures p.id == id && p.user == owner && p.text == text && p.img == img
    ensures p.likes == [] && p.comments == [] && p.createdAt == now
  {
    Post(id, owner, text, img, [], [], now)
  }

  /** POST /api/posts/create. The requester must still exist, then text or image
      must be given; an image is uploaded first and the post stores its URL. */
  method CreatePost(db: Db, me: UserId, text: string, img: string, host: Host, now: int) returns (r: Response)
    requires db.Valid()
    modifies db
    ensures db.Valid()
    ensures db.users == old(db.users) && db.notifications == old(db.notifications) && db.destroyed == old(db.destroyed)
    ensures UserIndex(old(db.users), me).None? ==> r == MessageResponse(404, "User not found")
    ensures UserIndex(old(db.users), me).Some? && text == "" && img == "" ==>
      r == MessageResponse(400, "Please provide text or image")
    ensures UserIndex(old(db.users), me).Some? && img != "" && host.upload(img).Threw? ==>
      r == MessageResponse(500, "Internal Server Error")
    ensures r.status == 201 <==>
      UserIndex(old(db.users), me).Some? && (text != "" || img != "") && (img == "" || host.upload(img).Ok?)
    ensures r.status != 201 ==> db.posts == old(db.posts) && db.nextId == old(db.nextId)
    ensures r.status == 201 ==>
      var p := NewPost(old(db.nextId), me, text, if img == "" then "" else host.upload(img).value, now);
      && db.posts == old(db.posts) + [p]
      && db.nextId == old(db.nextId) + 1
      && r == Response(201, PostBody(p), NoCookie)
  {
    if UserIndex(db.users, me).None? {
      return MessageResponse(404, "User not found");
    }
    if text == "" && img == "" {
      return MessageResponse(400, "Please provide text or image");
    }
    var stored := img;
    if img != "" {
      match host.upload(img)
      case Threw(_) =>
        return MessageResponse(500, "Internal Server Error");
      case Ok(url) =>
        stored := url;
    }
    var p := NewPost(db.nextId, me, text, stored, now);
    AppendKeepsPostsWellFormed(db.posts, p, db.nextId);
    db.posts := db.posts + [p];
    db.nextId := db.nextId + 1;
    r := Response(201, PostBody(p), NoCookie);
  }

  /** POST /api/posts/like/:id: unlike when the requester is among the likes, like
      otherwise; only a like notifies the post's owner. */
  method LikeUnlikePost(db: Db, me: UserId, postId: PostId) returns (r: Response)
    requires db.Valid()
    modifies db
    ensures db.Valid()
    ensures db.nextId == old(db.nextId) && db.destroyed == old(db.destroyed)
    ensures PostIndex(old(db.posts), postId).None? ==>
      && r == MessageResponse(404, "Post not found")
      && db.posts == old(db.posts) && db.users == old(db.users) && db.notifications == old(db.notifications)
    ensures PostIndex(old(db.posts), postId).Some? ==>
      var post := old(db.posts)[PostIndex(old(db.posts), postId).value];
      if me in post.likes then
        && db.posts == PullLike(old(db.posts), postId, me)
        && db.users == PullEdge(old(db.users), me, LikedPosts, postId)
        && db.notifications == old(db.notifications)
        && r == Response(200, LikesBody(Seqs.Without(post.likes, me)), NoCookie)
      else
        && db.posts == PushLike(old(db.posts), postId, me)
        && db.users == PushEdge(old(db.users), me, LikedPosts, postId)
        && db.notifications == old(db.notifications) + [Notification(me, post.user, LikeType)]
        && r == Response(200, LikesBody(post.likes + [me]), NoCookie)
  {
    var i := PostIndex(db.posts, postId);
    if i.None? {
      return MessageResponse(404, "Post not found");
    }
    var post := db.posts[i.value];
    if me in post.likes {
      UnlikeKeepsPostsWellFormed(db.posts, postId, me, db.nextId);
      db.posts := PullLike(db.posts, postId, me);
      PullEdgeKeepsWellFormed(db.users, me, LikedPosts, postId, db.nextId);
      db.users := PullEdge(db.users, me, LikedPosts, postId);
      var updatedLikes := Seqs.Without(post.likes, me);
      r := Response(200, LikesBody(updatedLikes), NoCookie);
    } else {
      LikeKeepsPostsWellFormed(db.posts, postId, me, db.nextId);
      db.posts := PushLike(db.posts, postId, me);
      PushEdgeKeepsWellFormed(db.users, me, LikedPosts, postId, db.nextId);
      db.users := PushEdge(db.users, me, LikedPosts, postId);
      db.notifications := db.notifications + [Notification(me, post.user, LikeType)];
      r := Response(200, LikesBody(post.likes + [me]), NoCookie);
    }
  }

  /** POST /api/posts/comment/:id: the comment goes at the end of the post's
      comments, and the owner is notified. */
  method CreateComment(db: Db, me: UserId, postId: PostId, text: string) returns (r: Response)
    requires db.Valid()
    modifies db
    ensures db.Valid()
    ensures db.users == old(db.users) && db.nextId == old(db.nextId) && db.destroyed == old(db.destroyed)
    ensures text == "" ==>
      r == MessageResponse(400, "Please provide a comment")
      && db.posts == old(db.posts) && db.notifications == old(db.notifications)
    ensures text != "" && PostIndex(old(db.posts), postId).None? ==>
      r == MessageResponse(404, "Post not found")
      && db.posts == old(db.posts) && db.notifications == old(db.notifications)
    ensures text != "" && PostIndex(old(db.posts), postId).Some? ==>
      var i := PostIndex(old(db.posts), postId).value;
      var post := old(db.posts)[i];
      var updated := post.(comments := post.comments + [Comment(me, text)]);
      && db.posts == old(db.posts)[i := updated]
      && db.notifications == old(db.notifications) + [Notification(me, post.user, CommentType)]
      && r == Response(201, PostBody(updated), NoCookie)
  {
    if text == "" {
      return MessageResponse(400, "Please provide a comment");
    }
    var i := PostIndex(db.posts, postId);
    if i.None? {
      return MessageResponse(404, "Post not found");
    }
    var post := db.posts[i.value];
    var updated := post.(comments := post.comments + [Comment(me, text)]);
    db.posts := db.posts[i.value := updated];
    db.notifications := db.notifications + [Notification(me, post.user, CommentType)];
    r := Response(201, PostBody(updated), NoCookie);
  }

  /** The public id `deletePost` asks the image host to destroy for a post image. */
  function PostImageId(img: string): (id: string)
    ensures |id| >= 6 && id[..6] == "posts/" && id[6..] == Images.PublicId(img)
    ensures forall k :: 6 <= k < |id| ==> id[k] != '/' && id[k] != '.'
  {
    "posts/" + Images.PublicId(img)
  }

  /** DELETE /api/posts/:id: only the owner may delete; the post's image is
      destroyed at the host first, and a failure there aborts the deletion. */
  method DeletePost(db: Db, me: UserId, postId: PostId, host: Host) returns (r: Response)
    requires db.Valid()
    modifies db
    ensures db.Valid()
    ensures db.users == old(db.users) && db.notifications == old(db.notifications) && db.nextId == old(db.nextId)
    ensures PostIndex(old(db.posts), postId).None? ==>
      r == MessageResponse(404, "Post not found") && db.posts == old(db.posts) && db.destroyed == old(db.destroyed)
    ensures PostIndex(old(db.posts), postId).Some? ==>
      var i := PostIndex(old(db.posts), postId).value;
      var post := old(db.posts)[i];
      if post.user != me then
        r == MessageResponse(403, "You are not authorized to delete this post")
        && db.posts == old(db.posts) && db.destroyed == old(db.destroyed)
      else if post.img != "" && host.destroy(PostImageId(post.img)).Threw? then
        r == MessageResponse(500, "Internal Server Error")
        && db.posts == old(db.posts) && db.destroyed == old(db.destroyed)
      else
        && r == MessageResponse(200, "Post deleted successfully")
        && db.posts == old(db.posts)[..i] + old(db.posts)[i + 1..]
        && PostIndex(db.posts, postId).None?
        && db.destroyed == old(db.destroyed) + (if post.img != "" then [PostImageId(post.img)] else [])
  {
    var i := PostIndex(db.posts, postId);
    if i.None? {
      return MessageResponse(404, "Post not found");
    }
    var post := db.posts[i.value];
    if post.user != me {
      return MessageResponse(403, "You are not authorized to delete this post");
    }
    if post.img != "" {
      var imgId := PostImageId(post.img);
      match host.destroy(imgId)
      case Threw(_) =>
        return MessageResponse(500, "Internal Server Error");
      case Ok(_) =>
        db.destroyed := db.destroyed + [imgId];
    }
    RemoveKeepsPostsWellFormed(db.posts, i.value, db.nextId);
    db.posts := db.posts[..i.value] + db.posts[i.value + 1..];
    r := MessageResponse(200, "Post deleted successfully");
  }

  // ---------------------------------------------------------------------------
  // The store's invariant across the writes

  lemma AppendKeepsPostsWellFormed(posts: seq<Post>, p: Post, bound: nat)
    requires PostsWellFormed(posts, bound) && p.id == bound && p.likes == []
    ensures PostsWellFormed(posts + [p], bound + 1)
  {
    var r := posts + [p];
    assert forall k :: 0 <= k < |posts| ==> r[k] == posts[k];
  }

  /** Removing the post at `i` keeps the rest well formed and leaves no post with
      its id. */
  lemma RemoveKeepsPostsWellFormed(posts: seq<Post>, i: nat, bound: nat)
    requires PostsWellFormed(posts, bound) && i < |posts|
    ensures PostsWellFormed(posts[..i] + posts[i + 1..], bound)
    ensures PostIndex(posts[..i] + posts[i + 1..], posts[i].id).None?
  {
    var r := posts[..i] + posts[i + 1..];
    assert forall k :: 0 <= k < |r| ==> r[k] == (if k < i then posts[k] else posts[k + 1]);
    forall a, b | 0 <= a < b < |r|
      ensures r[a].id != r[b].id
    {
      var a' := if a < i then a else a + 1;
      var b' := if b < i then b else b + 1;
      assert a' < b' && r[a] == posts[a'] && r[b] == posts[b'];
    }
  }
}
