/** The document store the handlers read and write: the users, posts and
    notifications collections, the counter that hands out fresh ObjectIds, and a
    record of the image public ids the handlers have had the image host destroy. */
module Database {
  import opened Documents
  import Seqs

  class Db {
    var users: seq<User>
    var posts: seq<Post>
    var notifications: seq<Notification>
    var nextId: nat
    ghost var destroyed: seq<string>

    /** The unique indexes hold, every issued id is below the counter, and no post
        is liked twice by the same user. */
    ghost predicate Valid()
      reads this
    {
      UsersWellFormed(users, nextId) && PostsWellFormed(posts, nextId)
    }

    constructor ()
      ensures Valid()
      ensures users == [] && posts == [] && notifications == [] && destroyed == []
    {
      users, posts, notifications, nextId := [], [], [], 0;
      destroyed := [];
    }
  }
}
