# Twitter-clone request handlers in Dafny

This project models the server side of a small Twitter-like social network and one client hook. The server is an Express application over MongoDB. Users sign up, log in and out, follow each other, post text and images, like and comment on posts, and edit their profiles. Every protected route first goes through the authorization gate `protectRoute`. On the client, the profile-update hook turns server errors into messages for the user.

The store is one `Database.Db` object. It holds:
- the users, posts and notifications collections, as sequences in the store's natural order;
- the counter that hands out fresh ids;
- a ghost log of the image public ids the handlers destroyed at the image host.

Each handler is a method on that store. It takes the request fields and the requester's id and returns a `Response`. A response carries the status, one of the JSON body shapes, and what happens to the `jwt` session cookie. The error bodies keep the source's two shapes, `{error}` and `{message}`, handler by handler. `Db.Valid()` is the invariant every writing handler keeps:
- the unique indexes hold;
- every id is below the counter;
- no post lists the same liker twice.

The libraries become parameters or stand-ins:
- bcrypt is a symbolic `Hash` whose `Compare` accepts a password's own hash and nothing else;
- `jwt.verify` is a verifier function that yields a payload, a falsy value, or a throw;
- the image host is a pair of `upload`/`destroy` functions, either of which may throw.

Two places where a reader might expect other behaviour; the model follows the code in both:
- `getMe` answers 200 with a `null` body when the requester's document has vanished since the gate ran, not 404.
- A token that `jwt.verify` rejects (bad signature, expired) makes the library throw. The gate's catch then answers 500 "Internal Server Error". The 401 "Unauthorized: Invalid Token" is sent only when the verifier returns a falsy value.

Modules:
- `Wrappers`, `Seqs` and `Text` hold `Option`/`Outcome`, sequence filters with `$pull`, and the JavaScript string operations: `includes`, `split().pop()`, `split()[0]` and `\s`.
- `External` holds the bcrypt, JWT-verifier and image-host stand-ins.
- `Documents` holds the documents, projections, lookups and single-document writes.
- `Database` holds the store.
- `Images` holds the public id read out of an image URL.
- `AuthController`, `Middleware`, `PostController` and `UserController` follow the source files.
- `UpdateProfileHook` is the client's mutation function.
- `Scenarios` holds request sequences across handlers.

## Model

| member | source | states |
|---|---|---|
| Seqs.Filter | backend/controllers/user.controller.js:79 | `Array.filter`: an order-preserving subsequence that holds every element that passes as many times as the input does, and none that fails |
| Seqs.Without | backend/controllers/post.controller.js:77-80 | `$pull` / filter-out: removes every occurrence of the value and nothing else (multiset with that count zeroed), in order |
| Seqs.PullAfterPush | backend/controllers/post.controller.js:77-88 | pulling a value just pushed onto a sequence that lacked it gives back the sequence |
| Seqs.WithoutKeepsNoDuplicates | backend/controllers/post.controller.js:77 | a pull keeps a duplicate-free array duplicate-free |
| Text.IsSpace | backend/controllers/auth.controller.js:15 | the `\s` class: admits the ASCII blanks (space, tab, line feed, carriage return) and never `@`, `.`, a digit or a Latin letter |
| Text.Contains | frontend/src/hooks/useUpdateUserProfile.jsx:24-28 | `includes`: true for a prefix, and only when the text is no longer than the string |
| Text.ContainsMeansOccurs | frontend/src/hooks/useUpdateUserProfile.jsx:24-28 | `includes` is true exactly when the text occurs at some position |
| Text.AfterLast | backend/controllers/post.controller.js:183 | `split("/").pop()`: the suffix after the last separator, with no separator in it |
| Text.BeforeFirst | backend/controllers/post.controller.js:183 | `split(".")[0]`: the prefix before the first separator, with no separator in it |
| Text.AfterLastOfJoin | backend/controllers/post.controller.js:183 | When `b` holds no `/`, the last `/`-segment of `a + "/" + b` (`split("/").pop()`) is exactly `b`. |
| Text.BeforeFirstOfJoin | backend/controllers/post.controller.js:183 | When `a` holds no `.`, the first `.`-segment of `a + "." + b` (`split(".")[0]`) is exactly `a`. |
| External.Hash | backend/controllers/auth.controller.js:38-39 | a hash is never empty (longer than the password) |
| External.CompareHash | backend/controllers/auth.controller.js:85 | `bcrypt.compare` accepts a password against its own hash, and only that password |
| External.CompareEmptyFails | backend/controllers/auth.controller.js:85 | comparing against `""` (unknown username) always fails |
| Images.PublicId | backend/controllers/post.controller.js:183 | the public id has no `/` or `.` and is a prefix of the last path segment |
| Images.PublicIdOfFileName | backend/controllers/user.controller.js:116-117 | for a URL ending in `/<name>.<ext>` the public id is exactly `<name>` |
| Documents.ProfileForgetsOnlyPassword | backend/controllers/auth.controller.js:132 | `select("-password")`: two users have the same profile iff they differ at most in their hash |
| Documents.PublicIgnoresHidden | backend/controllers/auth.controller.js:55-64 | the signup/login body depends on none of hash, liked posts, bio, link |
| Documents.ToProfile | backend/middleware/protectRoute.js:18 | `select("-password")`: keeps id, username, email and the three reference arrays |
| Documents.ToPublic | backend/controllers/auth.controller.js:55-64 | the eight-field signup/login body: keeps id, username, email, followers and following |
| Documents.UserIndex | backend/controllers/user.controller.js:28-29 | `findById`: the first user with that id; none iff no user has it |
| Documents.FindOne | backend/controllers/auth.controller.js:21-27 | `findOne({username})` / `findOne({email})`: a user with that key value; none iff no user has it |
| Documents.PostIndex | backend/controllers/post.controller.js:68 | `Post.findById`: the first post with that id; none iff no post has it |
| Documents.DuplicateKeyMessage | backend/controllers/user.controller.js:141 | the E11000 text: starts with "E11000 duplicate key", has the fixed length around field and value, and quotes the value just before the closing ` }` |
| Documents.SaveConflict | backend/controllers/user.controller.js:141 | `user.save()` under the unique indexes: fails iff another user has the username or email, with the E11000 message of the username index when both clash |
| Documents.SaveKeepsUnique | backend/controllers/user.controller.js:141 | a save that raised no duplicate-key error keeps all indexes unique |
| Documents.PushEdge | backend/controllers/user.controller.js:44-45 | `$push`: appends to one array of the user with that id; no other user or field changes |
| Documents.PullEdge | backend/controllers/user.controller.js:39-40 | `$pull`: removes from one array of the user with that id; no other user or field changes |
| Documents.SameKeysKeepWellFormed | backend/controllers/user.controller.js:39-45 | writes that keep every id, username and email keep the unique indexes |
| Documents.PushEdgeKeepsWellFormed | backend/controllers/user.controller.js:44-45 | a `$push` on a reference array keeps the users well formed |
| Documents.PullEdgeKeepsWellFormed | backend/controllers/user.controller.js:39-40 | a `$pull` on a reference array keeps the users well formed |
| Documents.PullUndoesPush | backend/controllers/user.controller.js:39-45 | pulling what was just pushed (and was absent) restores the collection |
| Documents.PullPushCommute | backend/controllers/user.controller.js:39-45 | writes to two different users commute |
| Documents.PushLike | backend/controllers/post.controller.js:86-88 | `post.likes.push(u)`: appends the liker to that post only |
| Documents.PullLike | backend/controllers/post.controller.js:77 | `$pull` on likes: the liker leaves that post's likes; no other post changes |
| Documents.UnlikeUndoesLike | backend/controllers/post.controller.js:77-88 | unliking right after a first like restores the posts |
| Documents.LikeKeepsPostsWellFormed | backend/controllers/post.controller.js:74-88 | liking a post the user has not liked keeps every likes array duplicate-free |
| Documents.UnlikeKeepsPostsWellFormed | backend/controllers/post.controller.js:77 | unliking keeps the posts well formed |
| AuthController.EmailFormatOk | backend/controllers/auth.controller.js:15-16 | the email shape check: an accepted address holds an `@`, not in first place, and has at least five characters (its equivalence with the expression is the next row) |
| AuthController.EmailFormatOkIsRegex | backend/controllers/auth.controller.js:15 | the check accepts exactly the language of `^[^\s@]+@[^\s@]+\.[^\s@]+$` |
| AuthController.EmailOkMatches | backend/controllers/auth.controller.js:15 | accepted ⇒ matches the expression |
| AuthController.MatchIsEmailOk | backend/controllers/auth.controller.js:15 | matches the expression ⇒ accepted |
| AuthController.SignupError | backend/controllers/auth.controller.js:14-35 | the first failing check in order: email shape, username taken, email taken, password length; none iff all pass |
| AuthController.NewUser | backend/controllers/auth.controller.js:37-47 | the saved user has the new id, the given username and email, and a hash its password matches |
| AuthController.Signup | backend/controllers/auth.controller.js:9-72 | on error 400 with the message and no change; else exactly one user appended, 201 with the eight public fields and the session cookie for the new id |
| AuthController.Login | backend/controllers/auth.controller.js:78-109 | 200 iff the username exists and the password matches, with the public fields and cookie; otherwise the same 401 "Invalid Credentials"; the store is only read |
| AuthController.Logout | backend/controllers/auth.controller.js:115-123 | always 200 "Logged out successfully" and the cookie cleared; the store is not touched |
| AuthController.GetMe | backend/controllers/auth.controller.js:129-138 | 200 with the requester's profile without hash, or a `null` body when the user is gone |
| Middleware.Authorize | backend/middleware/protectRoute.js:5-32 | the decision chain: no token 401, verifier throws 500, falsy 401, unknown id 401 "User not found", else proceed with the hash-free user; proceed iff all pass |
| Middleware.Request.constructor | backend/middleware/protectRoute.js:7-24 | the request object the gate reads (`req.cookies.jwt`) and writes (`req.user`, the `next()` calls): it starts with its cookie, no user and no `next()` call |
| Middleware.ProtectRoute | backend/middleware/protectRoute.js:24-26 | on proceed `req.user` is set and `next` called exactly once; on reject the error response and the request untouched |
| PostController.InsertByDate | backend/controllers/post.controller.js:9 | inserting into a newest-first list keeps it newest first and adds exactly that post |
| PostController.SortNewest | backend/controllers/post.controller.js:9 | `sort({createdAt: -1})`: newest first and a permutation of the input |
| PostController.GetAllPosts | backend/controllers/post.controller.js:7-27 | 200 with every post, newest first; an empty store gives `[]` |
| PostController.GetFollowingPosts | backend/controllers/post.controller.js:217-236 | 404 `{message}` for a missing requester; else exactly the posts whose owner the requester follows, newest first |
| PostController.GetUserPosts | backend/controllers/post.controller.js:238-261 | 404 `{error}` for an unknown username; else exactly that user's posts, newest first |
| PostController.GetLikedPosts | backend/controllers/post.controller.js:195-215 | 404 `{message}` for an unknown user; else exactly the posts named in `likedPosts`, each as often as the store holds it, in store order |
| PostController.NewPost | backend/controllers/post.controller.js:49-53 | the new post has the requester as owner, the text and image, no likes or comments |
| PostController.CreatePost | backend/controllers/post.controller.js:29-61 | the requester check first (404), then text-or-image (400), then the upload (500 on a throw); on 201 exactly one post is appended, with the uploaded URL |
| PostController.LikeUnlikePost | backend/controllers/post.controller.js:63-105 | 404 changes nothing; a liker is pulled from both sides and gets the filtered likes, no notification; otherwise both sides are pushed and one like notification goes to the owner |
| PostController.CreateComment | backend/controllers/post.controller.js:107-138 | empty text 400 before the lookup, then 404; else the comment is appended, the earlier ones are kept, and one comment notification goes to the owner |
| PostController.PostImageId | backend/controllers/post.controller.js:183-184 | `posts/` followed by the image's public id |
| PostController.DeletePost | backend/controllers/post.controller.js:172-193 | 404, then 403 for a non-owner, both without change; the image is destroyed as `posts/<id>` (a throw aborts with 500); then the post is removed and no post has its id |
| PostController.AppendKeepsPostsWellFormed | backend/controllers/post.controller.js:49-55 | saving a fresh post with the next id keeps the posts well formed |
| PostController.RemoveKeepsPostsWellFormed | backend/controllers/post.controller.js:187 | `findByIdAndDelete` keeps the rest well formed and leaves no post with the id |
| UserController.GetUserProfile | backend/controllers/user.controller.js:8-23 | 404 `{error}` iff the username is unknown; else the hash-free profile of the user `findOne({username})` finds |
| UserController.Follow | backend/controllers/user.controller.js:44-45 | the two `$push` writes of a follow (same collection size; the edge itself is stated by the next rows) |
| UserController.Unfollow | backend/controllers/user.controller.js:39-40 | the two `$pull` writes of an unfollow (same collection size; the edge itself is stated by the next rows) |
| UserController.FollowWrites | backend/controllers/user.controller.js:44-45 | a follow appends the requester to the target's followers and the target to the requester's following, and leaves every other document as it was |
| UserController.UnfollowWrites | backend/controllers/user.controller.js:39-40 | an unfollow removes the requester from the target's followers and the target from the requester's following, and leaves every other document as it was |
| UserController.FollowUnfollowUser | backend/controllers/user.controller.js:25-63 | self 400, then a missing user 404, both without change; following ⇒ both pulls and no notification; else both pushes and one follow notification to the target |
| UserController.FollowKeepsWellFormed | backend/controllers/user.controller.js:44-45 | a follow keeps the users well formed |
| UserController.UnfollowKeepsWellFormed | backend/controllers/user.controller.js:39-40 | an unfollow keeps the users well formed |
| UserController.Unfollowed | backend/controllers/user.controller.js:79 | the sampled users not followed: a subsequence of the sample holding each of them as often as the sample does and no followed user; none is the requester |
| UserController.WithoutHashes | backend/controllers/user.controller.js:82 | the `forEach` that nulls each password: one hash-free profile per user, in order |
| UserController.UnfollowUndoesFollow | backend/controllers/user.controller.js:39-45 | from a not-linked state, unfollow after follow restores every user |
| UserController.GetSuggestedUsers | backend/controllers/user.controller.js:65-88 | a missing requester gives 500 with the TypeError message when the sample holds someone, and 200 `[]` for an empty sample (the filter callback never runs); else the first four sampled users not followed, in sample order, without hashes, none of them the requester |
| UserController.Suggest | backend/controllers/user.controller.js:79-82 | `filter`, `slice(0, 4)` and the password-nulling `forEach`: at most four hash-free profiles of the unfollowed sample, in sample order |
| UserController.PasswordStep | backend/controllers/user.controller.js:101-111 | both or neither; then the current password must match, then the new one be 6+ long; a new hash only then, and it matches the new password |
| UserController.PasswordChangeTakesEffect | backend/controllers/user.controller.js:104-110 | after a change, exactly the new password matches the stored hash |
| UserController.Or | backend/controllers/user.controller.js:133-139 | `a \|\| b` on strings: `a` when non-empty, else `b` |
| UserController.Merge | backend/controllers/user.controller.js:133-139 | each field takes the request's value when non-empty, else keeps the stored one; id, hash and relationships unchanged |
| UserController.MergeNeverClears | backend/controllers/user.controller.js:133-139 | an update never empties a field |
| UserController.MergeIdempotent | backend/controllers/user.controller.js:133-139 | applying the same update twice equals applying it once |
| UserController.MergeEmptyIsIdentity | backend/controllers/user.controller.js:133-139 | an empty request changes nothing |
| UserController.ReplaceImage | backend/controllers/user.controller.js:113-131 | no image ⇒ unchanged; else destroy the old image by public id (a throw stops the step), then upload; uploaded iff both succeed, with the host's URL |
| UserController.ReplaceImageAsWritten | backend/controllers/user.controller.js:92-131 | as the code is written, no image step ever succeeds: a successful upload turns into the const-assignment failure |
| UserController.ImageUpdateAlwaysFailsAsWritten | backend/controllers/user.controller.js:92-131 | with a host that accepts everything, the as-written step fails after having destroyed the old image, where the corrected step uploads |
| UserController.Updated | backend/controllers/user.controller.js:109-139 | the saved document is the merge, carrying the new hash when the password changed |
| UserController.UpdateUser | backend/controllers/user.controller.js:90-150 | the CORRECTED handler (the image step binds the uploaded URLs, see Findings): checks in order (404, the password 400s, the image 500s, the duplicate-key 500); images destroyed before a failure stay destroyed; on success just that user is replaced and returned without hash |
| UserController.UpdateStoresRequest | backend/controllers/user.controller.js:133-141 | a successful update stores every non-empty field (username, email, full name, bio, link) and the uploaded URLs, and keeps id and relationships |
| UpdateProfileHook.ErrorField | frontend/src/hooks/useUpdateUserProfile.jsx:19 | the message thrown for a failed response: `data.error \|\| "Something went wrong"`, or the TypeError "Cannot read properties of null (reading 'error')" for a `null` body; never empty |
| UpdateProfileHook.Classify | frontend/src/hooks/useUpdateUserProfile.jsx:23-34 | duplicate key plus email, then username, then the generic text; other messages pass unchanged |
| UpdateProfileHook.MutationFn | frontend/src/hooks/useUpdateUserProfile.jsx:8-43 | ok ⇒ resolved with the body; not ok ⇒ rejected with the classified error field; a thrown error is classified; a non-Error gives "Something went wrong" |
| UpdateProfileHook.NullBodyRejected | frontend/src/hooks/useUpdateUserProfile.jsx:17-38 | a failed response whose body is `null` rejects with the TypeError from reading `data.error`, unchanged by the rewriting |
| UpdateProfileHook.RewrittenIsFixed | frontend/src/hooks/useUpdateUserProfile.jsx:27-32 | the three rewritten messages mention no duplicate key |
| UpdateProfileHook.ClassifyIdempotent | frontend/src/hooks/useUpdateUserProfile.jsx:23-41 | classifying twice equals classifying once |
| UpdateProfileHook.DuplicateKeyMentions | frontend/src/hooks/useUpdateUserProfile.jsx:24-28 | every E11000 message mentions "duplicate key" and its field |
| UpdateProfileHook.DuplicateEmailShown | frontend/src/hooks/useUpdateUserProfile.jsx:24-27 | the server's duplicate-email error is shown as "Email already in use." |
| UpdateProfileHook.DuplicateUsernameShown | frontend/src/hooks/useUpdateUserProfile.jsx:24-29 | a duplicate-username error is shown as "Username already taken.", or as the email text when the username itself contains "email" |
| UpdateProfileHook.EmailAbsentAround | frontend/src/hooks/useUpdateUserProfile.jsx:26 | the fixed text of a duplicate-username message holds no "email" |
| UpdateProfileHook.ContainsTransitive | frontend/src/hooks/useUpdateUserProfile.jsx:26 | `includes` is transitive |
| UpdateProfileHook.SaveConflictShown | frontend/src/hooks/useUpdateUserProfile.jsx:24-29 | a profile save that clashes is always shown as one of the two field-specific messages |
| Scenarios.SignupThenLogin | backend/controllers/auth.controller.js:42-104 | logging in right after signup returns the same body and cookie; another password gets 401 |
| Scenarios.SignupThenMe | backend/middleware/protectRoute.js:12-26 | the new account's token, once verified, passes the gate and `getMe` returns that account |
| Scenarios.LikeTwice | backend/controllers/post.controller.js:74-99 | like then unlike restores the posts and the users, with one like notification |
| Scenarios.FollowTwice | backend/controllers/user.controller.js:35-56 | follow then unfollow restores the users, with one follow notification |
| Scenarios.CreateThenList | backend/controllers/post.controller.js:49-56 | a post just created appears in the full timeline |
| Scenarios.DeleteThenList | backend/controllers/post.controller.js:182-188 | after the owner deletes a post that has no image, or whose image the host destroys, the timeline holds no post with its id |

## Left out

- MongoDB and Mongoose mechanics are not modelled: ObjectId casting (a malformed id throws a cast error and gets 500), `populate`, `aggregate`, and failures of the database itself. `populate` is used only as the projection that drops the hash, and queries return the stored post records.
- backend/models/user.model.js and the other schemas are not part of this model. Two things are assumed: array and profile fields default to empty, and `username` and `email` carry unique indexes. A save is assumed to fail only on those unique indexes: the schemas' other validators (required fields such as `fullName`, for instance) are not modelled, so a signup with an empty `fullName` gets 201 in the model. MongoDB's real E11000 message also names the database in front of `users`; the model leaves that out.
- `Documents.SaveConflict`: when a save clashes on both the username and the email index, the model reports the username index. Which index MongoDB reports first depends on the index order the schema creates, which is not part of this model.
- Request fields the body leaves out are modelled as `""`, which has the same truthiness. The 500 that `password.length` on a missing password raises in signup is therefore not modelled.
- `AuthController.Signup`: a missing request field is modelled as `""`, which keeps its truthiness but not Mongoose's query: `findOne({ username: undefined })` drops the key and matches any document, while the model's `findOne({ username: "" })` matches none. So on a non-empty store a signup without `username` answers 400 "Username is already taken" in the source (auth.controller.js:21-24), while the model goes on to the email and password checks and can answer 201.
- `AuthController.Login`: for the same reason, a login without `username` finds some stored user in the source (auth.controller.js:84-85) and compares the password against that user's hash, so it can answer 200 as that user; the model finds no user and always answers 401.
- `AuthController.Login`: a body without `password` makes `bcrypt.compare(undefined, …)` reject with "Illegal arguments", which reaches the catch and answers 500; with the missing field modelled as `""` the model answers 401 there.
- The "Invalid user data" branch of signup is unreachable (a new document is always truthy) and is not modelled.
- bcrypt's salt, its cost factor and its 72-byte truncation are not modelled. A hash is the password behind a fixed prefix.
- JWT signing, expiry and the cookie options (backend/utils/generateToken.js) are not modelled. A response records only which id the session cookie is issued for, or that it is cleared.
- The image host is a parameter. The `folder: "posts"` option of the post upload is not modelled separately; the host's URL is stored as returned.
- `Middleware.Authorize`: a database failure during the user lookup would also give 500; only the verifier's throw is modelled.
- `UserController.GetSuggestedUsers`: `$sample` is random. The sample is a parameter: at most ten users, all in the store, none of them the requester. The model does not require the draw to be without repetition or to be as large as the store allows.
- `deleteComment` is commented out in the source and is not modelled.
- Each handler runs as one atomic step. The source's paired writes (likes with likedPosts, followers with following, the cookie set before the save in signup) are separate uncoordinated writes. Interleavings and partial failures between them are not modelled.
- The mirror relations (a follower listed in the target's followers iff the target is in their following; a liker in post likes iff the post is in their likedPosts) are not part of `Db.Valid()`. The source does not maintain them under failures. The toggle-twice results therefore take "absent on both sides" as an explicit precondition.
- `createdAt` is a parameter of `CreatePost`. Posts with equal `createdAt` come back in an order the model fixes (insertion order), where MongoDB leaves ties unspecified.
- JavaScript string lengths count UTF-16 code units; the model counts characters. This matters only for the length-6 password checks with characters outside the Basic Multilingual Plane.
- The client hook's `fetch` call, React Query's state, the toasts and the cache invalidation in `onSuccess`/`onError` are not modelled. A thrown non-Error value is modelled as carrying no message.
- Logging is not modelled.

## Findings

| source | as written | input that shows it | evidently intended | confidence | as-written member | corrected member |
|---|---|---|---|---|---|---|
| backend/controllers/user.controller.js:92 | `profileImg` and `coverImg` are destructured as `const` and later reassigned the uploaded URL (lines 121 and 130). The reassignment throws "Assignment to constant variable." after the old image was destroyed and the new one uploaded, so the handler answers 500 and saves nothing, while the document still points at the destroyed image | any profile update that sends a non-empty `profileImg` (or `coverImg`), with a host that accepts the calls | bind the two fields with `let` so that the uploaded URLs are merged and saved | high (not executed) | UserController.ReplaceImageAsWritten, UserController.ImageUpdateAlwaysFailsAsWritten | UserController.ReplaceImage (used by UserController.UpdateUser) |
