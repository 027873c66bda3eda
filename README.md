# Blog service: the cache-consistency core

This project models the service layer of a Go blog backend: posts, users and comments held in a
relational store and mirrored in a Redis cache. Services read the cache first and fall back to the
store on a miss. After a mutation they write the store first and the cache second. A cached post
whose embedded author is zero-valued has that author resolved again.

The model has two layers.

- **Operations on snapshots.** Pure functions over a cache snapshot (`Redis.CacheState`) and a store
  snapshot (`Store.DbState`) give each operation's result together with the cache and store it leaves
  behind. Examples are `Posts.GetPostByIdSpec`, `Users.RegisterSpec` and `Comments.CreateSpec`.
  Every property is proved as a lemma about these functions.
- **The services.** The classes `Redis.RedisClient`, `Redis.RedisService`, `Store.Database`,
  `Users.UserService`, `Posts.PostService` and `Comments.CommentService` carry the source's state as
  fields. Their methods work step by step, as the Go methods do. Each method's `ensures` says its
  result and the new cache and store are exactly what the snapshot function gives for the old state.

Transport faults are part of the state and fixed for one request:

- GET, SET or DEL on the cache fails (`getFails`, `setFails`, `delFails`);
- a repository call fails (`failing`).

A Go panic, the dereference of a nil embedded author, is the error `NilDereference`.

Two parts of the cache hold the layout together:

- Keys are `type + ":" + id`. `Keys.UintToString` writes numbers in decimal and is injective.
- The layout invariant `Redis.Coherent` says that post:{n} and user:{n} only ever hold entity n.
  Every service operation preserves it.

A third relation, `Consistency.Shadows`, ties the cache to the store. A post cached under
post:{n} has an id the store has already issued. While row n exists, the cached post names the
row's author. Every operation preserves it, as does the passing of time. So the ownership check
in Update and Delete, which may read the post from the cache, passes only for the author the row
names.

## Model

| member | source | states |
|---|---|---|
| Dto.ClampPage | internal/services/post_service_impl.go:73-75 | the page becomes 1 when it is below 1 and is kept otherwise |
| Dto.ClampPageSize | internal/services/post_service_impl.go:76-78 | the page size becomes 10 when it is below 1 and is kept otherwise |
| Entities.PostResponseDeterminedBy | internal/entities/post.go:22-32 | two post responses are equal exactly when the posts agree on id, title, content, authorId and times and the author responses passed in are equal; the embedded author plays no part, and authorId is the post's own whatever author response is given |
| Entities.UserResponsesDeterminedBy | internal/entities/user.go:21-47 | the user, login and author responses are equal exactly when id, name and email (and the token) agree, so the password hash and timestamps are never exposed |
| Entities.CommentResponseDeterminedBy | internal/entities/comment.go:20-28 | a comment response determines the whole comment: id, post id, author name, content and creation time are copied |
| Entities.ToPostResponse | internal/entities/post.go:22-32 | the response copies the post's id, title, content, author id and times, and carries the author response handed in |
| Entities.ToUserResponse | internal/entities/user.go:21-28 | the response carries the user's id, name and email and the token, and no password hash |
| Entities.ToUserLoginResponse | internal/entities/user.go:31-38 | the login response carries the user's id, name and email and the token |
| Entities.ToAuthorResponse | internal/entities/user.go:41-47 | the author response carries the user's id, name and email |
| Entities.ToCommentResponse | internal/entities/comment.go:20-28 | the response copies all five fields of the comment |
| Keys.UintToString | internal/helpers/type_converter.go:16-17 | the decimal form is non-empty, all digits, without a leading zero except for 0, and a single digit exactly below 10 |
| Keys.UintToStringInjective | internal/helpers/type_converter.go:16-17 | distinct ids give distinct strings |
| Keys.KeyInjective | internal/services/redis_service.go:31 | two `type:id` keys of one type are equal exactly when the ids are |
| Keys.PostKeyInjective | internal/services/post_service_impl.go:185-186 | post:{a} and post:{b} are the same key exactly when a = b |
| Keys.UserIdKeyInjective | internal/services/user_service_impl.go:118-120 | user:{a} and user:{b} are the same key exactly when a = b |
| Keys.PostKeyIsNotUserKey | internal/services/redis_service.go:31 | no post key is a user key |
| Keys.UserIdKeyIsNotEmailKey | internal/services/user_service_impl.go:140 | a user-by-email key (the email holds '@') never collides with a user-by-id key |
| Redis.Unmarshal | internal/services/redis_service.go:43 | a decoded value has the target's kind, and it differs from the target only if it is the stored value (`null` leaves the target as it was) |
| Redis.GetEntitySpec | internal/services/redis_service.go:35-44 | GetEntity's answer, when it is not an error, has the kind of the target handed in |
| Redis.MissLeavesTargetUnchanged | internal/services/redis_service.go:36-40 | an absent or expired key, or a stored `null`, gives no error and the target unchanged |
| Redis.GetEntityReportsErrors | internal/services/redis_service.go:41-43 | a client error and a decode error are both reported to the caller |
| Redis.SetEntityWritesOnlyItsKey | internal/services/redis_service.go:26-32 | SetEntity succeeds exactly when the value encodes and SET works; then it writes its key with the encoding and the expiry, and otherwise nothing; every other key and the clock are unchanged |
| Redis.GetAfterSet | internal/services/redis_service.go:26-44 | reading back the key just written yields the stored entity |
| Redis.SetKeepsOtherKeys | internal/services/redis_service.go:26-44 | a write under one key leaves what every other key reads unchanged |
| Redis.GetAfterDelete | internal/services/redis_service.go:47-57 | DeleteEntity fails exactly when DEL fails; after a successful delete the key is absent and a GetEntity is a miss |
| Redis.EntryExpires | internal/services/post_service_impl.go:186 | an entry written with the 24-hour expiry is a miss once that much time has passed |
| Redis.GetEntityOfKept | internal/services/redis_service.go:35-44 | a key holding the same entry in two snapshots reads the same in both |
| Redis.KeptAfterSet | internal/services/redis_service.go:26-32 | SetEntity keeps every key other than its own |
| Redis.CachedEntityAfterSet | internal/services/redis_service.go:26-32 | after SetEntity its own key holds the entity when the write succeeded, and every other key holds what it held |
| Redis.CoherentAfterPostWrite | internal/services/post_service_impl.go:184-190 | caching a post under its own id with a fitting author keeps the cache layout |
| Redis.CoherentAfterUserIdWrite | internal/services/user_service_impl.go:132 | caching user n (or nil) under user:{n} keeps the cache layout |
| Redis.CoherentAfterEmailWrite | internal/services/user_service_impl.go:153 | caching anything under user:{email} keeps the cache layout |
| Redis.CoherentAfterDelete | internal/services/redis_service.go:47-57 | deleting a key keeps the cache layout |
| Redis.CoherentAfterAdvance | internal/services/redis_service.go:26-32 | the passing of time (expiry) keeps the cache layout |
| Redis.CachedPostFits | internal/services/post_service_impl.go:193-200 | in a coherent cache a post decoded from post:{n} with a non-zero id is post n, with a fitting author |
| Redis.CachedUserFits | internal/services/user_service_impl.go:117-122 | in a coherent cache a user decoded from user:{n} with a non-zero id is user n |
| Redis.RedisClient.Get | internal/services/redis_service.go:36-41 | GET returns a transport failure, `redis.Nil` for an absent or expired key, or the stored string |
| Redis.RedisClient.Set | internal/services/redis_service.go:31 | SET writes the key with its expiry exactly when it succeeds |
| Redis.RedisClient.Del | internal/services/redis_service.go:49-50 | DEL removes the key exactly when it succeeds |
| Redis.RedisClient.Advance | internal/services/post_service_impl.go:186 | time moves on; nothing else changes |
| Redis.RedisService.SetEntity | internal/services/redis_service.go:26-33 | marshal, then SET; the result and the new entries are those of SetEntitySpec |
| Redis.RedisService.GetEntity | internal/services/redis_service.go:35-44 | GET, a miss for `redis.Nil`, else unmarshal into the target; the result is that of GetEntitySpec |
| Redis.RedisService.DeleteEntity | internal/services/redis_service.go:47-57 | DEL of `type:id`; only the client's error is reported; the result and entries are those of DeleteEntitySpec |
| Store.UserWithId | internal/repositories/user_repository.go:29-38 | the row with the id if one exists, and none exactly when no row has it |
| Store.UserWithEmail | internal/repositories/user_repository.go:40-49 | the first row, in primary-key order, with the email; none exactly when no row has it |
| Store.InsertPost | internal/repositories/post_repository.go:30-32 | Create gives the entity the next id, which is positive and not yet in the table, fills zero timestamps with now and keeps every other field as given; it stores that post as a row without its embedded author and advances the counter; the store stays valid; on error nothing changes |
| Store.SavePost | internal/repositories/post_repository.go:51-53 | Save puts the post's columns under its id, inserting the row when it is absent, raises the counter past that id when needed and changes nothing else; the store stays valid for a positive id; on error nothing changes |
| Store.RemovePost | internal/repositories/post_repository.go:55-57 | Delete removes exactly that row (a missing row is no error) and keeps the store valid; on error nothing changes |
| Store.InsertUser | internal/repositories/user_repository.go:25-27 | Create appends the user as given with the next id, positive and above every earlier user's, and zero timestamps filled with now; the counter advances; the store stays valid; on error nothing changes |
| Store.InsertComment | internal/repositories/comment_repository.go:25-27 | Create appends the comment as given with the next id, positive and above every earlier comment's, and a zero creation time filled with now; the counter advances; the store stays valid; on error nothing changes |
| Store.Database.FindPostByID | internal/repositories/post_repository.go:34-43 | the row with its author preloaded (nil when the author row is missing), none when absent, or the store's error |
| Store.Database.FindUserByID | internal/repositories/user_repository.go:29-38 | the user with the id, none when absent, or the store's error |
| Store.Database.FindUserByEmail | internal/repositories/user_repository.go:40-49 | the first user with the email, none when absent, or the store's error |
| Store.Database.CreatePost | internal/repositories/post_repository.go:30-32 | the new table and counter are those of InsertPost |
| Store.Database.UpdatePost | internal/repositories/post_repository.go:51-53 | the new table is that of SavePost |
| Store.Database.DeletePost | internal/repositories/post_repository.go:55-57 | the new table is that of RemovePost |
| Store.Database.CreateUser | internal/repositories/user_repository.go:25-27 | the new table and counter are those of InsertUser |
| Store.Database.CreateComment | internal/repositories/comment_repository.go:25-27 | the new table and counter are those of InsertComment |
| Users.ValidEmailHasOneAt | internal/services/user_service_impl.go:164-171 | an email the pattern accepts holds exactly one '@' |
| Users.ValidEmailAccepts | internal/services/user_service_impl.go:165 | "ann@mail.io" matches the pattern |
| Users.ValidEmailRejects | internal/services/user_service_impl.go:165 | a one-letter top-level part and an empty local part do not match |
| Users.FindAuthorHitIgnoresStore | internal/services/user_service_impl.go:116-123 | a cached user with a non-zero id is returned whatever the store holds, and nothing is written |
| Users.FindAuthorFallsBackToStore | internal/services/user_service_impl.go:125-134 | otherwise a store error is "author not found" with the cache untouched, and a store answer (the user, or nil) is returned whether or not caching it succeeded |
| Users.FindAuthorResultFits | internal/services/user_service_impl.go:116-135 | over a coherent cache and a valid store, an author returned has the id asked for, which is non-zero; the cache stays coherent |
| Users.FindAuthorWarmsCache | internal/services/user_service_impl.go:131-132 | an author read from the store and cached is answered from the cache the next time, whatever the store holds then |
| Users.LookupAnsweredByCache | internal/services/user_service_impl.go:139-145 | a cache read error ends the lookup with its error; a cached user with an email is returned whatever the store holds; neither writes |
| Users.LookupKeepsCoherent | internal/services/user_service_impl.go:138-161 | the email lookup keeps the cache layout, and a user returned with an error is the store's user with that email |
| Users.LookupUserOnlyFromCache | internal/services/user_service_impl.go:145-160 | as written, a user is returned without an error only when the cache held it |
| Users.LookupWritesOnlyEmailKey | internal/services/user_service_impl.go:151-157 | the lookup writes no key other than user:{email} |
| Users.LookupMissesStoredUser | internal/services/user_service_impl.go:151-158 | as written, on a cold cache a stored user is cached under user:{email} for 24 hours, and then no user and no error are returned |
| Users.LookupReportsFailedWrite | internal/services/user_service_impl.go:151-156 | on a cold cache whose write fails, the lookup returns the stored user together with the cache's error |
| Users.FindUserByEmailIntended | internal/services/user_service_impl.go:138-161 | the corrected lookup writes and fails as the lookup as written does, returns the same user wherever that one returns a user, and answers neither a user nor an error only when no stored user has the email |
| Users.RegisterIntended | internal/services/user_service_impl.go:30-76 | Register on the corrected lookup writes the store only when no stored user has the email |
| Users.LoginIntended | internal/services/user_service_impl.go:85-113 | on a cold, working cache, Login on the corrected lookup lets a stored user in exactly when the password matches the hash and a token can be signed |
| Users.LoginRefusesStoredUser | internal/services/user_service_impl.go:92-98 | as written, a stored user with the right password is refused at login when the cache does not hold them |
| Users.RegisterDuplicatesStoredEmail | internal/services/user_service_impl.go:43-61 | as written, an email already stored but not cached is registered a second time |
| Users.IntendedLookupFindsStoredUser | internal/services/user_service_impl.go:145-158 | the corrected lookup returns the stored user on a cold cache, with no error when caching works |
| Users.IntendedLookupServesLoginAndRegister | internal/services/user_service_impl.go:43-49 | with the corrected lookup the right password logs a stored user in, and registering a stored email is refused with the store unchanged |
| Users.RegisterValidatesFirst | internal/services/user_service_impl.go:30-40 | a malformed email or a failed hash is refused before the cache or the store is touched |
| Users.RegisterRefusesKnownEmail | internal/services/user_service_impl.go:42-49 | "email already in use" exactly when the lookup yields a user without error; the store is written only when it yields neither |
| Users.RegisterCreatesUser | internal/services/user_service_impl.go:51-75 | success appends one user with the request's name, email and hash and a fresh id, caches it under user:{email} and answers its id with a token signed for it; a failed cache write is fatal although the row stays; the store stays valid |
| Users.RegisterInsertFailureWritesNothing | internal/services/user_service_impl.go:58-65 | a failed insert ("failed to create user") leaves the store unchanged and the cache as the lookup left it; user:{email} is written only after the row exists |
| Users.RegisterKeepsCoherent | internal/services/user_service_impl.go:30-76 | Register keeps the cache layout |
| Users.LoginKeepsCoherent | internal/services/user_service_impl.go:85-113 | Login keeps the cache layout |
| Users.LoginChecksCredentials | internal/services/user_service_impl.go:91-112 | "invalid credentials" exactly when the lookup yields no user or a hash the password does not match; success answers that user with a token signed for it; login writes no more than the lookup |
| Users.LoginValidatesFirst | internal/services/user_service_impl.go:86-89 | a malformed email is refused before anything is read |
| Users.UserService.FindAuthorByID | internal/services/user_service_impl.go:116-135 | the result and the new cache are those of FindAuthorByIdSpec |
| Users.UserService.FindUserByEmail | internal/services/user_service_impl.go:138-161 | the (user, error) pair and the new cache are those of FindUserByEmailSpec (as written) |
| Users.UserService.Register | internal/services/user_service_impl.go:30-76 | the result, cache and users table are those of RegisterSpec |
| Users.UserService.Login | internal/services/user_service_impl.go:85-113 | the result and the new cache are those of LoginSpec |
| Posts.ValidatePostRequest | internal/services/post_service_impl.go:148-153 | no error exactly when title and content are both non-empty; otherwise "title and content are required" |
| Posts.Respond | internal/services/post_service_impl.go:68 | the response exists exactly when the post has an embedded author; a nil author is the nil dereference |
| Posts.NewPostEntity | internal/services/post_service_impl.go:156-165 | the new post has no id yet, the request's title, content and author id, the author embedded, and both times now |
| Posts.Edited | internal/services/post_service_impl.go:100-102 | only the title, content and update time change, to the request's and now |
| Posts.PostResponses | internal/services/post_service_impl.go:85-88 | one response per row in order, each that row's response, exactly when every row has an author; otherwise the nil dereference |
| Posts.PostService.CreatePost | internal/services/post_service_impl.go:20-45 | the result, cache and posts table are those of CreatePostSpec |
| Posts.PostService.GetPostByID | internal/services/post_service_impl.go:48-69 | the result and the new cache are those of GetPostByIdSpec |
| Posts.PostService.GetAll | internal/services/post_service_impl.go:72-91 | page and page size are clamped in place, and the result is that of GetAllSpec: one response per listed row, in order |
| Posts.PostService.Update | internal/services/post_service_impl.go:94-111 | the result, cache and posts table are those of UpdateSpec |
| Posts.PostService.Delete | internal/services/post_service_impl.go:114-131 | the result, cache and posts table are those of DeleteSpec |
| Posts.PostService.Count | internal/services/post_service_impl.go:134-136 | the repository's count is returned unchanged |
| Posts.PostService.CreatePostRow | internal/services/post_service_impl.go:168-173 | the store's insert, with its error reported as "failed to create post" |
| Posts.PostService.UpdatePostRow | internal/services/post_service_impl.go:176-181 | the store's save, with its error reported as "failed to create post" too |
| Posts.PostService.CachePost | internal/services/post_service_impl.go:184-190 | the post cached under post:{id} for 24 hours, a failure reported as "failed to store post in Redis" |
| Posts.PostService.GetPostFromCache | internal/services/post_service_impl.go:193-212 | the result and new cache are those of PostFromCacheSpec: read error fatal, id 0 is none, nil author panics, zero author re-resolved |
| Posts.PostService.GetPostFromDatabase | internal/services/post_service_impl.go:215-221 | the store's answer, its error reported as "failed to find post in database" |
| Posts.PostService.GetPostWithOwnershipCheck | internal/services/post_service_impl.go:224-248 | the result and new cache are those of PostWithOwnershipSpec |
| PostLemmas.FindAuthorKeepsPostKeys | internal/services/user_service_impl.go:116-135 | author resolution changes no post key |
| PostLemmas.FoundAuthorIsNonZero | internal/services/post_service_impl.go:25-32 | over a valid store an author found is never the zero user |
| PostLemmas.FindAuthorRepeatable | internal/services/user_service_impl.go:116-135 | asking again on the cache the first lookup left gives the same answer |
| PostLemmas.PostFromCacheKeepsPostKeys | internal/services/post_service_impl.go:193-212 | reading a post from the cache changes no post key, so a completed author is not written back |
| PostLemmas.ResolvedPostFits | internal/services/post_service_impl.go:224-240 | over a coherent cache and a valid store the resolved post is the post asked for, with its own author when one is present; the cache stays coherent |
| PostLemmas.CreatePostValidatesFirst | internal/services/post_service_impl.go:20-23 | an empty title or content is refused with nothing read or written |
| PostLemmas.CreatePostNeedsAuthor | internal/services/post_service_impl.go:25-32 | an author lookup error or a nil author ends CreatePost with no row written and no post cached |
| PostLemmas.CreatePostStoresBeforeCaching | internal/services/post_service_impl.go:36-42 | the post key is written only after a successful insert; a failed insert changes neither store nor post keys; a failed cache write is fatal although the row stays |
| PostLemmas.CachePostKeepsOtherPostKeys | internal/services/post_service_impl.go:184-190 | caching a post keeps every other post key |
| PostLemmas.CreatePostResponse | internal/services/post_service_impl.go:34-44 | success stores the request's title, content and author under a fresh id, stamped now; it caches under post:{id}, expiring 24 hours from now, exactly that post with the author FindAuthorByID found embedded, and answers it with that author's response; the store stays valid and the cache coherent |
| PostLemmas.CreateThenGet | internal/services/post_service_impl.go:20-69 | GetPostByID right after CreatePost answers the created post from the cache without writing |
| PostLemmas.GetPostHitIgnoresStore | internal/services/post_service_impl.go:48-54 | a cached post with a non-zero author is answered whatever the store holds, and nothing is written |
| PostLemmas.GetPostHydratesWithoutWriteBack | internal/services/post_service_impl.go:200-208 | a zero-valued cached author is replaced by FindAuthorByID's answer (its error is "failed to load author details", a nil answer panics), and post:{id} is not rewritten |
| PostLemmas.GetPostNilAuthorPanics | internal/services/post_service_impl.go:200-201 | a cached post whose embedded author is nil makes GetPostByID panic |
| PostLemmas.GetPostCacheErrorIsFatal | internal/services/post_service_impl.go:196-199 | a cache read error fails the call even when the store holds the post |
| PostLemmas.GetPostMissReadsStore | internal/services/post_service_impl.go:54-66 | on a miss or a cached `null`, a store error or a missing row is reported with the cache untouched, and a row is cached under post:{id} and returned; a failed write is fatal |
| PostLemmas.GetPostResultFits | internal/services/post_service_impl.go:48-69 | the post returned is the post asked for, with its own non-zero author; the cache stays coherent |
| PostLemmas.GetPostIdempotent | internal/services/post_service_impl.go:48-69 | over an unchanged store a second GetPostByID answers as the first did |
| PostLemmas.UpdateChecksOwnership | internal/services/post_service_impl.go:94-98 | "no permission" exactly when the resolved post has another author; then neither the store nor any post key changes |
| PostLemmas.DeleteChecksOwnership | internal/services/post_service_impl.go:114-118 | "no permission" exactly when the resolved post has another author; then neither the store nor any post key changes |
| PostLemmas.UpdateEditsTitleAndContent | internal/services/post_service_impl.go:100-110 | the row is rewritten with the new title, content and update time, id, authorId and creation time kept, then cached; a failed save writes nothing and a failed cache write is fatal although the row changed |
| PostLemmas.DeleteThenGet | internal/services/post_service_impl.go:120-130 | after a successful delete neither the row nor post:{id} remains, and GetPostByID reports "post not found" |
| PostLemmas.DeleteFailuresLeaveState | internal/services/post_service_impl.go:120-130 | a failed row delete changes neither the store nor any post key; a failed cache delete leaves post:{id} as it was although the row is gone |
| PostLemmas.DeleteKeepsLayout | internal/services/post_service_impl.go:114-131 | Delete keeps a valid store and the cache layout |
| PostLemmas.GetAllClampsAndLists | internal/services/post_service_impl.go:72-91 | the listing is asked with page and size at least 1 (valid ones kept) and answers one response per row, in order, with the row's id and author |
| Comments.CommentResponses | internal/services/comment_service_impl.go:55-58 | one response per comment, in order, each that comment's response |
| Comments.CreateNeedsPost | internal/services/comment_service_impl.go:19-22 | an error from GetPostByID ends Create with no comment written |
| Comments.CreateAppendsComment | internal/services/comment_service_impl.go:27-37 | success appends one comment with the post id, author name and content asked for, created now, under an id above every earlier comment's, and answers it; a failing insert after the post is found is the store's error; any error leaves the store unchanged; the posts table is never touched; the cache is only what GetPostByID left |
| Comments.CreateTrustsCachedPost | internal/services/comment_service_impl.go:19-25 | a post still cached after its row is gone passes the post check, and the model inserts the comment; the foreign key in the schema, which is not modelled, may make the real store refuse it |
| Comments.CreateNeverReportsMissingPostId | internal/services/comment_service_impl.go:23-25 | the "postID does not exist" branch is dead |
| Comments.CreateKeepsCoherent | internal/services/comment_service_impl.go:17-38 | commenting keeps the cache layout and a valid store |
| Comments.CommentResponsesAppend | internal/services/comment_service_impl.go:55-58 | one more comment adds its response at the end |
| Comments.CommentService.Create | internal/services/comment_service_impl.go:17-38 | the result, cache and comments table are those of CreateSpec |
| Comments.CommentService.GetAllByPostID | internal/services/comment_service_impl.go:41-60 | page and page size are clamped in place, and the result is one response per listed comment, in order |
| Comments.CommentService.CountAllByPostID | internal/services/comment_service_impl.go:63-65 | the repository's count is returned unchanged |
| Consistency.SlotsFromUserWrite | internal/services/redis_service.go:26-32 | a write under a user key leaves every post key reading as before |
| Consistency.ShadowsAfterPostWrite | internal/services/post_service_impl.go:184-190 | caching a post whose id was issued and whose author is its row's keeps the cache consistent with the store |
| Consistency.ShadowsAfterSave | internal/repositories/post_repository.go:51-53 | saving a post whose author is the one cached under its key keeps the cache consistent with the store |
| Consistency.ResolvedMatchesCache | internal/services/post_service_impl.go:193-212 | a post resolved while post:{id} holds a post has that cached post's author |
| Consistency.FindAuthorKeepsShadows | internal/services/user_service_impl.go:116-135 | author resolution keeps the cache consistent with the store |
| Consistency.GetPostKeepsShadows | internal/services/post_service_impl.go:48-69 | GetPostByID, which caches the store's row on a miss, keeps the cache consistent with the store |
| Consistency.CreatePostKeepsShadows | internal/services/post_service_impl.go:20-45 | CreatePost keeps the cache consistent with the store |
| Consistency.UpdateKeepsShadows | internal/services/post_service_impl.go:94-111 | Update keeps the cache consistent with the store, even when the cache write fails after the save |
| Consistency.DeleteKeepsShadows | internal/services/post_service_impl.go:114-131 | Delete keeps the cache consistent with the store, even when the cache delete fails |
| Consistency.CommentKeepsShadows | internal/services/comment_service_impl.go:17-38 | commenting keeps the cache consistent with the store |
| Consistency.RegisterKeepsShadows | internal/services/user_service_impl.go:30-76 | Register keeps the cache consistent with the store |
| Consistency.LoginKeepsShadows | internal/services/user_service_impl.go:85-113 | Login keeps the cache consistent with the store |
| Consistency.AdvanceKeepsShadows | internal/services/post_service_impl.go:186 | expiry keeps the cache consistent with the store |
| Consistency.OwnershipMatchesRow | internal/services/post_service_impl.go:224-248 | over a consistent cache the ownership check passes only for the author the post's row names, wherever the post was read |
| Consistency.UpdateOnlyByOwner | internal/services/post_service_impl.go:94-111 | an update that changes the store changes an existing row only when the acting user is its author |
| Consistency.DeleteOnlyByOwner | internal/services/post_service_impl.go:114-131 | a delete that changes the store removes an existing row whose author is the acting user |

## Left out

- The listing and counting queries (search by `LIKE`, `ORDER BY`, `OFFSET`/`LIMIT`) are function parameters. The model shows what the services do around them, not the SQL.
- The bcrypt hash and comparison, the JWT signer and `config.LoadConfig` are parameters. The hash is an optional string and the comparison a predicate. The signer maps an email and an id to an optional token.
- `time.Now` is a parameter, and times are opaque values. RFC 3339 formatting in the response mappers is not modelled; responses carry the times themselves.
- Redis expiry uses a logical clock in seconds. Eviction under memory pressure is not modelled.
- Concurrency is not modelled. Requests run one at a time, so races between two requests on one cache key are not captured.
- JSON is abstract: an entity is stored as itself or as bytes that do not decode.
- Redis.Unmarshal: JSON of another entity kind is a decode error. Go's decoder would fill the matching fields instead; the services never store one kind under another's key.
- The `Comments` and `Posts` association slices of Post and User are not modelled. The services never set them.
- The database schema's constraints are not modelled. These are the unique index on the users' email (internal/entities/user.go:12) and the foreign key from comments to posts with cascading delete (internal/entities/comment.go:16). The modelled store accepts a second user with an email already stored and a comment on a missing post; the real store may refuse both.
- gorm's association upsert is not modelled. Creating or saving a post with its embedded author does not write the author row.
- Store.InsertPost, Store.InsertUser, Store.InsertComment: an id set on the entity before Create is ignored. The services never set one.
- Go's in-place update of the caller's struct (`existingPost`, the decode target) is modelled as values passed and returned. Aliasing between the cached copy and the returned pointer is not captured.
- A request sees one fixed fault setting for the cache and the store.
- Store.UserWithEmail: emails are compared exactly. MySQL's default collation compares them case-insensitively, so the real store can find a row whose email differs in case, which the lookup then caches under that row's email. Not modelled.
- A nil slice and an empty slice are the same empty sequence, so the JSON distinction between `null` and `[]` for an empty listing is not modelled.
- The nil-author panic is the error `NilDereference` rather than a crash of the handler.
- The controllers, routes and middleware are not part of this model. The acting user id is the `userId` parameter of Delete and the request's `authorId` for Create and Update.
- Posts.PostService.Count, Comments.CommentService.CountAllByPostID: only the delegation is modelled. The count itself is a parameter.

## Findings

| source | as written | input that shows it | evidently intended | confidence | as-written member | corrected member |
|---|---|---|---|---|---|---|
| internal/services/user_service_impl.go:151-158 | after a store hit is cached successfully, findUserByEmail returns `nil, nil` | a registered user whose email is not in the cache (cold cache or expired entry) logs in with the right password; Register is then called with the same email | return the user found in the store | not executed | Users.LookupMissesStoredUser, Users.LoginRefusesStoredUser, Users.RegisterDuplicatesStoredEmail | Users.FindUserByEmailIntended, Users.IntendedLookupFindsStoredUser, Users.IntendedLookupServesLoginAndRegister |

In the first case login is refused with "invalid credentials". In the second the email passes the service's uniqueness check, and the model inserts a second row. Whether the real store then refuses it depends on the unique index on the email column, which is not modelled; if it does, the user sees "failed to create user" instead of "email already in use". The service classes keep the behaviour as written; the corrected lookup and the Register and Login built on it are `Users.FindUserByEmailIntended`, `Users.RegisterIntended` and `Users.LoginIntended`.
