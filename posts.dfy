/** PostServiceImpl: creating, reading, listing, updating and deleting posts, with the cache
    consulted before the store on reads and written after the store on writes. */
module Posts {
  import opened Common
  import opened Dto
  import opened Entities
  import opened Keys
  import opened Redis
  import opened Store
  import opened Users

  // ---------------------------------------------------------------------------
  // The operations on snapshots
  // ---------------------------------------------------------------------------

  /** validatePostRequest: title and content must both be non-empty. */
  function ValidatePostRequest(req: PostRequest): (r: Option<Error>)
    ensures r.None? <==> req.title != "" && req.content != ""
    ensures r.Some? ==> r.value == TitleAndContentRequired
  {
    if req.title == "" || req.content == "" then Some(TitleAndContentRequired) else None
  }

  /** newPostEntity: a post without an id yet, stamped with the current time, embedding the
      author. */
  function NewPostEntity(req: PostRequest, author: User, now: Time): (p: Post)
    ensures p.id == 0 && p.title == req.title && p.content == req.content
    ensures p.authorId == req.authorId && p.author == Some(author)
    ensures p.createdAt == now && p.updatedAt == now
  {
    Post(0, req.title, req.content, req.authorId, now, now, Some(author))
  }

  /** `p.ToPostResponse(p.Author.ToAuthorResponse())`, which dereferences the embedded
      author: a nil author panics. */
  function Respond(p: Post): (r: Result<PostResponse>)
    ensures r.Ok? <==> p.author.Some?
    ensures r.Err? ==> r.error == NilDereference
  {
    match p.author
    case None => Err(NilDereference)
    case Some(a) => Ok(ToPostResponse(p, ToAuthorResponse(a)))
  }

  /** createPost: the store's error becomes "failed to create post". */
  function CreatePostRowSpec(d: DbState, p: Post, now: Time): Stored<Result<Post>>
  {
    var s := InsertPost(d, p, now);
    if s.out.Err? then Stored(Err(FailedToCreatePost), s.db) else s
  }

  /** updatePost: the store's error is also reported as "failed to create post". */
  function UpdatePostRowSpec(d: DbState, p: Post): Stored<Option<Error>>
  {
    var s := SavePost(d, p);
    if s.out.Some? then Stored(Some(FailedToCreatePost), s.db) else s
  }

  /** cachePost: store the post, author included, under post:{id} for 24 hours. */
  function CachePostSpec(c: CacheState, p: Post): Cached<Option<Error>>
  {
    var s := SetEntitySpec(c, "post", UintToString(p.id), PostValue(p), EntryTtl);
    if s.out.Some? then Cached(Some(FailedToStorePostInRedis), s.cache) else s
  }

  /** getPostFromCache: a read error is fatal; a post with id 0 (a miss, or a stored `null`)
      is none; a post whose embedded author is nil panics on the author check; a zero-valued
      author is replaced by FindAuthorByID's answer, which is not written back to post:{id}. */
  function PostFromCacheSpec(c: CacheState, d: DbState, id: nat): Cached<Result<Option<Post>>>
  {
    var cached := GetEntitySpec(c, "post", UintToString(id), PostValue(ZeroPost));
    if cached.Err? then Cached(Err(FailedToRetrievePostFromRedis), c)
    else
      var p := cached.value.post;
      if p.id == 0 then Cached(Ok(None), c)
      else if p.author.None? then Cached(Err(NilDereference), c)
      else if p.author.value.id != 0 then Cached(Ok(Some(p)), c)
      else
        var found := FindAuthorByIdSpec(c, d, p.authorId);
        if found.out.Err? then Cached(Err(FailedToLoadAuthorDetails), found.cache)
        else Cached(Ok(Some(p.(author := found.out.value))), found.cache)
  }

  /** getPostFromDatabase: the store's error becomes "failed to find post in database". */
  function PostFromDatabaseSpec(d: DbState, id: nat): Result<Option<Post>>
  {
    match SelectPost(d, id)
    case Err(_) => Err(FailedToFindPostInDatabase)
    case Ok(p) => Ok(p)
  }

  /** GetPostByID: the cached post if any; otherwise the store's post, which is then cached
      (a failed write is fatal); otherwise "post not found". */
  function GetPostByIdSpec(c: CacheState, d: DbState, id: nat): Cached<Result<PostResponse>>
  {
    var fromCache := PostFromCacheSpec(c, d, id);
    if fromCache.out.Err? then Cached(Err(fromCache.out.error), fromCache.cache)
    else if fromCache.out.value.Some? then Cached(Respond(fromCache.out.value.value), fromCache.cache)
    else
      match PostFromDatabaseSpec(d, id)
      case Err(e) => Cached(Err(e), fromCache.cache)
      case Ok(None) => Cached(Err(PostNotFound), fromCache.cache)
      case Ok(Some(q)) =>
        var stored := CachePostSpec(fromCache.cache, q);
        if stored.out.Some? then Cached(Err(stored.out.value), stored.cache)
        else Cached(Respond(q), stored.cache)
  }

  /** The post getPostWithOwnershipCheck settles on before the ownership test: the cached
      post, else the store's; unlike GetPostByID it does not cache the store's post. */
  function ResolvePostSpec(c: CacheState, d: DbState, id: nat): Cached<Result<Post>>
  {
    var fromCache := PostFromCacheSpec(c, d, id);
    if fromCache.out.Err? then Cached(Err(fromCache.out.error), fromCache.cache)
    else if fromCache.out.value.Some? then Cached(Ok(fromCache.out.value.value), fromCache.cache)
    else
      match PostFromDatabaseSpec(d, id)
      case Err(e) => Cached(Err(e), fromCache.cache)
      case Ok(None) => Cached(Err(PostNotFound), fromCache.cache)
      case Ok(Some(q)) => Cached(Ok(q), fromCache.cache)
  }

  /** getPostWithOwnershipCheck: the resolved post, refused unless its author is the user. */
  function PostWithOwnershipSpec(c: CacheState, d: DbState, id: nat, userId: nat): Cached<Result<Post>>
  {
    var resolved := ResolvePostSpec(c, d, id);
    if resolved.out.Ok? && resolved.out.value.authorId != userId then Cached(Err(NotPostOwner), resolved.cache)
    else resolved
  }

  /** CreatePost: validate, find the author (a missing one is "author not found"), insert the
      row, then cache the post; a failed cache write is fatal although the row stays. */
  function CreatePostSpec(c: CacheState, d: DbState, req: PostRequest, now: Time): Outcome<Result<PostResponse>>
  {
    if ValidatePostRequest(req).Some? then Outcome(Err(ValidatePostRequest(req).value), c, d)
    else
      var found := FindAuthorByIdSpec(c, d, req.authorId);
      if found.out.Err? then Outcome(Err(found.out.error), found.cache, d)
      else if found.out.value.None? then Outcome(Err(AuthorNotFound), found.cache, d)
      else
        var author := found.out.value.value;
        var created := CreatePostRowSpec(d, NewPostEntity(req, author, now), now);
        if created.out.Err? then Outcome(Err(created.out.error), found.cache, created.db)
        else
          var p := created.out.value;
          var stored := CachePostSpec(found.cache, p);
          if stored.out.Some? then Outcome(Err(stored.out.value), stored.cache, created.db)
          else Outcome(Ok(ToPostResponse(p, ToAuthorResponse(author))), stored.cache, created.db)
  }

  /** The post an update writes: new title and content, updated now, everything else kept. */
  function Edited(p: Post, req: PostRequest, now: Time): (e: Post)
    ensures e.title == req.title && e.content == req.content && e.updatedAt == now
    ensures e.(title := p.title, content := p.content, updatedAt := p.updatedAt) == p
  {
    p.(title := req.title, content := req.content, updatedAt := now)
  }

  /** Update: the owned post is edited, saved (every column), then cached. The title and
      content are not validated. */
  function UpdateSpec(c: CacheState, d: DbState, id: nat, req: PostRequest, now: Time): Outcome<Result<PostResponse>>
  {
    var found := PostWithOwnershipSpec(c, d, id, req.authorId);
    if found.out.Err? then Outcome(Err(found.out.error), found.cache, d)
    else
      var p := Edited(found.out.value, req, now);
      var saved := UpdatePostRowSpec(d, p);
      if saved.out.Some? then Outcome(Err(saved.out.value), found.cache, saved.db)
      else
        var stored := CachePostSpec(found.cache, p);
        if stored.out.Some? then Outcome(Err(stored.out.value), stored.cache, saved.db)
        else Outcome(Respond(p), stored.cache, saved.db)
  }

  /** Delete: the owned post's row is deleted, then its cache key; the store's and the
      cache's errors are passed on as they are. */
  function DeleteSpec(c: CacheState, d: DbState, id: nat, userId: nat): Outcome<Option<Error>>
  {
    var found := PostWithOwnershipSpec(c, d, id, userId);
    if found.out.Err? then Outcome(Some(found.out.error), found.cache, d)
    else
      var removed := RemovePost(d, found.out.value.id);
      if removed.out.Some? then Outcome(removed.out, found.cache, removed.db)
      else
        var dropped := DeleteEntitySpec(found.cache, "post", UintToString(found.out.value.id));
        Outcome(dropped.out, dropped.cache, removed.db)
  }

  /** The responses GetAll builds, one per listed post in order; the first post without an
      author panics. */
  function PostResponses(rows: seq<Post>): (r: Result<seq<PostResponse>>)
    ensures r.Ok? <==> forall i :: 0 <= i < |rows| ==> rows[i].author.Some?
    ensures r.Ok? ==> |r.value| == |rows|
    ensures r.Ok? ==> forall i :: 0 <= i < |rows| ==> Respond(rows[i]) == Ok(r.value[i])
    ensures r.Err? ==> r.error == NilDereference
  {
    if |rows| == 0 then Ok([])
    else if rows[0].author.None? then Err(NilDereference)
    else
      match PostResponses(rows[1..])
      case Err(e) => Err(e)
      case Ok(rest) =>
        assert forall i :: 1 <= i < |rows| ==> rows[i] == rows[1..][i - 1];
        Ok([ToPostResponse(rows[0], ToAuthorResponse(rows[0].author.value))] + rest)
  }

  /** GetAll: the page and page size are clamped, then the repository's page is listed;
      its error is passed on. `findAll` stands for the filtered, sorted, paged query. */
  function GetAllSpec(q: Query, findAll: Query -> Result<seq<Post>>): Result<seq<PostResponse>>
  {
    var clamped := q.(page := ClampPage(q.page), pageSize := ClampPageSize(q.pageSize));
    match findAll(clamped)
    case Err(e) => Err(e)
    case Ok(rows) => PostResponses(rows)
  }

  // ---------------------------------------------------------------------------
  // The service
  // ---------------------------------------------------------------------------

  class PostService {
    const db: Database
    const users: UserService
    const redis: RedisService

    /** The user service shares this service's store and cache. */
    predicate Valid()
      reads this, users
    {
      users.db == db && users.redis == redis
    }

    constructor (db: Database, users: UserService, redis: RedisService)
      requires users.db == db && users.redis == redis
      ensures this.db == db && this.users == users && this.redis == redis
      ensures Valid()
    {
      this.db := db;
      this.users := users;
      this.redis := redis;
    }

    method CreatePost(req: PostRequest, now: Time) returns (r: Result<PostResponse>)
      requires Valid()
      modifies redis.client`entries, db`posts, db`nextPostId
      ensures Outcome(r, redis.client.State(), db.State()) == CreatePostSpec(old(redis.client.State()), old(db.State()), req, now)
    {
      var invalid := ValidatePostRequest(req);
      if invalid.Some? {
        return Err(invalid.value);
      }
      var author := users.FindAuthorByID(req.authorId);
      if author.Err? {
        return Err(author.error);
      }
      if author.value.None? {
        return Err(AuthorNotFound);
      }
      var created := CreatePostRow(NewPostEntity(req, author.value.value, now), now);
      if created.Err? {
        return Err(created.error);
      }
      var p := created.value;
      var cacheErr := CachePost(p);
      if cacheErr.Some? {
        return Err(cacheErr.value);
      }
      return Ok(ToPostResponse(p, ToAuthorResponse(author.value.value)));
    }

    method GetPostByID(id: nat) returns (r: Result<PostResponse>)
      requires Valid()
      modifies redis.client`entries
      ensures Cached(r, redis.client.State()) == GetPostByIdSpec(old(redis.client.State()), db.State(), id)
    {
      var post := GetPostFromCache(id);
      if post.Err? {
        return Err(post.error);
      }
      if post.value.None? {
        post := GetPostFromDatabase(id);
        if post.Err? {
          return Err(post.error);
        }
        if post.value.None? {
          return Err(PostNotFound);
        }
        var cacheErr := CachePost(post.value.value);
        if cacheErr.Some? {
          return Err(cacheErr.value);
        }
      }
      return Respond(post.value.value);
    }

    method GetAll(params: QueryParams, findAll: Query -> Result<seq<Post>>) returns (r: Result<seq<PostResponse>>)
      modifies params`page, params`pageSize
      ensures params.Snapshot() == old(params.Snapshot()).(page := ClampPage(old(params.page)), pageSize := ClampPageSize(old(params.pageSize)))
      ensures r == GetAllSpec(old(params.Snapshot()), findAll)
    {
      if params.page < 1 {
        params.page := 1;
      }
      if params.pageSize < 1 {
        params.pageSize := DefaultPageSize;
      }
      var listed := findAll(params.Snapshot());
      if listed.Err? {
        return Err(listed.error);
      }
      var rows := listed.value;
      var responses: seq<PostResponse> := [];
      var i := 0;
      while i < |rows|
        invariant 0 <= i <= |rows|
        invariant |responses| == i
        invariant forall j :: 0 <= j < i ==> Respond(rows[j]) == Ok(responses[j])
      {
        if rows[i].author.None? {
          return Err(NilDereference);
        }
        responses := responses + [ToPostResponse(rows[i], ToAuthorResponse(rows[i].author.value))];
        i := i + 1;
      }
      assert forall j :: 0 <= j < |rows| ==> rows[j].author.Some?;
      assert PostResponses(rows).value == responses;
      return Ok(responses);
    }

    method Update(id: nat, req: PostRequest, now: Time) returns (r: Result<PostResponse>)
      requires Valid()
      modifies redis.client`entries, db`posts, db`nextPostId
      ensures Outcome(r, redis.client.State(), db.State()) == UpdateSpec(old(redis.client.State()), old(db.State()), id, req, now)
    {
      var existing := GetPostWithOwnershipCheck(id, req.authorId);
      if existing.Err? {
        return Err(existing.error);
      }
      var p := Edited(existing.value, req, now);
      var saveErr := UpdatePostRow(p);
      if saveErr.Some? {
        return Err(saveErr.value);
      }
      var cacheErr := CachePost(p);
      if cacheErr.Some? {
        return Err(cacheErr.value);
      }
      return Respond(p);
    }

    method Delete(id: nat, userId: nat) returns (err: Option<Error>)
      requires Valid()
      modifies redis.client`entries, db`posts
      ensures Outcome(err, redis.client.State(), db.State()) == DeleteSpec(old(redis.client.State()), old(db.State()), id, userId)
    {
      var existing := GetPostWithOwnershipCheck(id, userId);
      if existing.Err? {
        return Some(existing.error);
      }
      var dbErr := db.DeletePost(existing.value.id);
      if dbErr.Some? {
        return dbErr;
      }
      err := redis.DeleteEntity("post", UintToString(existing.value.id));
    }

    method Count(params: QueryParams, count: Query -> Result<int>) returns (r: Result<int>)
      ensures r == count(params.Snapshot())
    {
      r := count(params.Snapshot());
    }

    method CreatePostRow(p: Post, now: Time) returns (r: Result<Post>)
      modifies db`posts, db`nextPostId
      ensures Stored(r, db.State()) == CreatePostRowSpec(old(db.State()), p, now)
    {
      r := db.CreatePost(p, now);
      if r.Err? {
        r := Err(FailedToCreatePost);
      }
    }

    method UpdatePostRow(p: Post) returns (err: Option<Error>)
      modifies db`posts, db`nextPostId
      ensures Stored(err, db.State()) == UpdatePostRowSpec(old(db.State()), p)
    {
      err := db.UpdatePost(p);
      if err.Some? {
        err := Some(FailedToCreatePost);
      }
    }

    method CachePost(p: Post) returns (err: Option<Error>)
      modifies redis.client`entries
      ensures Cached(err, redis.client.State()) == CachePostSpec(old(redis.client.State()), p)
    {
      err := redis.SetEntity("post", UintToString(p.id), PostValue(p), EntryTtl);
      if err.Some? {
        err := Some(FailedToStorePostInRedis);
      }
    }

    method GetPostFromCache(id: nat) returns (r: Result<Option<Post>>)
      requires Valid()
      modifies redis.client`entries
      ensures Cached(r, redis.client.State()) == PostFromCacheSpec(old(redis.client.State()), db.State(), id)
    {
      var cached := redis.GetEntity("post", UintToString(id), PostValue(ZeroPost));
      if cached.Err? {
        return Err(FailedToRetrievePostFromRedis);
      }
      var p := cached.value.post;
      if p.id != 0 {
        if p.author.None? {
          return Err(NilDereference);
        }
        if p.author.value.id == 0 {
          var author := users.FindAuthorByID(p.authorId);
          if author.Err? {
            return Err(FailedToLoadAuthorDetails);
          }
          p := p.(author := author.value);
        }
        return Ok(Some(p));
      }
      return Ok(None);
    }

    method GetPostFromDatabase(id: nat) returns (r: Result<Option<Post>>)
      ensures r == PostFromDatabaseSpec(db.State(), id)
    {
      r := db.FindPostByID(id);
      if r.Err? {
        r := Err(FailedToFindPostInDatabase);
      }
    }

    method GetPostWithOwnershipCheck(id: nat, userId: nat) returns (r: Result<Post>)
      requires Valid()
      modifies redis.client`entries
      ensures Cached(r, redis.client.State()) == PostWithOwnershipSpec(old(redis.client.State()), db.State(), id, userId)
    {
      var post := GetPostFromCache(id);
      if post.Err? {
        return Err(post.error);
      }
      if post.value.None? {
        post := GetPostFromDatabase(id);
        if post.Err? {
          return Err(post.error);
        }
        if post.value.None? {
          return Err(PostNotFound);
        }
      }
      if post.value.value.authorId != userId {
        return Err(NotPostOwner);
      }
      return Ok(post.value.value);
    }
  }
}
