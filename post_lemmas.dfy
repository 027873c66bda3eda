/** Properties of the post service: what is read from the cache and what from the store,
    the order of store and cache writes, ownership, and the cache layout. */
module PostLemmas {
  import opened Common
  import opened Dto
  import opened Entities
  import opened Keys
  import opened Redis
  import opened Store
  import opened Users
  import opened Posts

  /** Every post key holds the same entry in both snapshots. */
  ghost predicate PostKeysKept(c: CacheState, c': CacheState)
  {
    forall n: nat :: Kept(c, c', PostKey(n))
  }

  // ---------------------------------------------------------------------------
  // Author lookups as seen from the post service
  // ---------------------------------------------------------------------------

  /** FindAuthorByID writes at most a user key, so no post key changes. */
  lemma FindAuthorKeepsPostKeys(c: CacheState, d: DbState, authorId: nat)
    ensures PostKeysKept(c, FindAuthorByIdSpec(c, d, authorId).cache)
  {
    var c' := FindAuthorByIdSpec(c, d, authorId).cache;
    forall n: nat
      ensures Kept(c, c', PostKey(n))
    {
      PostKeyIsNotUserKey(n, UintToString(authorId));
      var found := SelectUser(d, authorId);
      if found.Ok? {
        KeptAfterSet(c, "user", UintToString(authorId), AsEntity(found.value), EntryTtl, PostKey(n));
      }
    }
  }

  /** Over a valid store an author found is never the zero user. */
  lemma FoundAuthorIsNonZero(c: CacheState, d: DbState, authorId: nat)
    requires Valid(d)
    ensures var r := FindAuthorByIdSpec(c, d, authorId).out;
      r.Ok? && r.value.Some? ==> r.value.value.id != 0
  {
    var r := FindAuthorByIdSpec(c, d, authorId).out;
    if r.Ok? && r.value.Some? {
      var g := GetEntitySpec(c, "user", UintToString(authorId), UserValue(ZeroUser));
      if !(g.Ok? && g.value.user.id != 0) {
        assert r.value.value in d.users;
      }
    }
  }

  /** Asking for the same author again, on the cache the first lookup left, gives the same
      answer: the write-back either stored what the store said or changed nothing. */
  lemma FindAuthorRepeatable(c: CacheState, d: DbState, authorId: nat)
    ensures var f := FindAuthorByIdSpec(c, d, authorId);
      FindAuthorByIdSpec(f.cache, d, authorId).out == f.out
  {
    var idStr := UintToString(authorId);
    var g := GetEntitySpec(c, "user", idStr, UserValue(ZeroUser));
    if !(g.Ok? && g.value.user.id != 0) {
      var found := SelectUser(d, authorId);
      if found.Ok? {
        var s := SetEntitySpec(c, "user", idStr, AsEntity(found.value), EntryTtl);
        if s.out.None? {
          if found.value.Some? && !c.getFails {
            GetAfterSet(c, "user", idStr, AsEntity(found.value), EntryTtl, UserValue(ZeroUser));
          } else if !c.getFails {
            MissLeavesTargetUnchanged(s.cache, "user", idStr, UserValue(ZeroUser));
          }
        }
      }
    }
  }

  // ---------------------------------------------------------------------------
  // Where a post comes from
  // ---------------------------------------------------------------------------

  /** Reading a post from the cache changes no post key. */
  lemma PostFromCacheKeepsPostKeys(c: CacheState, d: DbState, id: nat)
    ensures PostKeysKept(c, PostFromCacheSpec(c, d, id).cache)
  {
    var g := GetEntitySpec(c, "post", UintToString(id), PostValue(ZeroPost));
    if g.Ok? && g.value.post.id != 0 && g.value.post.author.Some? && g.value.post.author.value.id == 0 {
      FindAuthorKeepsPostKeys(c, d, g.value.post.authorId);
    }
  }

  /** What a valid store and a coherent cache resolve for id: post id itself, with a fitting
      author that, when present, is the post's own (non-zero) author. The cache stays
      coherent. */
  lemma ResolvedPostFits(c: CacheState, d: DbState, id: nat)
    requires Coherent(c) && Valid(d)
    ensures var r := ResolvePostSpec(c, d, id);
      && (r.out.Ok? ==>
            && r.out.value.id == id && id != 0 && AuthorFits(r.out.value)
            && (r.out.value.author.Some? && r.out.value.author.value.id != 0 ==>
                  r.out.value.author.value.id == r.out.value.authorId))
      && Coherent(r.cache)
    ensures var f := PostFromCacheSpec(c, d, id);
      && (f.out.Ok? && f.out.value.Some? ==>
            && f.out.value.value.id == id && id != 0 && AuthorFits(f.out.value.value)
            && (f.out.value.value.author.Some? ==> f.out.value.value.author.value.id == f.out.value.value.authorId != 0))
      && Coherent(f.cache)
    ensures var s := PostFromDatabaseSpec(d, id);
      s.Ok? && s.value.Some? ==>
        && s.value.value.id == id && id != 0 && AuthorFits(s.value.value)
        && (s.value.value.author.Some? ==> s.value.value.author.value.id == s.value.value.authorId != 0)
  {
    CachedPostFits(c, id);
    var g := GetEntitySpec(c, "post", UintToString(id), PostValue(ZeroPost));
    if g.Ok? && g.value.post.id != 0 && g.value.post.author.Some? && g.value.post.author.value.id == 0 {
      FindAuthorResultFits(c, d, g.value.post.authorId);
    }
    if id in d.posts {
      var a := UserWithId(d.users, d.posts[id].authorId);
      if a.Some? {
        assert a.value in d.users;
      }
    }
  }

  // ---------------------------------------------------------------------------
  // CreatePost
  // ---------------------------------------------------------------------------

  /** An empty title or content is refused before anything is read or written. */
  lemma CreatePostValidatesFirst(c: CacheState, d: DbState, req: PostRequest, now: Time)
    requires req.title == "" || req.content == ""
    ensures CreatePostSpec(c, d, req, now) == Outcome(Err(TitleAndContentRequired), c, d)
  {
  }

  /** Without an author (lookup error or no user) CreatePost fails with "author not found",
      leaves the store alone and writes no post key. */
  lemma CreatePostNeedsAuthor(c: CacheState, d: DbState, req: PostRequest, now: Time)
    requires req.title != "" && req.content != ""
    requires var f := FindAuthorByIdSpec(c, d, req.authorId).out; f.Err? || f.value.None?
    ensures var o := CreatePostSpec(c, d, req, now);
      o.out == Err(AuthorNotFound) && o.db == d && PostKeysKept(c, o.cache)
  {
    FindAuthorKeepsPostKeys(c, d, req.authorId);
  }

  /** The store is written before the cache: a post key changes only for a row the store has
      just gained; a failed insert caches nothing; a failed cache write is reported although
      the row stays. */
  lemma CreatePostStoresBeforeCaching(c: CacheState, d: DbState, req: PostRequest, now: Time)
    requires Valid(d)
    ensures var o := CreatePostSpec(c, d, req, now);
      forall n: nat :: !Kept(c, o.cache, PostKey(n)) ==> n in o.db.posts && n !in d.posts
    ensures var o := CreatePostSpec(c, d, req, now);
      o.out == Err(FailedToCreatePost) ==> o.db == d && PostKeysKept(c, o.cache)
    ensures var o := CreatePostSpec(c, d, req, now);
      o.out == Err(FailedToStorePostInRedis) ==> o.db.posts.Keys > d.posts.Keys
  {
    var o := CreatePostSpec(c, d, req, now);
    if ValidatePostRequest(req).None? {
      var found := FindAuthorByIdSpec(c, d, req.authorId);
      FindAuthorKeepsPostKeys(c, d, req.authorId);
      if found.out.Ok? && found.out.value.Some? {
        var created := CreatePostRowSpec(d, NewPostEntity(req, found.out.value.value, now), now);
        if created.out.Ok? {
          var p := created.out.value;
          CachePostKeepsOtherPostKeys(found.cache, p);
          assert p.id in o.db.posts && p.id !in d.posts;
          forall n: nat | !Kept(c, o.cache, PostKey(n))
            ensures n in o.db.posts && n !in d.posts
          {
            assert Kept(c, found.cache, PostKey(n));
          }
        }
      }
    }
  }

  /** cachePost changes no post key but the post's own. */
  lemma CachePostKeepsOtherPostKeys(c: CacheState, p: Post)
    ensures forall n: nat :: n != p.id ==> Kept(c, CachePostSpec(c, p).cache, PostKey(n))
  {
    forall n: nat | n != p.id
      ensures Kept(c, CachePostSpec(c, p).cache, PostKey(n))
    {
      PostKeyInjective(n, p.id);
      KeptAfterSet(c, "post", UintToString(p.id), PostValue(p), EntryTtl, PostKey(n));
    }
  }

  /** A created post carries the request's title and content, the acting user as its author
      and the current time; the store holds it under a fresh id, without the embedded author,
      and post:{id} holds it with the author for 24 hours. The cache stays coherent. */
  lemma CreatePostResponse(c: CacheState, d: DbState, req: PostRequest, now: Time)
    requires Valid(d) && Coherent(c)
    ensures var o := CreatePostSpec(c, d, req, now);
      o.out.Ok? ==>
        var r := o.out.value;
        && r.title == req.title && r.content == req.content && r.authorId == req.authorId
        && r.author.id == req.authorId && r.createdAt == now && r.updatedAt == now
        && r.id !in d.posts && 0 < r.id
        && o.db.posts == d.posts[r.id := Post(r.id, req.title, req.content, req.authorId, now, now, None)]
        && CachedEntity(o.cache, PostKey(r.id)).Some?
    ensures var o := CreatePostSpec(c, d, req, now);
      o.out.Ok? ==>
        var r := o.out.value;
        var found := FindAuthorByIdSpec(c, d, req.authorId).out;
        && found.Ok? && found.value.Some? && r.author == ToAuthorResponse(found.value.value)
        && Live(o.cache, PostKey(r.id))
        && o.cache.entries[PostKey(r.id)]
           == Entry(Json(PostValue(Post(r.id, req.title, req.content, req.authorId, now, now, found.value))), Some(c.clock + EntryTtl))
    ensures var o := CreatePostSpec(c, d, req, now);
      Coherent(o.cache) && Valid(o.db)
  {
    var found := FindAuthorByIdSpec(c, d, req.authorId);
    FindAuthorResultFits(c, d, req.authorId);
    if ValidatePostRequest(req).None? && found.out.Ok? && found.out.value.Some? {
      var created := CreatePostRowSpec(d, NewPostEntity(req, found.out.value.value, now), now);
      if created.out.Ok? {
        var p := created.out.value;
        CoherentAfterPostWrite(found.cache, p, EntryTtl);
        CachedEntityAfterSet(found.cache, "post", UintToString(p.id), PostValue(p), EntryTtl, PostKey(p.id));
      }
    }
  }

  /** What CreatePost returned is what GetPostByID then returns, from the cache, without
      touching the cache. */
  lemma CreateThenGet(c: CacheState, d: DbState, req: PostRequest, now: Time)
    requires Valid(d) && !c.getFails
    ensures var o := CreatePostSpec(c, d, req, now);
      o.out.Ok? ==> GetPostByIdSpec(o.cache, o.db, o.out.value.id) == Cached(o.out, o.cache)
  {
    var o := CreatePostSpec(c, d, req, now);
    var found := FindAuthorByIdSpec(c, d, req.authorId);
    FoundAuthorIsNonZero(c, d, req.authorId);
    if o.out.Ok? {
      var created := CreatePostRowSpec(d, NewPostEntity(req, found.out.value.value, now), now);
      var p := created.out.value;
      GetAfterSet(found.cache, "post", UintToString(p.id), PostValue(p), EntryTtl, PostValue(ZeroPost));
    }
  }

  // ---------------------------------------------------------------------------
  // GetPostByID
  // ---------------------------------------------------------------------------

  /** A cached post with a non-zero author is answered from the cache, whatever the store
      holds, and nothing is written. */
  lemma GetPostHitIgnoresStore(c: CacheState, d1: DbState, d2: DbState, id: nat)
    requires var g := GetEntitySpec(c, "post", UintToString(id), PostValue(ZeroPost));
      g.Ok? && g.value.post.id != 0 && g.value.post.author.Some? && g.value.post.author.value.id != 0
    ensures var g := GetEntitySpec(c, "post", UintToString(id), PostValue(ZeroPost));
      GetPostByIdSpec(c, d1, id) == GetPostByIdSpec(c, d2, id) == Cached(Respond(g.value.post), c)
  {
  }

  /** A cached post whose author is zero-valued gets the author FindAuthorByID gives (a
      missing one ends in the nil dereference), and the completed post is not written back:
      post:{id} is as it was. */
  lemma GetPostHydratesWithoutWriteBack(c: CacheState, d: DbState, id: nat)
    requires var g := GetEntitySpec(c, "post", UintToString(id), PostValue(ZeroPost));
      g.Ok? && g.value.post.id != 0 && g.value.post.author.Some? && g.value.post.author.value.id == 0
    ensures var p := GetEntitySpec(c, "post", UintToString(id), PostValue(ZeroPost)).value.post;
      var found := FindAuthorByIdSpec(c, d, p.authorId);
      var o := GetPostByIdSpec(c, d, id);
      && (found.out.Err? ==> o.out == Err(FailedToLoadAuthorDetails))
      && (found.out == Ok(None) ==> o.out == Err(NilDereference))
      && (found.out.Ok? && found.out.value.Some? ==> o.out == Ok(ToPostResponse(p, ToAuthorResponse(found.out.value.value))))
      && PostKeysKept(c, o.cache)
  {
    var p := GetEntitySpec(c, "post", UintToString(id), PostValue(ZeroPost)).value.post;
    FindAuthorKeepsPostKeys(c, d, p.authorId);
  }

  /** A cached post whose embedded author is nil makes GetPostByID panic. */
  lemma GetPostNilAuthorPanics(c: CacheState, d: DbState, id: nat)
    requires var g := GetEntitySpec(c, "post", UintToString(id), PostValue(ZeroPost));
      g.Ok? && g.value.post.id != 0 && g.value.post.author.None?
    ensures GetPostByIdSpec(c, d, id) == Cached(Err(NilDereference), c)
  {
  }

  /** A cache read error is fatal, even when the store holds the post. */
  lemma GetPostCacheErrorIsFatal(c: CacheState, d: DbState, id: nat)
    requires c.getFails
    ensures GetPostByIdSpec(c, d, id) == Cached(Err(FailedToRetrievePostFromRedis), c)
  {
  }

  /** On a cache miss (no live entry, or a stored `null`) the store decides: its error, or no
      row, is reported with the cache untouched; a row is cached under post:{id} and returned,
      and a failed write is fatal. */
  lemma GetPostMissReadsStore(c: CacheState, d: DbState, id: nat)
    requires Valid(d) && !c.getFails
    requires !Live(c, PostKey(id)) || c.entries[PostKey(id)].payload == Json(NilValue)
    ensures var o := GetPostByIdSpec(c, d, id);
      && (FindPostById in d.failing ==> o == Cached(Err(FailedToFindPostInDatabase), c))
      && (FindPostById !in d.failing && id !in d.posts ==> o == Cached(Err(PostNotFound), c))
      && (FindPostById !in d.failing && id in d.posts ==>
            var q := PostWithAuthor(d, id).value;
            if Encodable(PostValue(q)) && !c.setFails
            then o.out == Respond(q) && CachedEntity(o.cache, PostKey(id)) == Some(PostValue(q))
            else o == Cached(Err(FailedToStorePostInRedis), c))
  {
    MissLeavesTargetUnchanged(c, "post", UintToString(id), PostValue(ZeroPost));
    if FindPostById !in d.failing && id in d.posts {
      var q := PostWithAuthor(d, id).value;
      CachedEntityAfterSet(c, "post", UintToString(q.id), PostValue(q), EntryTtl, PostKey(id));
    }
  }

  /** In a coherent cache over a valid store, a post returned is the post asked for, and its
      author is its own, non-zero author; the cache stays coherent. */
  lemma GetPostResultFits(c: CacheState, d: DbState, id: nat)
    requires Coherent(c) && Valid(d)
    ensures var o := GetPostByIdSpec(c, d, id);
      && (o.out.Ok? ==> o.out.value.id == id && o.out.value.author.id == o.out.value.authorId != 0)
      && Coherent(o.cache)
  {
    ResolvedPostFits(c, d, id);
    var f := PostFromCacheSpec(c, d, id);
    if f.out.Ok? && f.out.value.None? {
      var s := PostFromDatabaseSpec(d, id);
      if s.Ok? && s.value.Some? {
        CoherentAfterPostWrite(f.cache, s.value.value, EntryTtl);
      }
    }
  }

  /** Over an unchanged store, GetPostByID answers a second time exactly as it did the
      first time, on the cache the first call left. */
  lemma GetPostIdempotent(c: CacheState, d: DbState, id: nat)
    requires Valid(d)
    ensures var o1 := GetPostByIdSpec(c, d, id);
      o1.out.Ok? ==> GetPostByIdSpec(o1.cache, d, id).out == o1.out
  {
    var o1 := GetPostByIdSpec(c, d, id);
    var idStr := UintToString(id);
    var g := GetEntitySpec(c, "post", idStr, PostValue(ZeroPost));
    if o1.out.Ok? {
      var f := PostFromCacheSpec(c, d, id);
      if f.out.value.Some? {
        var p := g.value.post;
        if p.author.value.id == 0 {
          FindAuthorKeepsPostKeys(c, d, p.authorId);
          assert Kept(c, f.cache, PostKey(id));
          GetEntityOfKept(c, f.cache, "post", idStr, PostValue(ZeroPost));
          FindAuthorRepeatable(c, d, p.authorId);
        }
      } else {
        var q := PostWithAuthor(d, id).value;
        assert q.author.value in d.users;
        assert q.id == id;
        GetAfterSet(c, "post", idStr, PostValue(q), EntryTtl, PostValue(ZeroPost));
      }
    }
  }

  // ---------------------------------------------------------------------------
  // Update and Delete
  // ---------------------------------------------------------------------------

  /** Update refuses with "no permission" exactly when the resolved post belongs to someone
      else, and then writes neither the store nor any post key; a failed resolution is
      reported as it is. */
  lemma UpdateChecksOwnership(c: CacheState, d: DbState, id: nat, req: PostRequest, now: Time)
    ensures var res := ResolvePostSpec(c, d, id);
      var o := UpdateSpec(c, d, id, req, now);
      && (o.out == Err(NotPostOwner) <==> res.out.Ok? && res.out.value.authorId != req.authorId)
      && (o.out == Err(NotPostOwner) ==> o.db == d && PostKeysKept(c, o.cache))
      && (res.out.Err? ==> o == Outcome(Err(res.out.error), res.cache, d))
  {
    PostFromCacheKeepsPostKeys(c, d, id);
  }

  /** Delete refuses with "no permission" exactly when the resolved post belongs to someone
      else, and then writes neither the store nor any post key. */
  lemma DeleteChecksOwnership(c: CacheState, d: DbState, id: nat, userId: nat)
    ensures var res := ResolvePostSpec(c, d, id);
      var o := DeleteSpec(c, d, id, userId);
      && (o.out == Some(NotPostOwner) <==> res.out.Ok? && res.out.value.authorId != userId)
      && (o.out == Some(NotPostOwner) ==> o.db == d && PostKeysKept(c, o.cache))
      && (res.out.Err? ==> o == Outcome(Some(res.out.error), res.cache, d))
  {
    PostFromCacheKeepsPostKeys(c, d, id);
  }

  /** An update by the owner rewrites the row with the new title and content and the current
      time, every other column taken from the resolved post; then caches the same post. A
      failed save writes nothing; a failed cache write is reported although the row changed.
      The store stays valid and the cache coherent. */
  lemma UpdateEditsTitleAndContent(c: CacheState, d: DbState, id: nat, req: PostRequest, now: Time)
    requires Valid(d) && Coherent(c)
    ensures var res := ResolvePostSpec(c, d, id);
      var o := UpdateSpec(c, d, id, req, now);
      res.out.Ok? && res.out.value.authorId == req.authorId ==>
        var e := Edited(res.out.value, req, now);
        && e.id == id && e.authorId == res.out.value.authorId && e.createdAt == res.out.value.createdAt
        && (UpdatePost in d.failing ==> o == Outcome(Err(FailedToCreatePost), res.cache, d))
        && (UpdatePost !in d.failing ==> o.db.posts == d.posts[id := Row(e)])
        && (o.out.Ok? ==> o.out == Respond(e) && CachedEntity(o.cache, PostKey(id)) == Some(PostValue(e)))
        && (o.out == Err(FailedToStorePostInRedis) ==> o.cache == res.cache)
    ensures var o := UpdateSpec(c, d, id, req, now);
      Valid(o.db) && Coherent(o.cache)
  {
    ResolvedPostFits(c, d, id);
    var res := ResolvePostSpec(c, d, id);
    if res.out.Ok? && res.out.value.authorId == req.authorId {
      var e := Edited(res.out.value, req, now);
      CoherentAfterPostWrite(res.cache, e, EntryTtl);
      CachedEntityAfterSet(res.cache, "post", UintToString(e.id), PostValue(e), EntryTtl, PostKey(id));
    }
  }

  /** A successful delete leaves neither the row nor post:{id}: GetPostByID then reports
      "post not found". */
  lemma DeleteThenGet(c: CacheState, d: DbState, id: nat, userId: nat)
    requires Valid(d) && Coherent(c)
    ensures var o := DeleteSpec(c, d, id, userId);
      o.out.None? ==>
        && id !in o.db.posts && !Live(o.cache, PostKey(id))
        && (FindPostById !in d.failing ==> GetPostByIdSpec(o.cache, o.db, id).out == Err(PostNotFound))
  {
    ResolvedPostFits(c, d, id);
    var res := ResolvePostSpec(c, d, id);
    if res.out.Ok? && res.out.value.authorId == userId {
      var removed := RemovePost(d, id);
      if removed.out.None? {
        var dropped := DeleteEntitySpec(res.cache, "post", UintToString(id));
        if dropped.out.None? {
          MissLeavesTargetUnchanged(dropped.cache, "post", UintToString(id), PostValue(ZeroPost));
          assert PostFromCacheSpec(dropped.cache, removed.db, id).out == Ok(None);
          assert SelectPost(removed.db, id) == if FindPostById in d.failing then Err(DatabaseError) else Ok(None);
        }
      }
    }
  }

  /** A failed row delete changes nothing; a failed cache delete is reported although the row
      is gone, and post:{id} is left as it was. */
  lemma DeleteFailuresLeaveState(c: CacheState, d: DbState, id: nat, userId: nat)
    requires Valid(d) && Coherent(c)
    ensures var o := DeleteSpec(c, d, id, userId);
      o.out == Some(DatabaseError) ==> o.db == d && PostKeysKept(c, o.cache)
    ensures var o := DeleteSpec(c, d, id, userId);
      o.out == Some(RedisClientError) ==> id !in o.db.posts && Kept(c, o.cache, PostKey(id))
  {
    ResolvedPostFits(c, d, id);
    PostFromCacheKeepsPostKeys(c, d, id);
  }

  /** Delete keeps a valid store and the cache layout. */
  lemma DeleteKeepsLayout(c: CacheState, d: DbState, id: nat, userId: nat)
    requires Valid(d) && Coherent(c)
    ensures var o := DeleteSpec(c, d, id, userId);
      Valid(o.db) && Coherent(o.cache)
  {
    ResolvedPostFits(c, d, id);
    var res := ResolvePostSpec(c, d, id);
    CoherentAfterDelete(res.cache, "post", UintToString(id));
  }

  // ---------------------------------------------------------------------------
  // Listing
  // ---------------------------------------------------------------------------

  /** GetAll lists with a page and a page size of at least 1, keeping valid ones, and
      answers one response per listed post, in order, unless a post has no author. */
  lemma GetAllClampsAndLists(q: Query, findAll: Query -> Result<seq<Post>>)
    ensures var clamped := q.(page := ClampPage(q.page), pageSize := ClampPageSize(q.pageSize));
      && clamped.page >= 1 && clamped.pageSize >= 1
      && (q.page >= 1 && q.pageSize >= 1 ==> clamped == q)
      && (findAll(clamped).Err? ==> GetAllSpec(q, findAll) == Err(findAll(clamped).error))
      && (findAll(clamped).Ok? ==>
            var rows := findAll(clamped).value;
            && (GetAllSpec(q, findAll).Ok? <==> forall i :: 0 <= i < |rows| ==> rows[i].author.Some?)
            && (GetAllSpec(q, findAll).Ok? ==>
                  && |GetAllSpec(q, findAll).value| == |rows|
                  && forall i :: 0 <= i < |rows| ==>
                       GetAllSpec(q, findAll).value[i].id == rows[i].id
                       && GetAllSpec(q, findAll).value[i].author.id == rows[i].author.value.id))
  {
    var clamped := q.(page := ClampPage(q.page), pageSize := ClampPageSize(q.pageSize));
    if findAll(clamped).Ok? {
      var rows := findAll(clamped).value;
      var r := PostResponses(rows);
      if r.Ok? {
        forall i | 0 <= i < |rows|
          ensures r.value[i].id == rows[i].id && r.value[i].author.id == rows[i].author.value.id
        {
          assert Respond(rows[i]) == Ok(r.value[i]);
        }
      }
    }
  }
}
