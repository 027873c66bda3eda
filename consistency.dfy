/** What the cache may say about posts relative to the store: a cached post carries an id the
    store has handed out and, while its row exists, the row's author. Every operation keeps
    this, so the ownership check, which may read the post from the cache, agrees with the
    row it lets a user update or delete. */
module Consistency {
  import opened Common
  import opened Dto
  import opened Entities
  import opened Keys
  import opened Redis
  import opened Store
  import opened Users
  import opened Posts
  import opened PostLemmas
  import opened Comments

  /** post:{n}, if it holds a post, holds one with an id the store has issued and, when row n
      exists, with the row's author. */
  ghost predicate SlotShadows(c: CacheState, d: DbState, n: nat)
  {
    var e := CachedEntity(c, PostKey(n));
    e.Some? && e.value.PostValue? ==>
      n < d.nextPostId && (n in d.posts ==> e.value.post.authorId == d.posts[n].authorId)
  }

  /** Every post key of the cache agrees with the store. */
  ghost predicate Shadows(c: CacheState, d: DbState)
  {
    forall n: nat :: SlotShadows(c, d, n)
  }

  /** Every post key of c2 that reads an entity reads the one it read in c. */
  ghost predicate PostSlotsFrom(c: CacheState, c2: CacheState)
  {
    forall n: nat :: CachedEntity(c2, PostKey(n)).Some? ==> CachedEntity(c2, PostKey(n)) == CachedEntity(c, PostKey(n))
  }

  /** The counter only grows, and a row below the old counter that d2 holds was in d with the
      same author. */
  ghost predicate AuthorsKept(d: DbState, d2: DbState)
  {
    && d.nextPostId <= d2.nextPostId
    && forall n :: n in d2.posts && n < d.nextPostId ==> n in d.posts && d2.posts[n].authorId == d.posts[n].authorId
  }

  // ---------------------------------------------------------------------------
  // How the relation is carried along
  // ---------------------------------------------------------------------------

  /** The relation survives a cache that gains no post and a store that keeps its authors. */
  lemma ShadowsCarried(c: CacheState, c2: CacheState, d: DbState, d2: DbState)
    requires Shadows(c, d) && PostSlotsFrom(c, c2) && AuthorsKept(d, d2)
    ensures Shadows(c2, d2)
  {
    forall n: nat
      ensures SlotShadows(c2, d2, n)
    {
      assert SlotShadows(c, d, n);
    }
  }

  /** Post keys holding the same entries read the same entities. */
  lemma SlotsFromKept(c: CacheState, c2: CacheState)
    requires PostKeysKept(c, c2)
    ensures PostSlotsFrom(c, c2)
  {
    forall n: nat
      ensures CachedEntity(c2, PostKey(n)) == CachedEntity(c, PostKey(n))
    {
      assert Kept(c, c2, PostKey(n));
    }
  }

  /** A write under a user key leaves every post key reading as before. */
  lemma SlotsFromUserWrite(c: CacheState, id: string, e: Entity, ttl: nat)
    ensures PostSlotsFrom(c, SetEntitySpec(c, "user", id, e, ttl).cache)
  {
    forall n: nat
      ensures CachedEntity(SetEntitySpec(c, "user", id, e, ttl).cache, PostKey(n)) == CachedEntity(c, PostKey(n))
    {
      PostKeyIsNotUserKey(n, id);
      CachedEntityAfterSet(c, "user", id, e, ttl, PostKey(n));
    }
  }

  /** Caching a post whose id was issued and whose author is its row's keeps the relation. */
  lemma ShadowsAfterPostWrite(c: CacheState, d: DbState, p: Post)
    requires Shadows(c, d)
    requires p.id < d.nextPostId && (p.id in d.posts ==> p.authorId == d.posts[p.id].authorId)
    ensures Shadows(CachePostSpec(c, p).cache, d)
  {
    var c2 := CachePostSpec(c, p).cache;
    forall n: nat
      ensures SlotShadows(c2, d, n)
    {
      assert SlotShadows(c, d, n);
      PostKeyInjective(n, p.id);
      CachedEntityAfterSet(c, "post", UintToString(p.id), PostValue(p), EntryTtl, PostKey(n));
    }
  }

  /** Saving a post whose author is the one cached under its key keeps the relation. */
  lemma ShadowsAfterSave(c: CacheState, d: DbState, p: Post)
    requires Shadows(c, d)
    requires var e := CachedEntity(c, PostKey(p.id)); e.Some? && e.value.PostValue? ==> e.value.post.authorId == p.authorId
    ensures Shadows(c, SavePost(d, p).db)
  {
    var d2 := SavePost(d, p).db;
    forall n: nat
      ensures SlotShadows(c, d2, n)
    {
      assert SlotShadows(c, d, n);
    }
  }

  /** A resolved post that came from the cache has the cached post's author. */
  lemma ResolvedMatchesCache(c: CacheState, d: DbState, id: nat)
    requires Coherent(c) && Valid(d)
    ensures var r := ResolvePostSpec(c, d, id); var e := CachedEntity(c, PostKey(id));
      r.out.Ok? && e.Some? && e.value.PostValue? ==> r.out.value.authorId == e.value.post.authorId
  {
    var e := CachedEntity(c, PostKey(id));
    if e.Some? && e.value.PostValue? && !c.getFails {
      assert PostSlotFits(c, id);
      assert GetEntitySpec(c, "post", UintToString(id), PostValue(ZeroPost)) == Ok(e.value);
    }
  }

  // ---------------------------------------------------------------------------
  // Every operation keeps the relation
  // ---------------------------------------------------------------------------

  /** FindAuthorByID writes only a user key, so the relation holds after it. */
  lemma FindAuthorKeepsShadows(c: CacheState, d: DbState, authorId: nat)
    requires Shadows(c, d)
    ensures Shadows(FindAuthorByIdSpec(c, d, authorId).cache, d)
  {
    FindAuthorKeepsPostKeys(c, d, authorId);
    SlotsFromKept(c, FindAuthorByIdSpec(c, d, authorId).cache);
    ShadowsCarried(c, FindAuthorByIdSpec(c, d, authorId).cache, d, d);
  }

  /** GetPostByID caches only the store's own row, so the relation holds after it. */
  lemma GetPostKeepsShadows(c: CacheState, d: DbState, id: nat)
    requires Valid(d) && Shadows(c, d)
    ensures Shadows(GetPostByIdSpec(c, d, id).cache, d)
  {
    var f := PostFromCacheSpec(c, d, id);
    PostFromCacheKeepsPostKeys(c, d, id);
    SlotsFromKept(c, f.cache);
    ShadowsCarried(c, f.cache, d, d);
    if f.out.Ok? && f.out.value.None? && SelectPost(d, id).Ok? && id in d.posts {
      ShadowsAfterPostWrite(f.cache, d, PostWithAuthor(d, id).value);
    }
  }

  /** CreatePost caches only the row it has just inserted, so the relation holds after it. */
  lemma CreatePostKeepsShadows(c: CacheState, d: DbState, req: PostRequest, now: Time)
    requires Valid(d) && Shadows(c, d)
    ensures var o := CreatePostSpec(c, d, req, now); Shadows(o.cache, o.db)
  {
    var found := FindAuthorByIdSpec(c, d, req.authorId);
    FindAuthorKeepsShadows(c, d, req.authorId);
    if ValidatePostRequest(req).None? && found.out.Ok? && found.out.value.Some? {
      var created := CreatePostRowSpec(d, NewPostEntity(req, found.out.value.value, now), now);
      ShadowsCarried(found.cache, found.cache, d, created.db);
      if created.out.Ok? {
        ShadowsAfterPostWrite(found.cache, created.db, created.out.value);
      }
    }
  }

  /** Update saves and caches a post with the cached or stored author, so the relation holds
      after it, whichever write fails. */
  lemma UpdateKeepsShadows(c: CacheState, d: DbState, id: nat, req: PostRequest, now: Time)
    requires Coherent(c) && Valid(d) && Shadows(c, d)
    ensures var o := UpdateSpec(c, d, id, req, now); Shadows(o.cache, o.db)
  {
    var found := PostWithOwnershipSpec(c, d, id, req.authorId);
    PostFromCacheKeepsPostKeys(c, d, id);
    SlotsFromKept(c, found.cache);
    ShadowsCarried(c, found.cache, d, d);
    if found.out.Ok? {
      ResolvedPostFits(c, d, id);
      ResolvedMatchesCache(c, d, id);
      var p := Edited(found.out.value, req, now);
      assert CachedEntity(found.cache, PostKey(id)) == CachedEntity(c, PostKey(id)) by {
        assert Kept(c, found.cache, PostKey(id));
      }
      ShadowsAfterSave(found.cache, d, p);
      var saved := UpdatePostRowSpec(d, p);
      if saved.out.None? {
        ShadowsAfterPostWrite(found.cache, saved.db, p);
      }
    }
  }

  /** Delete only removes a row and a key, so the relation holds after it. */
  lemma DeleteKeepsShadows(c: CacheState, d: DbState, id: nat, userId: nat)
    requires Shadows(c, d)
    ensures var o := DeleteSpec(c, d, id, userId); Shadows(o.cache, o.db)
  {
    var found := PostWithOwnershipSpec(c, d, id, userId);
    PostFromCacheKeepsPostKeys(c, d, id);
    SlotsFromKept(c, found.cache);
    ShadowsCarried(c, found.cache, d, d);
    if found.out.Ok? {
      var removed := RemovePost(d, found.out.value.id);
      var dropped := DeleteEntitySpec(found.cache, "post", UintToString(found.out.value.id));
      assert PostSlotsFrom(found.cache, dropped.cache);
      ShadowsCarried(found.cache, dropped.cache, d, removed.db);
    }
  }

  /** Commenting writes no post row, and its post check keeps the relation. */
  lemma CommentKeepsShadows(c: CacheState, d: DbState, postId: nat, req: CommentRequest, now: Time)
    requires Valid(d) && Shadows(c, d)
    ensures var o := CreateSpec(c, d, postId, req, now); Shadows(o.cache, o.db)
  {
    var got := GetPostByIdSpec(c, d, postId);
    GetPostKeepsShadows(c, d, postId);
    ShadowsCarried(got.cache, got.cache, d, InsertComment(d, NewComment(postId, req), now).db);
  }

  /** Register writes only user keys and the users table, so the relation holds after it. */
  lemma RegisterKeepsShadows(c: CacheState, d: DbState, req: UserRequest, hashed: Option<string>,
                             sign: (string, nat) -> Option<string>, now: Time)
    requires Shadows(c, d)
    ensures var o := RegisterSpec(c, d, req, hashed, sign, now); Shadows(o.cache, o.db)
  {
    if ValidEmail(req.email) && hashed.Some? {
      var found := FindUserByEmailSpec(c, d, req.email);
      forall n: nat
        ensures CachedEntity(found.cache, PostKey(n)) == CachedEntity(c, PostKey(n))
      {
        PostKeyIsNotUserKey(n, req.email);
        LookupWritesOnlyEmailKey(c, d, req.email, PostKey(n));
      }
      var created := InsertUser(d, NewUserEntity(req, hashed.value), now);
      ShadowsCarried(c, found.cache, d, created.db);
      if found.out == Lookup(None, None) && created.out.Ok? {
        var u := created.out.value;
        SlotsFromUserWrite(found.cache, u.email, UserValue(u), EntryTtl);
        ShadowsCarried(found.cache, SetEntitySpec(found.cache, "user", u.email, UserValue(u), EntryTtl).cache,
                       created.db, created.db);
      }
    }
  }

  /** Login writes only user:{email}, so the relation holds after it. */
  lemma LoginKeepsShadows(c: CacheState, d: DbState, req: UserLoginRequest,
                          passwordMatches: (string, string) -> bool, sign: (string, nat) -> Option<string>)
    requires Shadows(c, d)
    ensures Shadows(LoginSpec(c, d, req, passwordMatches, sign).cache, d)
  {
    if ValidEmail(req.email) {
      var found := FindUserByEmailSpec(c, d, req.email);
      forall n: nat
        ensures CachedEntity(found.cache, PostKey(n)) == CachedEntity(c, PostKey(n))
      {
        PostKeyIsNotUserKey(n, req.email);
        LookupWritesOnlyEmailKey(c, d, req.email, PostKey(n));
      }
      ShadowsCarried(c, found.cache, d, d);
    }
  }

  /** Expiry only hides entries, so the relation holds as time passes. */
  lemma AdvanceKeepsShadows(c: CacheState, d: DbState, seconds: nat)
    requires Shadows(c, d)
    ensures Shadows(AdvanceSpec(c, seconds), d)
  {
    assert PostSlotsFrom(c, AdvanceSpec(c, seconds));
    ShadowsCarried(c, AdvanceSpec(c, seconds), d, d);
  }

  // ---------------------------------------------------------------------------
  // Ownership against the row
  // ---------------------------------------------------------------------------

  /** The ownership check passes only for the author the row names, whether the post was
      read from the cache or from the store. */
  lemma OwnershipMatchesRow(c: CacheState, d: DbState, id: nat, u: nat)
    requires Coherent(c) && Valid(d) && Shadows(c, d) && id in d.posts
    ensures PostWithOwnershipSpec(c, d, id, u).out.Ok? ==> d.posts[id].authorId == u
  {
    ResolvedMatchesCache(c, d, id);
    assert SlotShadows(c, d, id);
  }

  /** An update that changes the store changes a row the acting user owns. */
  lemma UpdateOnlyByOwner(c: CacheState, d: DbState, id: nat, req: PostRequest, now: Time)
    requires Coherent(c) && Valid(d) && Shadows(c, d)
    ensures var o := UpdateSpec(c, d, id, req, now);
      id in d.posts && o.db != d ==> d.posts[id].authorId == req.authorId
  {
    if id in d.posts {
      OwnershipMatchesRow(c, d, id, req.authorId);
    }
  }

  /** A delete that changes the store removes a row the acting user owns. */
  lemma DeleteOnlyByOwner(c: CacheState, d: DbState, id: nat, userId: nat)
    requires Coherent(c) && Valid(d) && Shadows(c, d)
    ensures var o := DeleteSpec(c, d, id, userId);
      o.db != d ==> id in d.posts && d.posts[id].authorId == userId
  {
    ResolvedPostFits(c, d, id);
    if id in d.posts {
      OwnershipMatchesRow(c, d, id, userId);
    } else {
      assert d.posts - {id} == d.posts;
    }
  }
}
