/** The key/value cache: the Redis server as seen through its client (entries with an
    expiry on a logical clock, and transport faults), the JSON codec, and RedisService,
    which stores and fetches entities under `type:id` keys. */
module Redis {
  import opened Common
  import opened Entities
  import opened Keys

  /** What a service hands to SetEntity or decodes into: a post, a user, or a nil pointer
      (which encodes as JSON `null`). */
  datatype Entity = PostValue(post: Post) | UserValue(user: User) | NilValue

  /** The string held under a key: the JSON encoding of an entity, or bytes that do not
      decode. */
  datatype Payload = Json(entity: Entity) | Malformed

  /** A stored string and the logical second at which Redis stops returning it (None: never). */
  datatype Entry = Entry(payload: Payload, expiresAt: Option<int>)

  /** A snapshot of the cache: entries, the logical clock (seconds), and whether GET, SET and
      DEL calls fail in transport during the current request. */
  datatype CacheState = CacheState(
    entries: map<string, Entry>, clock: int, getFails: bool, setFails: bool, delFails: bool)

  /** The outcome of a cache operation and the cache it leaves behind. */
  datatype Cached<T> = Cached(out: T, cache: CacheState)

  /** The expiration every service passes: 24 hours, in seconds. */
  const EntryTtl: nat := 24 * 60 * 60

  /** Whether GET finds the key: present and not yet expired (Redis expires passively). */
  predicate Live(c: CacheState, key: string)
  {
    key in c.entries && (c.entries[key].expiresAt.None? || c.clock < c.entries[key].expiresAt.value)
  }

  /** An expiration of 0 keeps the key forever, as in the Redis client. */
  function ExpiryAt(clock: int, ttl: nat): Option<int>
  {
    if ttl == 0 then None else Some(clock + ttl)
  }

  predicate TimeEncodable(t: Time) { 0 <= t.year <= 9999 }

  predicate UserEncodable(u: User) { TimeEncodable(u.createdAt) && TimeEncodable(u.updatedAt) }

  /** json.Marshal succeeds unless some time.Time in the value has a year outside [0, 9999]. */
  predicate Encodable(e: Entity)
  {
    match e
    case PostValue(p) =>
      TimeEncodable(p.createdAt) && TimeEncodable(p.updatedAt)
      && (p.author.Some? ==> UserEncodable(p.author.value))
    case UserValue(u) => UserEncodable(u)
    case NilValue => true
  }

  function Marshal(e: Entity): Option<Payload>
  {
    if Encodable(e) then Some(Json(e)) else None
  }

  predicate SameKind(a: Entity, b: Entity)
  {
    (a.PostValue? && b.PostValue?) || (a.UserValue? && b.UserValue?) || (a.NilValue? && b.NilValue?)
  }

  /** json.Unmarshal into a target: `null` leaves the target as it was; a value of the
      target's kind replaces it. */
  function Unmarshal(p: Payload, target: Entity): (r: Result<Entity>)
    ensures r.Ok? ==> SameKind(r.value, target)
    ensures r.Ok? && r.value != target ==> p == Json(r.value)
  {
    match p
    case Malformed => Err(DecodeError)
    case Json(e) =>
      if e.NilValue? then Ok(target)
      else if SameKind(e, target) then Ok(e)
      else Err(DecodeError)
  }

  /** GetEntity: a transport error, a miss that leaves the target as it was, or the decoded
      value. */
  function GetEntitySpec(c: CacheState, entityType: string, id: string, target: Entity): (r: Result<Entity>)
    ensures r.Ok? ==> SameKind(r.value, target)
  {
    var key := Key(entityType, id);
    if c.getFails then Err(RedisClientError)
    else if !Live(c, key) then Ok(target)
    else Unmarshal(c.entries[key].payload, target)
  }

  /** SetEntity: encode, then SET with the expiration; nothing is written on either failure. */
  function SetEntitySpec(c: CacheState, entityType: string, id: string, e: Entity, ttl: nat): Cached<Option<Error>>
  {
    match Marshal(e)
    case None => Cached(Some(EncodeError), c)
    case Some(payload) =>
      if c.setFails then Cached(Some(RedisClientError), c)
      else Cached(None, c.(entries := c.entries[Key(entityType, id) := Entry(payload, ExpiryAt(c.clock, ttl))]))
  }

  /** DeleteEntity: DEL the key; only the client's error is reported. */
  function DeleteEntitySpec(c: CacheState, entityType: string, id: string): Cached<Option<Error>>
  {
    if c.delFails then Cached(Some(RedisClientError), c)
    else Cached(None, c.(entries := c.entries - {Key(entityType, id)}))
  }

  /** The passage of time between requests. */
  function AdvanceSpec(c: CacheState, seconds: nat): CacheState
  {
    c.(clock := c.clock + seconds)
  }

  /** The entity a GET of the key would decode, if any. */
  function CachedEntity(c: CacheState, key: string): Option<Entity>
  {
    if Live(c, key) && c.entries[key].payload.Json? then Some(c.entries[key].payload.entity) else None
  }

  // ---------------------------------------------------------------------------
  // Properties of the key/value contract
  // ---------------------------------------------------------------------------

  /** A miss (no live key, or a stored `null`) is not an error and leaves the target unchanged. */
  lemma MissLeavesTargetUnchanged(c: CacheState, entityType: string, id: string, target: Entity)
    requires !c.getFails
    requires !Live(c, Key(entityType, id)) || c.entries[Key(entityType, id)].payload == Json(NilValue)
    ensures GetEntitySpec(c, entityType, id, target) == Ok(target)
  {
  }

  /** Transport errors and decode errors are passed to the caller. */
  lemma GetEntityReportsErrors(c: CacheState, entityType: string, id: string, target: Entity)
    ensures c.getFails ==> GetEntitySpec(c, entityType, id, target) == Err(RedisClientError)
    ensures !c.getFails && Live(c, Key(entityType, id)) && c.entries[Key(entityType, id)].payload.Malformed?
      ==> GetEntitySpec(c, entityType, id, target) == Err(DecodeError)
  {
  }

  /** SetEntity either writes exactly its key, or (on an encode or client error) nothing. */
  lemma SetEntityWritesOnlyItsKey(c: CacheState, entityType: string, id: string, e: Entity, ttl: nat)
    ensures var s := SetEntitySpec(c, entityType, id, e, ttl);
      && (s.out.None? <==> Encodable(e) && !c.setFails)
      && (!Encodable(e) ==> s.out == Some(EncodeError))
      && (s.out.Some? ==> s.cache == c)
      && (s.out.None? ==> s.cache.entries.Keys == c.entries.Keys + {Key(entityType, id)}
                          && s.cache.entries[Key(entityType, id)] == Entry(Json(e), ExpiryAt(c.clock, ttl)))
      && (forall k :: k != Key(entityType, id) && k in c.entries ==> s.cache.entries[k] == c.entries[k])
      && s.cache.clock == c.clock
  {
  }

  /** Reading back what was just stored yields it (decode inverts encode). */
  lemma GetAfterSet(c: CacheState, entityType: string, id: string, e: Entity, ttl: nat, target: Entity)
    requires Encodable(e) && !c.setFails && !c.getFails
    requires SameKind(e, target) && !e.NilValue?
    ensures SetEntitySpec(c, entityType, id, e, ttl).out.None?
    ensures GetEntitySpec(SetEntitySpec(c, entityType, id, e, ttl).cache, entityType, id, target) == Ok(e)
  {
  }

  /** Storing under one key does not change what any other key reads. */
  lemma SetKeepsOtherKeys(c: CacheState, entityType: string, id: string, e: Entity, ttl: nat,
                          otherType: string, otherId: string, target: Entity)
    requires Key(otherType, otherId) != Key(entityType, id)
    ensures GetEntitySpec(SetEntitySpec(c, entityType, id, e, ttl).cache, otherType, otherId, target)
         == GetEntitySpec(c, otherType, otherId, target)
  {
  }

  /** After a successful DeleteEntity the key is absent: a later GetEntity is a miss. */
  lemma GetAfterDelete(c: CacheState, entityType: string, id: string, target: Entity)
    requires !c.getFails
    ensures var d := DeleteEntitySpec(c, entityType, id);
      d.out.None? <==> !c.delFails
    ensures var d := DeleteEntitySpec(c, entityType, id);
      d.out.None? ==> !Live(d.cache, Key(entityType, id)) && GetEntitySpec(d.cache, entityType, id, target) == Ok(target)
  {
  }

  /** An entry stored with a positive expiration is a miss once that many seconds have passed. */
  lemma EntryExpires(c: CacheState, entityType: string, id: string, e: Entity, ttl: nat, later: nat, target: Entity)
    requires 0 < ttl <= later
    requires Encodable(e) && !c.setFails && !c.getFails
    ensures var stored := SetEntitySpec(c, entityType, id, e, ttl).cache;
      GetEntitySpec(AdvanceSpec(stored, later), entityType, id, target) == Ok(target)
  {
  }

  /** Between two snapshots a key holds the same entry and reads the same way. */
  predicate Kept(c: CacheState, c': CacheState, key: string)
  {
    && c'.clock == c.clock && c'.getFails == c.getFails
    && (key in c'.entries <==> key in c.entries)
    && (key in c.entries ==> c'.entries[key] == c.entries[key])
  }

  /** A kept key reads the same. */
  lemma GetEntityOfKept(c: CacheState, c': CacheState, entityType: string, id: string, target: Entity)
    requires Kept(c, c', Key(entityType, id))
    ensures GetEntitySpec(c', entityType, id, target) == GetEntitySpec(c, entityType, id, target)
    ensures CachedEntity(c', Key(entityType, id)) == CachedEntity(c, Key(entityType, id))
  {
  }

  /** SetEntity keeps every other key. */
  lemma KeptAfterSet(c: CacheState, entityType: string, id: string, e: Entity, ttl: nat, key: string)
    requires key != Key(entityType, id)
    ensures Kept(c, SetEntitySpec(c, entityType, id, e, ttl).cache, key)
  {
  }

  // ---------------------------------------------------------------------------
  // The cache layout the services keep
  // ---------------------------------------------------------------------------

  /** A cached post's embedded author is nil, zero-valued, or the post's own author. */
  predicate AuthorFits(p: Post)
  {
    p.author.None? || p.author.value.id == 0 || p.author.value.id == p.authorId
  }

  /** post:{n} holds, if a post, the post with id n and a fitting author. */
  ghost predicate PostSlotFits(c: CacheState, n: nat)
  {
    var e := CachedEntity(c, PostKey(n));
    e.Some? && e.value.PostValue? ==> e.value.post.id == n && AuthorFits(e.value.post)
  }

  /** user:{n} holds, if a user, the user with id n. */
  ghost predicate UserSlotFits(c: CacheState, n: nat)
  {
    var e := CachedEntity(c, UserIdKey(n));
    e.Some? && e.value.UserValue? ==> e.value.user.id == n
  }

  /** The cache layout: every entry sits under the key of the id it holds. */
  ghost predicate Coherent(c: CacheState)
  {
    (forall n: nat :: PostSlotFits(c, n)) && (forall n: nat :: UserSlotFits(c, n))
  }

  /** What SetEntity leaves readable: its own key holds the entity when the write succeeded,
      every other key reads as before. */
  lemma CachedEntityAfterSet(c: CacheState, entityType: string, id: string, e: Entity, ttl: nat, key: string)
    ensures var s := SetEntitySpec(c, entityType, id, e, ttl);
      CachedEntity(s.cache, key) == if key == Key(entityType, id) && s.out.None? then Some(e) else CachedEntity(c, key)
  {
  }

  lemma CoherentAfterPostWrite(c: CacheState, p: Post, ttl: nat)
    requires Coherent(c) && AuthorFits(p)
    ensures Coherent(SetEntitySpec(c, "post", UintToString(p.id), PostValue(p), ttl).cache)
  {
    var c' := SetEntitySpec(c, "post", UintToString(p.id), PostValue(p), ttl).cache;
    forall n: nat
      ensures PostSlotFits(c', n)
    {
      assert PostSlotFits(c, n);
      PostKeyInjective(n, p.id);
      CachedEntityAfterSet(c, "post", UintToString(p.id), PostValue(p), ttl, PostKey(n));
    }
    forall n: nat
      ensures UserSlotFits(c', n)
    {
      assert UserSlotFits(c, n);
      PostKeyIsNotUserKey(p.id, UintToString(n));
      CachedEntityAfterSet(c, "post", UintToString(p.id), PostValue(p), ttl, UserIdKey(n));
    }
  }

  lemma CoherentAfterUserIdWrite(c: CacheState, id: nat, e: Entity, ttl: nat)
    requires Coherent(c)
    requires e.NilValue? || (e.UserValue? && e.user.id == id)
    ensures Coherent(SetEntitySpec(c, "user", UintToString(id), e, ttl).cache)
  {
    var c' := SetEntitySpec(c, "user", UintToString(id), e, ttl).cache;
    forall n: nat
      ensures PostSlotFits(c', n)
    {
      assert PostSlotFits(c, n);
      PostKeyIsNotUserKey(n, UintToString(id));
      CachedEntityAfterSet(c, "user", UintToString(id), e, ttl, PostKey(n));
    }
    forall n: nat
      ensures UserSlotFits(c', n)
    {
      assert UserSlotFits(c, n);
      UserIdKeyInjective(n, id);
      CachedEntityAfterSet(c, "user", UintToString(id), e, ttl, UserIdKey(n));
    }
  }

  lemma CoherentAfterEmailWrite(c: CacheState, email: string, e: Entity, ttl: nat)
    requires Coherent(c)
    requires '@' in email
    ensures Coherent(SetEntitySpec(c, "user", email, e, ttl).cache)
  {
    var c' := SetEntitySpec(c, "user", email, e, ttl).cache;
    forall n: nat
      ensures PostSlotFits(c', n)
    {
      assert PostSlotFits(c, n);
      PostKeyIsNotUserKey(n, email);
      CachedEntityAfterSet(c, "user", email, e, ttl, PostKey(n));
    }
    forall n: nat
      ensures UserSlotFits(c', n)
    {
      assert UserSlotFits(c, n);
      UserIdKeyIsNotEmailKey(n, email);
      CachedEntityAfterSet(c, "user", email, e, ttl, UserIdKey(n));
    }
  }

  lemma CoherentAfterDelete(c: CacheState, entityType: string, id: string)
    requires Coherent(c)
    ensures Coherent(DeleteEntitySpec(c, entityType, id).cache)
  {
    var c' := DeleteEntitySpec(c, entityType, id).cache;
    assert forall n: nat :: PostSlotFits(c, n) ==> PostSlotFits(c', n);
    assert forall n: nat :: UserSlotFits(c, n) ==> UserSlotFits(c', n);
  }

  lemma CoherentAfterAdvance(c: CacheState, seconds: nat)
    requires Coherent(c)
    ensures Coherent(AdvanceSpec(c, seconds))
  {
    var c' := AdvanceSpec(c, seconds);
    assert forall n: nat :: PostSlotFits(c, n) ==> PostSlotFits(c', n);
    assert forall n: nat :: UserSlotFits(c, n) ==> UserSlotFits(c', n);
  }

  /** In a coherent cache a post decoded from post:{n} with a non-zero id is post n. */
  lemma CachedPostFits(c: CacheState, n: nat)
    requires Coherent(c)
    ensures var r := GetEntitySpec(c, "post", UintToString(n), PostValue(ZeroPost));
      r.Ok? && r.value.post.id != 0 ==> r.value.post.id == n && AuthorFits(r.value.post)
  {
    assert PostSlotFits(c, n);
  }

  /** In a coherent cache a user decoded from user:{n} with a non-zero id is user n. */
  lemma CachedUserFits(c: CacheState, n: nat)
    requires Coherent(c)
    ensures var r := GetEntitySpec(c, "user", UintToString(n), UserValue(ZeroUser));
      r.Ok? && r.value.user.id != 0 ==> r.value.user.id == n
  {
    assert UserSlotFits(c, n);
  }

  // ---------------------------------------------------------------------------
  // The client and the service
  // ---------------------------------------------------------------------------

  /** A reply of the Redis client to GET: a value, `redis.Nil`, or another error. */
  datatype Reply = Value(payload: Payload) | Nil | Failure

  /** The Redis server behind its client. */
  class RedisClient {
    var entries: map<string, Entry>
    var clock: int
    var getFails: bool
    var setFails: bool
    var delFails: bool

    function State(): CacheState
      reads this
    {
      CacheState(entries, clock, getFails, setFails, delFails)
    }

    constructor ()
      ensures State() == CacheState(map[], 0, false, false, false)
    {
      entries, clock := map[], 0;
      getFails, setFails, delFails := false, false, false;
    }

    method Get(key: string) returns (reply: Reply)
      ensures getFails ==> reply == Failure
      ensures !getFails && !Live(State(), key) ==> reply == Nil
      ensures !getFails && Live(State(), key) ==> reply == Value(entries[key].payload)
    {
      if getFails {
        reply := Failure;
      } else if Live(State(), key) {
        reply := Value(entries[key].payload);
      } else {
        reply := Nil;
      }
    }

    method Set(key: string, payload: Payload, ttl: nat) returns (ok: bool)
      modifies this`entries
      ensures ok == !setFails
      ensures entries == if ok then old(entries)[key := Entry(payload, ExpiryAt(clock, ttl))] else old(entries)
    {
      ok := !setFails;
      if ok {
        entries := entries[key := Entry(payload, ExpiryAt(clock, ttl))];
      }
    }

    method Del(key: string) returns (ok: bool)
      modifies this`entries
      ensures ok == !delFails
      ensures entries == if ok then old(entries) - {key} else old(entries)
    {
      ok := !delFails;
      if ok {
        entries := entries - {key};
      }
    }

    /** Time passing between requests; entries whose expiry is reached read as absent. */
    method Advance(seconds: nat)
      modifies this`clock
      ensures State() == AdvanceSpec(old(State()), seconds)
    {
      clock := clock + seconds;
    }
  }

  /** RedisService: entities serialized as JSON under `entityType:id`. */
  class RedisService {
    const client: RedisClient

    constructor (client: RedisClient)
      ensures this.client == client
    {
      this.client := client;
    }

    method SetEntity(entityType: string, id: string, entity: Entity, ttl: nat) returns (err: Option<Error>)
      modifies client`entries
      ensures Cached(err, client.State()) == SetEntitySpec(old(client.State()), entityType, id, entity, ttl)
    {
      var payload := Marshal(entity);
      if payload.None? {
        return Some(EncodeError);
      }
      var ok := client.Set(Key(entityType, id), payload.value, ttl);
      if !ok {
        return Some(RedisClientError);
      }
      return None;
    }

    method GetEntity(entityType: string, id: string, target: Entity) returns (r: Result<Entity>)
      ensures r == GetEntitySpec(client.State(), entityType, id, target)
    {
      var reply := client.Get(Key(entityType, id));
      match reply
      case Failure =>
        r := Err(RedisClientError);
      case Nil =>
        r := Ok(target);
      case Value(payload) =>
        r := Unmarshal(payload, target);
    }

    method DeleteEntity(entityType: string, id: string) returns (err: Option<Error>)
      modifies client`entries
      ensures Cached(err, client.State()) == DeleteEntitySpec(old(client.State()), entityType, id)
    {
      var ok := client.Del(Key(entityType, id));
      if !ok {
        return Some(RedisClientError);
      }
      return None;
    }
  }
}
