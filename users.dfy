/** UserServiceImpl: registration, login, author lookup by id, and user lookup by email, each
    reading the cache first and falling back to the store. */
module Users {
  import opened Common
  import opened Dto
  import opened Entities
  import opened Keys
  import opened Redis
  import opened Store

  // ---------------------------------------------------------------------------
  // Email format
  // ---------------------------------------------------------------------------

  predicate Letter(ch: char) { 'a' <= ch <= 'z' || 'A' <= ch <= 'Z' }

  predicate Digit(ch: char) { '0' <= ch <= '9' }

  predicate LocalChar(ch: char) { Letter(ch) || Digit(ch) || ch in "._%+-" }

  predicate DomainChar(ch: char) { Letter(ch) || Digit(ch) || ch == '.' || ch == '-' }

  /** The email pattern `^[a-zA-Z0-9._%+-]+@[a-zA-Z0-9.-]+\.[a-zA-Z]{2,}$`: a non-empty local
      part, '@', a non-empty domain body, '.', and at least two letters to the end. */
  predicate ValidEmail(email: string)
  {
    exists at, dot :: 0 < at < |email| && 0 < dot < |email| && at + 1 < dot && dot + 2 < |email|
      && email[at] == '@' && email[dot] == '.'
      && (forall k :: 0 <= k < at ==> LocalChar(email[k]))
      && (forall k :: at < k < dot ==> DomainChar(email[k]))
      && (forall k :: dot < k < |email| ==> Letter(email[k]))
  }

  /** An accepted email holds exactly one '@', so its cache key is never a user-by-id key. */
  lemma ValidEmailHasOneAt(email: string)
    requires ValidEmail(email)
    ensures '@' in email
    ensures forall i, j :: 0 <= i < j < |email| && email[i] == '@' ==> email[j] != '@'
  {
    var at, dot :| 0 < at < |email| && 0 < dot < |email| && at + 1 < dot && dot + 2 < |email|
      && email[at] == '@' && email[dot] == '.'
      && (forall k :: 0 <= k < at ==> LocalChar(email[k]))
      && (forall k :: at < k < dot ==> DomainChar(email[k]))
      && (forall k :: dot < k < |email| ==> Letter(email[k]));
    forall i, j | 0 <= i < j < |email| && email[i] == '@'
      ensures email[j] != '@'
    {
      assert !LocalChar(email[i]) && !DomainChar(email[i]) && !Letter(email[i]);
      assert i == at;
    }
  }

  /** An accepted address. */
  lemma ValidEmailAccepts()
    ensures ValidEmail("ann@mail.io")
  {
    var e := "ann@mail.io";
    assert forall k :: 0 <= k < 3 ==> LocalChar(e[k]) by {
      assert Letter(e[0]) && Letter(e[1]) && Letter(e[2]);
    }
    assert forall k :: 3 < k < 8 ==> DomainChar(e[k]) by {
      assert Letter(e[4]) && Letter(e[5]) && Letter(e[6]) && Letter(e[7]);
    }
    assert forall k :: 8 < k < |e| ==> Letter(e[k]) by {
      assert Letter(e[9]) && Letter(e[10]);
    }
    assert e[3] == '@' && e[8] == '.';
  }

  /** A one-letter top-level part and an empty local part are refused. */
  lemma ValidEmailRejects()
    ensures !ValidEmail("ann@mail.i")
    ensures !ValidEmail("@mail.io")
  {
    var g := "ann@mail.i";
    assert g[1] != '.' && g[2] != '.' && g[3] != '.' && g[4] != '.' && g[5] != '.' && g[6] != '.';
    var f := "@mail.io";
    assert f[1] != '@' && f[2] != '@' && f[3] != '@' && f[4] != '@' && f[5] != '@' && f[6] != '@' && f[7] != '@';
  }

  // ---------------------------------------------------------------------------
  // The operations on snapshots
  // ---------------------------------------------------------------------------

  /** The pointer a service hands to SetEntity: a user, or nil. */
  function AsEntity(u: Option<User>): Entity
  {
    match u
    case None => NilValue
    case Some(v) => UserValue(v)
  }

  /** FindAuthorByID: a cached user with a non-zero id is returned as it is; otherwise the
      store is asked, its answer (a user or nil) is cached under user:{id} with the write's
      failure ignored, and a store error is reported as "author not found". A cache read
      error counts as a miss. */
  function FindAuthorByIdSpec(c: CacheState, d: DbState, authorId: nat): Cached<Result<Option<User>>>
  {
    var idStr := UintToString(authorId);
    var cached := GetEntitySpec(c, "user", idStr, UserValue(ZeroUser));
    if cached.Ok? && cached.value.user.id != 0 then Cached(Ok(Some(cached.value.user)), c)
    else
      match SelectUser(d, authorId)
      case Err(_) => Cached(Err(AuthorNotFound), c)
      case Ok(author) => Cached(Ok(author), SetEntitySpec(c, "user", idStr, AsEntity(author), EntryTtl).cache)
  }

  /** The pair (user, error) that findUserByEmail returns. */
  datatype Lookup = Lookup(user: Option<User>, err: Option<Error>)

  /** findUserByEmail as written: a cached user with a non-empty email is returned; otherwise
      the store is asked and a user it finds is cached under user:{email}; but after a
      successful write the function returns no user at all. Only a failed write returns the
      store's user, together with the cache's error. */
  function FindUserByEmailSpec(c: CacheState, d: DbState, email: string): Cached<Lookup>
  {
    var cached := GetEntitySpec(c, "user", email, UserValue(ZeroUser));
    if cached.Err? then Cached(Lookup(None, Some(FailedToCheckExistingEmailInRedis)), c)
    else if cached.value.user.email != "" then Cached(Lookup(Some(cached.value.user), None), c)
    else
      match SelectUserByEmail(d, email)
      case Err(_) => Cached(Lookup(None, Some(FailedToCheckExistingEmailInDatabase)), c)
      case Ok(None) => Cached(Lookup(None, None), c)
      case Ok(Some(u)) =>
        var stored := SetEntitySpec(c, "user", u.email, UserValue(u), EntryTtl);
        if stored.out.Some? then Cached(Lookup(Some(u), stored.out), stored.cache)
        else Cached(Lookup(None, None), stored.cache)
  }

  /** findUserByEmail as evidently intended: the user the store finds is returned whether or
      not caching it succeeded. It writes and fails as the lookup as written does, answers the
      same user where that one answers a user, and answers no user and no error only when no
      stored user has the email. */
  function FindUserByEmailIntended(c: CacheState, d: DbState, email: string): (r: Cached<Lookup>)
    ensures r.cache == FindUserByEmailSpec(c, d, email).cache
    ensures r.out.err == FindUserByEmailSpec(c, d, email).out.err
    ensures FindUserByEmailSpec(c, d, email).out.user.Some? ==> r.out.user == FindUserByEmailSpec(c, d, email).out.user
    ensures r.out == Lookup(None, None) ==> forall u :: u in d.users ==> u.email != email
  {
    var cached := GetEntitySpec(c, "user", email, UserValue(ZeroUser));
    if cached.Err? then Cached(Lookup(None, Some(FailedToCheckExistingEmailInRedis)), c)
    else if cached.value.user.email != "" then Cached(Lookup(Some(cached.value.user), None), c)
    else
      match SelectUserByEmail(d, email)
      case Err(_) => Cached(Lookup(None, Some(FailedToCheckExistingEmailInDatabase)), c)
      case Ok(None) => Cached(Lookup(None, None), c)
      case Ok(Some(u)) =>
        var stored := SetEntitySpec(c, "user", u.email, UserValue(u), EntryTtl);
        Cached(Lookup(Some(u), stored.out), stored.cache)
  }

  /** The user that Register creates: no id or timestamps yet, the hash as the password. */
  function NewUserEntity(req: UserRequest, hash: string): User
  {
    User(0, req.name, req.email, hash, ZeroTime, ZeroTime)
  }

  /** Register after the email lookup: reject on a lookup error or an existing user, create
      the row, cache it under user:{email} (a failure is fatal, though the row stays), then
      sign a token. */
  function RegisterAfterLookup(found: Cached<Lookup>, d: DbState, req: UserRequest, hash: string,
                               sign: (string, nat) -> Option<string>, now: Time): Outcome<Result<UserResponse>>
  {
    if found.out.err.Some? then Outcome(Err(FailedToCheckExistingEmail), found.cache, d)
    else if found.out.user.Some? then Outcome(Err(EmailAlreadyInUse), found.cache, d)
    else
      var created := InsertUser(d, NewUserEntity(req, hash), now);
      if created.out.Err? then Outcome(Err(FailedToCreateUser), found.cache, created.db)
      else
        var u := created.out.value;
        var stored := SetEntitySpec(found.cache, "user", u.email, UserValue(u), EntryTtl);
        if stored.out.Some? then Outcome(Err(FailedToStoreUserInRedis), stored.cache, created.db)
        else
          match sign(u.email, u.id)
          case None => Outcome(Err(CouldNotGenerateToken), stored.cache, created.db)
          case Some(token) => Outcome(Ok(ToUserResponse(u, token)), stored.cache, created.db)
  }

  /** Register: `hashed` is the outcome of hashing the password (None: hashing failed) and
      `sign` the token signer. */
  function RegisterSpec(c: CacheState, d: DbState, req: UserRequest, hashed: Option<string>,
                        sign: (string, nat) -> Option<string>, now: Time): Outcome<Result<UserResponse>>
  {
    if !ValidEmail(req.email) then Outcome(Err(InvalidEmailFormat), c, d)
    else if hashed.None? then Outcome(Err(PasswordHashingFailed), c, d)
    else RegisterAfterLookup(FindUserByEmailSpec(c, d, req.email), d, req, hashed.value, sign, now)
  }

  /** Register with the intended email lookup: the store gains a row only when no stored user
      has the email. */
  function RegisterIntended(c: CacheState, d: DbState, req: UserRequest, hashed: Option<string>,
                            sign: (string, nat) -> Option<string>, now: Time): (r: Outcome<Result<UserResponse>>)
    ensures r.db != d ==> forall u :: u in d.users ==> u.email != req.email
  {
    if !ValidEmail(req.email) then Outcome(Err(InvalidEmailFormat), c, d)
    else if hashed.None? then Outcome(Err(PasswordHashingFailed), c, d)
    else RegisterAfterLookup(FindUserByEmailIntended(c, d, req.email), d, req, hashed.value, sign, now)
  }

  /** Login after the email lookup: no user, or a password that does not match its hash, is
      "invalid credentials"; otherwise a token is signed. */
  function LoginAfterLookup(found: Cached<Lookup>, req: UserLoginRequest,
                            passwordMatches: (string, string) -> bool,
                            sign: (string, nat) -> Option<string>): Cached<Result<UserLoginResponse>>
  {
    if found.out.err.Some? then Cached(Err(FailedToCheckExistingEmail), found.cache)
    else if found.out.user.None? then Cached(Err(InvalidCredentials), found.cache)
    else
      var u := found.out.user.value;
      if !passwordMatches(u.passwordHash, req.password) then Cached(Err(InvalidCredentials), found.cache)
      else
        match sign(u.email, u.id)
        case None => Cached(Err(CouldNotGenerateToken), found.cache)
        case Some(token) => Cached(Ok(ToUserLoginResponse(u, token)), found.cache)
  }

  /** Login: `passwordMatches(hash, password)` is the bcrypt comparison. */
  function LoginSpec(c: CacheState, d: DbState, req: UserLoginRequest,
                     passwordMatches: (string, string) -> bool,
                     sign: (string, nat) -> Option<string>): Cached<Result<UserLoginResponse>>
  {
    if !ValidEmail(req.email) then Cached(Err(InvalidEmailFormat), c)
    else LoginAfterLookup(FindUserByEmailSpec(c, d, req.email), req, passwordMatches, sign)
  }

  /** Login with the intended email lookup: on a cold, working cache a stored user logs in
      exactly when the password matches the hash and a token can be signed. */
  function LoginIntended(c: CacheState, d: DbState, req: UserLoginRequest,
                         passwordMatches: (string, string) -> bool,
                         sign: (string, nat) -> Option<string>): (r: Cached<Result<UserLoginResponse>>)
    ensures var u := UserWithEmail(d.users, req.email);
      && ValidEmail(req.email) && !c.getFails && !c.setFails && !Live(c, UserEmailKey(req.email))
      && FindUserByEmail !in d.failing && u.Some? && UserEncodable(u.value)
      ==> (r.out.Ok? <==> passwordMatches(u.value.passwordHash, req.password) && sign(u.value.email, u.value.id).Some?)
  {
    if !ValidEmail(req.email) then Cached(Err(InvalidEmailFormat), c)
    else LoginAfterLookup(FindUserByEmailIntended(c, d, req.email), req, passwordMatches, sign)
  }

  // ---------------------------------------------------------------------------
  // Author lookup
  // ---------------------------------------------------------------------------

  /** A cached author with a non-zero id is answered from the cache, whatever the store holds,
      and the cache is left as it was. */
  lemma FindAuthorHitIgnoresStore(c: CacheState, d1: DbState, d2: DbState, authorId: nat)
    requires var g := GetEntitySpec(c, "user", UintToString(authorId), UserValue(ZeroUser));
      g.Ok? && g.value.user.id != 0
    ensures var g := GetEntitySpec(c, "user", UintToString(authorId), UserValue(ZeroUser));
      FindAuthorByIdSpec(c, d1, authorId) == FindAuthorByIdSpec(c, d2, authorId) == Cached(Ok(Some(g.value.user)), c)
  {
  }

  /** On a miss the store decides: its error becomes "author not found" with the cache
      untouched; its answer (a user or none) is returned whether or not caching it worked. */
  lemma FindAuthorFallsBackToStore(c: CacheState, d: DbState, authorId: nat)
    requires var g := GetEntitySpec(c, "user", UintToString(authorId), UserValue(ZeroUser));
      !(g.Ok? && g.value.user.id != 0)
    ensures SelectUser(d, authorId).Err? ==> FindAuthorByIdSpec(c, d, authorId) == Cached(Err(AuthorNotFound), c)
    ensures SelectUser(d, authorId).Ok? ==>
      FindAuthorByIdSpec(c, d, authorId).out == Ok(UserWithId(d.users, authorId))
    ensures FindAuthorByIdSpec(c.(setFails := true), d, authorId).out == FindAuthorByIdSpec(c.(setFails := false), d, authorId).out
  {
    var g := GetEntitySpec(c, "user", UintToString(authorId), UserValue(ZeroUser));
    assert GetEntitySpec(c.(setFails := true), "user", UintToString(authorId), UserValue(ZeroUser)) == g;
    assert GetEntitySpec(c.(setFails := false), "user", UintToString(authorId), UserValue(ZeroUser)) == g;
  }

  /** In a coherent cache over a valid store, an author found is the user with the id asked
      for (so never the zero user), and the cache stays coherent. */
  lemma FindAuthorResultFits(c: CacheState, d: DbState, authorId: nat)
    requires Coherent(c) && Valid(d)
    ensures var r := FindAuthorByIdSpec(c, d, authorId);
      (r.out.Ok? && r.out.value.Some? ==> r.out.value.value.id == authorId && authorId != 0)
      && Coherent(r.cache)
  {
    CachedUserFits(c, authorId);
    var g := GetEntitySpec(c, "user", UintToString(authorId), UserValue(ZeroUser));
    if !(g.Ok? && g.value.user.id != 0) {
      var found := SelectUser(d, authorId);
      if found.Ok? {
        if found.value.Some? {
          var u := found.value.value;
          assert u in d.users;
        }
        CoherentAfterUserIdWrite(c, authorId, AsEntity(found.value), EntryTtl);
      }
    }
  }

  /** An author read from the store and cached is answered from the cache next time, whatever
      the store holds then. */
  lemma FindAuthorWarmsCache(c: CacheState, d: DbState, d2: DbState, authorId: nat)
    requires !c.getFails && !c.setFails
    requires var g := GetEntitySpec(c, "user", UintToString(authorId), UserValue(ZeroUser));
      !(g.Ok? && g.value.user.id != 0)
    requires SelectUser(d, authorId).Ok? && SelectUser(d, authorId).value.Some?
    requires var u := SelectUser(d, authorId).value.value; u.id != 0 && UserEncodable(u)
    ensures var first := FindAuthorByIdSpec(c, d, authorId);
      FindAuthorByIdSpec(first.cache, d2, authorId) == Cached(first.out, first.cache)
  {
    var u := SelectUser(d, authorId).value.value;
    GetAfterSet(c, "user", UintToString(authorId), UserValue(u), EntryTtl, UserValue(ZeroUser));
  }

  // ---------------------------------------------------------------------------
  // Email lookup
  // ---------------------------------------------------------------------------

  /** A cache read error ends the lookup with its own error; a cached user with an email is
      answered from the cache, whatever the store holds. Neither touches the cache. */
  lemma LookupAnsweredByCache(c: CacheState, d1: DbState, d2: DbState, email: string)
    ensures c.getFails ==>
      FindUserByEmailSpec(c, d1, email) == Cached(Lookup(None, Some(FailedToCheckExistingEmailInRedis)), c)
    ensures var g := GetEntitySpec(c, "user", email, UserValue(ZeroUser));
      g.Ok? && g.value.user.email != "" ==>
        FindUserByEmailSpec(c, d1, email) == FindUserByEmailSpec(c, d2, email) == Cached(Lookup(Some(g.value.user), None), c)
  {
  }

  /** The lookup keeps the cache layout, and a user it returns with the write-back's error is
      the store's user with the email asked for. */
  lemma LookupKeepsCoherent(c: CacheState, d: DbState, email: string)
    requires Coherent(c) && '@' in email
    ensures var r := FindUserByEmailSpec(c, d, email);
      (r.out.user.Some? && r.out.err.Some? ==> r.out.user.value.email == email && r.out.user.value in d.users)
      && Coherent(r.cache)
  {
    var g := GetEntitySpec(c, "user", email, UserValue(ZeroUser));
    if g.Ok? && g.value.user.email == "" {
      var found := SelectUserByEmail(d, email);
      if found.Ok? && found.value.Some? {
        CoherentAfterEmailWrite(c, email, UserValue(found.value.value), EntryTtl);
      }
    }
  }

  /** As written, the lookup returns a user without an error only when the cache held it. */
  lemma LookupUserOnlyFromCache(c: CacheState, d: DbState, email: string)
    ensures var r := FindUserByEmailSpec(c, d, email);
      r.out.user.Some? && r.out.err.None? ==>
        GetEntitySpec(c, "user", email, UserValue(ZeroUser)) == Ok(UserValue(r.out.user.value))
  {
  }

  /** The lookup as written never writes the store and never writes a key other than
      user:{email}. */
  lemma LookupWritesOnlyEmailKey(c: CacheState, d: DbState, email: string, key: string)
    requires key != UserEmailKey(email)
    ensures CachedEntity(FindUserByEmailSpec(c, d, email).cache, key) == CachedEntity(c, key)
  {
    var g := GetEntitySpec(c, "user", email, UserValue(ZeroUser));
    if g.Ok? && g.value.user.email == "" {
      var found := SelectUserByEmail(d, email);
      if found.Ok? && found.value.Some? {
        CachedEntityAfterSet(c, "user", email, UserValue(found.value.value), EntryTtl, key);
      }
    }
  }

  /** On a cold cache, a user stored under the email and a working cache, the lookup as
      written caches the stored user under user:{email} for 24 hours, and then reports no user
      and no error. */
  lemma LookupMissesStoredUser(c: CacheState, d: DbState, email: string, u: User)
    requires !c.getFails && !c.setFails && !Live(c, UserEmailKey(email))
    requires FindUserByEmail !in d.failing && UserWithEmail(d.users, email) == Some(u) && UserEncodable(u)
    ensures FindUserByEmailSpec(c, d, email).out == Lookup(None, None)
    ensures var r := FindUserByEmailSpec(c, d, email).cache;
      CachedEntity(r, UserEmailKey(email)) == Some(UserValue(u))
      && r.entries[UserEmailKey(email)].expiresAt == Some(c.clock + EntryTtl)
  {
  }

  /** On a cold cache whose writes fail, the lookup returns the stored user together with the
      cache's error. */
  lemma LookupReportsFailedWrite(c: CacheState, d: DbState, email: string, u: User)
    requires !c.getFails && c.setFails && !Live(c, UserEmailKey(email))
    requires FindUserByEmail !in d.failing && UserWithEmail(d.users, email) == Some(u) && UserEncodable(u)
    ensures FindUserByEmailSpec(c, d, email).out == Lookup(Some(u), Some(RedisClientError))
  {
    MissLeavesTargetUnchanged(c, "user", email, UserValue(ZeroUser));
  }

  /** Consequently a registered user with the right password is refused at login when the
      cache does not hold them. */
  lemma LoginRefusesStoredUser(c: CacheState, d: DbState, req: UserLoginRequest, u: User,
                               passwordMatches: (string, string) -> bool, sign: (string, nat) -> Option<string>)
    requires ValidEmail(req.email)
    requires !c.getFails && !c.setFails && !Live(c, UserEmailKey(req.email))
    requires FindUserByEmail !in d.failing && UserWithEmail(d.users, req.email) == Some(u) && UserEncodable(u)
    requires passwordMatches(u.passwordHash, req.password)
    ensures LoginSpec(c, d, req, passwordMatches, sign).out == Err(InvalidCredentials)
  {
    LookupMissesStoredUser(c, d, req.email, u);
  }

  /** ... and an email already held by a stored user is registered a second time. */
  lemma RegisterDuplicatesStoredEmail(c: CacheState, d: DbState, req: UserRequest, hash: string, u: User,
                                      sign: (string, nat) -> Option<string>, now: Time)
    requires ValidEmail(req.email)
    requires !c.getFails && !c.setFails && !Live(c, UserEmailKey(req.email))
    requires FindUserByEmail !in d.failing && CreateUser !in d.failing
    requires UserWithEmail(d.users, req.email) == Some(u) && UserEncodable(u)
    ensures var r := RegisterSpec(c, d, req, Some(hash), sign, now);
      |r.db.users| == |d.users| + 1 && r.db.users[|d.users|].email == u.email && u in r.db.users
  {
    LookupMissesStoredUser(c, d, req.email, u);
  }

  /** The intended lookup finds the stored user on a cold cache, and reports no error when
      caching it works. */
  lemma IntendedLookupFindsStoredUser(c: CacheState, d: DbState, email: string)
    requires !c.getFails && !Live(c, UserEmailKey(email)) && FindUserByEmail !in d.failing
    ensures FindUserByEmailIntended(c, d, email).out.user == UserWithEmail(d.users, email)
    ensures UserWithEmail(d.users, email).Some? && !c.setFails && UserEncodable(UserWithEmail(d.users, email).value) ==>
      FindUserByEmailIntended(c, d, email).out.err.None?
  {
  }

  /** With the intended lookup the right password logs a stored user in, and a stored email
      is refused at registration without writing the store. */
  lemma IntendedLookupServesLoginAndRegister(c: CacheState, d: DbState, u: User, password: string, name: string,
                                             hash: string, passwordMatches: (string, string) -> bool,
                                             sign: (string, nat) -> Option<string>, now: Time)
    requires ValidEmail(u.email)
    requires !c.getFails && !c.setFails && !Live(c, UserEmailKey(u.email))
    requires FindUserByEmail !in d.failing && UserWithEmail(d.users, u.email) == Some(u) && UserEncodable(u)
    requires passwordMatches(u.passwordHash, password) && sign(u.email, u.id).Some?
    ensures LoginIntended(c, d, UserLoginRequest(u.email, password), passwordMatches, sign).out
      == Ok(ToUserLoginResponse(u, sign(u.email, u.id).value))
    ensures var r := RegisterIntended(c, d, UserRequest(name, u.email, password), Some(hash), sign, now);
      r.out == Err(EmailAlreadyInUse) && r.db == d
  {
    IntendedLookupFindsStoredUser(c, d, u.email);
  }

  // ---------------------------------------------------------------------------
  // Register and login
  // ---------------------------------------------------------------------------

  /** A malformed email or a failed hash is refused before the cache or the store is read. */
  lemma RegisterValidatesFirst(c: CacheState, d: DbState, req: UserRequest, hashed: Option<string>,
                               sign: (string, nat) -> Option<string>, now: Time)
    ensures !ValidEmail(req.email) ==> RegisterSpec(c, d, req, hashed, sign, now) == Outcome(Err(InvalidEmailFormat), c, d)
    ensures ValidEmail(req.email) && hashed.None? ==>
      RegisterSpec(c, d, req, hashed, sign, now) == Outcome(Err(PasswordHashingFailed), c, d)
  {
  }

  /** Register refuses an email exactly when the lookup found a user without error, and only
      writes the store when the lookup found neither. */
  lemma RegisterRefusesKnownEmail(c: CacheState, d: DbState, req: UserRequest, hash: string,
                                  sign: (string, nat) -> Option<string>, now: Time)
    requires ValidEmail(req.email)
    ensures var found := FindUserByEmailSpec(c, d, req.email);
      var r := RegisterSpec(c, d, req, Some(hash), sign, now);
      (r.out == Err(EmailAlreadyInUse) <==> found.out.err.None? && found.out.user.Some?)
      && (r.db != d ==> found.out == Lookup(None, None))
  {
  }

  /** A successful registration appended one user with the request's name and email and the
      hash, cached it under user:{email}, and answered with its id and a token signed for it;
      a failed cache write after the insert is reported although the row stays. */
  lemma RegisterCreatesUser(c: CacheState, d: DbState, req: UserRequest, hash: string,
                            sign: (string, nat) -> Option<string>, now: Time)
    requires ValidEmail(req.email) && Valid(d)
    ensures var r := RegisterSpec(c, d, req, Some(hash), sign, now);
      r.out.Ok? ==>
        && |r.db.users| == |d.users| + 1
        && r.db.users[..|d.users|] == d.users
        && var u := r.db.users[|d.users|];
        && u.name == req.name && u.email == req.email && u.passwordHash == hash && 0 < u.id
        && r.out.value.id == u.id && r.out.value.email == req.email
        && sign(u.email, u.id) == Some(r.out.value.token)
        && CachedEntity(r.cache, UserEmailKey(req.email)) == Some(UserValue(u))
    ensures var r := RegisterSpec(c, d, req, Some(hash), sign, now);
      r.out == Err(FailedToStoreUserInRedis) ==> |r.db.users| == |d.users| + 1
    ensures var r := RegisterSpec(c, d, req, Some(hash), sign, now);
      Valid(r.db) && r.db.posts == d.posts
  {
    var found := FindUserByEmailSpec(c, d, req.email);
    if found.out == Lookup(None, None) {
      var created := InsertUser(d, NewUserEntity(req, hash), now);
      if created.out.Ok? {
        var u := created.out.value;
        CachedEntityAfterSet(found.cache, "user", u.email, UserValue(u), EntryTtl, UserEmailKey(req.email));
        assert created.db.users[|d.users|] == u;
      }
    }
  }

  /** A failed insert ends Register with the store unchanged and the cache as the lookup left
      it: user:{email} is written only after the row is created. */
  lemma RegisterInsertFailureWritesNothing(c: CacheState, d: DbState, req: UserRequest, hash: string,
                                           sign: (string, nat) -> Option<string>, now: Time)
    requires ValidEmail(req.email)
    ensures var r := RegisterSpec(c, d, req, Some(hash), sign, now);
      r.out == Err(FailedToCreateUser) ==> r.cache == FindUserByEmailSpec(c, d, req.email).cache && r.db == d
  {
  }

  /** Register keeps the cache layout. */
  lemma RegisterKeepsCoherent(c: CacheState, d: DbState, req: UserRequest, hashed: Option<string>,
                              sign: (string, nat) -> Option<string>, now: Time)
    requires Coherent(c)
    ensures Coherent(RegisterSpec(c, d, req, hashed, sign, now).cache)
  {
    if ValidEmail(req.email) && hashed.Some? {
      ValidEmailHasOneAt(req.email);
      LookupKeepsCoherent(c, d, req.email);
      var found := FindUserByEmailSpec(c, d, req.email);
      if found.out == Lookup(None, None) {
        var created := InsertUser(d, NewUserEntity(req, hashed.value), now);
        if created.out.Ok? {
          CoherentAfterEmailWrite(found.cache, req.email, UserValue(created.out.value), EntryTtl);
        }
      }
    }
  }

  /** Login keeps the cache layout: its only write is the email lookup's. */
  lemma LoginKeepsCoherent(c: CacheState, d: DbState, req: UserLoginRequest,
                           passwordMatches: (string, string) -> bool, sign: (string, nat) -> Option<string>)
    requires Coherent(c)
    ensures Coherent(LoginSpec(c, d, req, passwordMatches, sign).cache)
  {
    if ValidEmail(req.email) {
      ValidEmailHasOneAt(req.email);
      LookupKeepsCoherent(c, d, req.email);
    }
  }

  /** Login refuses with "invalid credentials" exactly when the lookup succeeded without a
      user, or with a user whose hash does not match the password; it succeeds only for that
      user, with a token signed for it. Login never writes the store. */
  lemma LoginChecksCredentials(c: CacheState, d: DbState, req: UserLoginRequest,
                               passwordMatches: (string, string) -> bool, sign: (string, nat) -> Option<string>)
    requires ValidEmail(req.email)
    ensures var found := FindUserByEmailSpec(c, d, req.email);
      var r := LoginSpec(c, d, req, passwordMatches, sign);
      && (r.out == Err(InvalidCredentials) <==>
            found.out.err.None?
            && (found.out.user.None? || !passwordMatches(found.out.user.value.passwordHash, req.password)))
      && (r.out.Ok? ==>
            && found.out.user.Some? && found.out.err.None?
            && passwordMatches(found.out.user.value.passwordHash, req.password)
            && r.out.value == ToUserLoginResponse(found.out.user.value, sign(found.out.user.value.email, found.out.user.value.id).value)
            && sign(found.out.user.value.email, found.out.user.value.id).Some?)
      && r.cache == found.cache
  {
  }

  /** Login refuses a malformed email before reading anything. */
  lemma LoginValidatesFirst(c: CacheState, d: DbState, req: UserLoginRequest,
                            passwordMatches: (string, string) -> bool, sign: (string, nat) -> Option<string>)
    ensures !ValidEmail(req.email) ==> LoginSpec(c, d, req, passwordMatches, sign) == Cached(Err(InvalidEmailFormat), c)
  {
  }

  // ---------------------------------------------------------------------------
  // The service
  // ---------------------------------------------------------------------------

  class UserService {
    const db: Database
    const redis: RedisService

    constructor (db: Database, redis: RedisService)
      ensures this.db == db && this.redis == redis
    {
      this.db := db;
      this.redis := redis;
    }

    method FindAuthorByID(authorId: nat) returns (r: Result<Option<User>>)
      modifies redis.client`entries
      ensures Cached(r, redis.client.State()) == FindAuthorByIdSpec(old(redis.client.State()), db.State(), authorId)
    {
      var idStr := UintToString(authorId);
      var cached := redis.GetEntity("user", idStr, UserValue(ZeroUser));
      if cached.Ok? && cached.value.user.id != 0 {
        return Ok(Some(cached.value.user));
      }
      var author := db.FindUserByID(authorId);
      if author.Err? {
        return Err(AuthorNotFound);
      }
      var ignored := redis.SetEntity("user", idStr, AsEntity(author.value), EntryTtl);
      return Ok(author.value);
    }

    method FindUserByEmail(email: string) returns (user: Option<User>, err: Option<Error>)
      modifies redis.client`entries
      ensures Cached(Lookup(user, err), redis.client.State()) == FindUserByEmailSpec(old(redis.client.State()), db.State(), email)
    {
      var cached := redis.GetEntity("user", email, UserValue(ZeroUser));
      if cached.Err? {
        return None, Some(FailedToCheckExistingEmailInRedis);
      }
      if cached.value.user.email == "" {
        var fromDb := db.FindUserByEmail(email);
        if fromDb.Err? {
          return None, Some(FailedToCheckExistingEmailInDatabase);
        }
        if fromDb.value.Some? {
          var u := fromDb.value.value;
          var setErr := redis.SetEntity("user", u.email, UserValue(u), EntryTtl);
          if setErr.Some? {
            return Some(u), setErr;
          }
        }
        return None, None;
      }
      return Some(cached.value.user), None;
    }

    method Register(req: UserRequest, hashed: Option<string>, sign: (string, nat) -> Option<string>, now: Time)
      returns (r: Result<UserResponse>)
      modifies redis.client`entries, db`users, db`nextUserId
      ensures Outcome(r, redis.client.State(), db.State())
        == RegisterSpec(old(redis.client.State()), old(db.State()), req, hashed, sign, now)
    {
      if !ValidEmail(req.email) {
        return Err(InvalidEmailFormat);
      }
      if hashed.None? {
        return Err(PasswordHashingFailed);
      }
      var existing, err := FindUserByEmail(req.email);
      if err.Some? {
        return Err(FailedToCheckExistingEmail);
      }
      if existing.Some? {
        return Err(EmailAlreadyInUse);
      }
      var created := db.CreateUser(NewUserEntity(req, hashed.value), now);
      if created.Err? {
        return Err(FailedToCreateUser);
      }
      var u := created.value;
      var setErr := redis.SetEntity("user", u.email, UserValue(u), EntryTtl);
      if setErr.Some? {
        return Err(FailedToStoreUserInRedis);
      }
      var token := sign(u.email, u.id);
      if token.None? {
        return Err(CouldNotGenerateToken);
      }
      return Ok(ToUserResponse(u, token.value));
    }

    method Login(req: UserLoginRequest, passwordMatches: (string, string) -> bool, sign: (string, nat) -> Option<string>)
      returns (r: Result<UserLoginResponse>)
      modifies redis.client`entries
      ensures Cached(r, redis.client.State()) == LoginSpec(old(redis.client.State()), db.State(), req, passwordMatches, sign)
    {
      if !ValidEmail(req.email) {
        return Err(InvalidEmailFormat);
      }
      var existing, err := FindUserByEmail(req.email);
      if err.Some? {
        return Err(FailedToCheckExistingEmail);
      }
      if existing.None? {
        return Err(InvalidCredentials);
      }
      var u := existing.value;
      if !passwordMatches(u.passwordHash, req.password) {
        return Err(InvalidCredentials);
      }
      var token := sign(u.email, u.id);
      if token.None? {
        return Err(CouldNotGenerateToken);
      }
      return Ok(ToUserLoginResponse(u, token.value));
    }
  }
}
