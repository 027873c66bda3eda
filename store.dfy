/** The relational store behind the repositories: a posts table keyed by id, a users table
    and a comments table in primary-key order, auto-increment counters, and the calls that
    fail in transport during the current request. Not-found is an empty answer, not an
    error. */
module Store {
  import opened Common
  import opened Entities
  import opened Redis

  /** The repository calls whose transport can fail. */
  datatype DbCall =
    | FindPostById | CreatePost | UpdatePost | DeletePost
    | FindUserById | FindUserByEmail | CreateUser | CreateComment

  datatype DbState = DbState(
    posts: map<nat, Post>, users: seq<User>, comments: seq<Comment>,
    nextPostId: nat, nextUserId: nat, nextCommentId: nat, failing: set<DbCall>)

  /** The outcome of a store operation and the store it leaves behind. */
  datatype Stored<T> = Stored(out: T, db: DbState)

  /** The outcome of a service operation, with the cache and the store it leaves behind. */
  datatype Outcome<T> = Outcome(out: T, cache: CacheState, db: DbState)

  /** Rows sit under their own id, ids are positive and below the counters, a bare post row
      carries no embedded author, and user and comment ids grow along their tables. */
  ghost predicate Valid(d: DbState)
  {
    && 0 < d.nextPostId && 0 < d.nextUserId && 0 < d.nextCommentId
    && (forall id :: id in d.posts ==> d.posts[id].id == id && 0 < id < d.nextPostId && d.posts[id].author.None?)
    && (forall i :: 0 <= i < |d.users| ==> 0 < d.users[i].id < d.nextUserId)
    && (forall i, j :: 0 <= i < j < |d.users| ==> d.users[i].id < d.users[j].id)
    && (forall i :: 0 <= i < |d.comments| ==> 0 < d.comments[i].id < d.nextCommentId)
    && (forall i, j :: 0 <= i < j < |d.comments| ==> d.comments[i].id < d.comments[j].id)
  }

  /** `First(&user, id)`: the row with the id, if any. */
  function UserWithId(users: seq<User>, id: nat): (r: Option<User>)
    ensures r.Some? ==> r.value.id == id && r.value in users
    ensures r.None? ==> forall u :: u in users ==> u.id != id
  {
    if |users| == 0 then None
    else if users[0].id == id then Some(users[0])
    else UserWithId(users[1..], id)
  }

  /** `Where("email = ?", email).First(&user)`: the first row, in primary-key order, with the
      email, if any. */
  function UserWithEmail(users: seq<User>, email: string): (r: Option<User>)
    ensures r.Some? ==> r.value.email == email && r.value in users
    ensures r.None? ==> forall u :: u in users ==> u.email != email
    ensures r.Some? ==> exists i :: 0 <= i < |users| && users[i] == r.value
                                    && forall j :: 0 <= j < i ==> users[j].email != email
  {
    if |users| == 0 then None
    else if users[0].email == email then Some(users[0])
    else
      var r := UserWithEmail(users[1..], email);
      assert r.Some? ==> exists i :: 0 <= i < |users| - 1 && users[1..][i] == r.value
                                     && forall j :: 0 <= j < i ==> users[1..][j].email != email;
      r
  }

  /** A post row with its author preloaded (nil when the author row is missing). */
  function PostWithAuthor(d: DbState, id: nat): Option<Post>
  {
    if id in d.posts then Some(d.posts[id].(author := UserWithId(d.users, d.posts[id].authorId))) else None
  }

  /** PostRepository.FindByID. */
  function SelectPost(d: DbState, id: nat): Result<Option<Post>>
  {
    if FindPostById in d.failing then Err(DatabaseError) else Ok(PostWithAuthor(d, id))
  }

  /** UserRepository.FindByID. */
  function SelectUser(d: DbState, id: nat): Result<Option<User>>
  {
    if FindUserById in d.failing then Err(DatabaseError) else Ok(UserWithId(d.users, id))
  }

  /** UserRepository.FindByEmail. */
  function SelectUserByEmail(d: DbState, email: string): Result<Option<User>>
  {
    if FindUserByEmail in d.failing then Err(DatabaseError) else Ok(UserWithEmail(d.users, email))
  }

  /** The columns of a post; the embedded author is not a column. */
  function Row(p: Post): Post
  {
    p.(author := None)
  }

  /** An autoCreateTime/autoUpdateTime column: the store fills a zero time with the current one. */
  function Stamp(t: Time, now: Time): Time
  {
    if t == ZeroTime then now else t
  }

  /** PostRepository.Create: the row gets the next id, which is also set on the entity, and
      zero timestamps are filled in; the entity is otherwise stored as given. */
  function InsertPost(d: DbState, p: Post, now: Time): (s: Stored<Result<Post>>)
    ensures Valid(d) ==> Valid(s.db)
    ensures s.out.Err? ==> s.db == d
    ensures Valid(d) && s.out.Ok? ==> s.out.value.id !in d.posts && 0 < s.out.value.id
    ensures s.out.Ok? ==>
      && s.out.value == p.(id := s.out.value.id, createdAt := Stamp(p.createdAt, now), updatedAt := Stamp(p.updatedAt, now))
      && s.out.value.id == d.nextPostId
      && s.db == d.(posts := d.posts[s.out.value.id := Row(s.out.value)], nextPostId := d.nextPostId + 1)
  {
    if CreatePost in d.failing then Stored(Err(DatabaseError), d)
    else
      var q := p.(id := d.nextPostId, createdAt := Stamp(p.createdAt, now), updatedAt := Stamp(p.updatedAt, now));
      Stored(Ok(q), d.(posts := d.posts[q.id := Row(q)], nextPostId := d.nextPostId + 1))
  }

  /** PostRepository.Update (`Save`): every column of the row is overwritten; a row that is
      not there is inserted. */
  function SavePost(d: DbState, p: Post): (s: Stored<Option<Error>>)
    ensures Valid(d) && 0 < p.id ==> Valid(s.db)
    ensures s.out.Some? ==> s.db == d
    ensures s.out.None? ==>
      && s.db.posts == d.posts[p.id := Row(p)]
      && s.db == d.(posts := s.db.posts, nextPostId := s.db.nextPostId)
      && d.nextPostId <= s.db.nextPostId && p.id < s.db.nextPostId
  {
    if UpdatePost in d.failing then Stored(Some(DatabaseError), d)
    else Stored(None, d.(posts := d.posts[p.id := Row(p)],
                         nextPostId := if p.id < d.nextPostId then d.nextPostId else p.id + 1))
  }

  /** PostRepository.Delete: deleting a missing row is not an error. */
  function RemovePost(d: DbState, id: nat): (s: Stored<Option<Error>>)
    ensures Valid(d) ==> Valid(s.db)
    ensures s.out.Some? ==> s.db == d
    ensures s.out.None? ==> s.db == d.(posts := d.posts - {id})
  {
    if DeletePost in d.failing then Stored(Some(DatabaseError), d)
    else Stored(None, d.(posts := d.posts - {id}))
  }

  /** UserRepository.Create: the row gets the next id and its timestamps. */
  function InsertUser(d: DbState, u: User, now: Time): (s: Stored<Result<User>>)
    ensures Valid(d) ==> Valid(s.db)
    ensures s.out.Err? ==> s.db == d
    ensures s.out.Ok? ==>
      && s.out.value == u.(id := s.out.value.id, createdAt := Stamp(u.createdAt, now), updatedAt := Stamp(u.updatedAt, now))
      && s.db == d.(users := d.users + [s.out.value], nextUserId := d.nextUserId + 1)
    ensures Valid(d) && s.out.Ok? ==> 0 < s.out.value.id && forall v :: v in d.users ==> v.id < s.out.value.id
  {
    if CreateUser in d.failing then Stored(Err(DatabaseError), d)
    else
      var q := u.(id := d.nextUserId, createdAt := Stamp(u.createdAt, now), updatedAt := Stamp(u.updatedAt, now));
      Stored(Ok(q), d.(users := d.users + [q], nextUserId := d.nextUserId + 1))
  }

  /** CommentRepository.Create: the row gets the next id and its creation time. */
  function InsertComment(d: DbState, c: Comment, now: Time): (s: Stored<Result<Comment>>)
    ensures Valid(d) ==> Valid(s.db)
    ensures s.out.Err? ==> s.db == d
    ensures s.out.Ok? ==>
      && s.out.value == c.(id := s.out.value.id, createdAt := Stamp(c.createdAt, now))
      && s.db == d.(comments := d.comments + [s.out.value], nextCommentId := d.nextCommentId + 1)
    ensures Valid(d) && s.out.Ok? ==> 0 < s.out.value.id && forall k :: k in d.comments ==> k.id < s.out.value.id
  {
    if CreateComment in d.failing then Stored(Err(DatabaseError), d)
    else
      var q := c.(id := d.nextCommentId, createdAt := Stamp(c.createdAt, now));
      Stored(Ok(q), d.(comments := d.comments + [q], nextCommentId := d.nextCommentId + 1))
  }

  /** The database the repositories share. */
  class Database {
    var posts: map<nat, Post>
    var users: seq<User>
    var comments: seq<Comment>
    var nextPostId: nat
    var nextUserId: nat
    var nextCommentId: nat
    var failing: set<DbCall>

    function State(): DbState
      reads this
    {
      DbState(posts, users, comments, nextPostId, nextUserId, nextCommentId, failing)
    }

    constructor ()
      ensures State() == DbState(map[], [], [], 1, 1, 1, {})
      ensures Valid(State())
    {
      posts, users, comments := map[], [], [];
      nextPostId, nextUserId, nextCommentId := 1, 1, 1;
      failing := {};
    }

    method FindPostByID(id: nat) returns (r: Result<Option<Post>>)
      ensures r == SelectPost(State(), id)
    {
      if FindPostById in failing {
        return Err(DatabaseError);
      }
      if id in posts {
        var row := posts[id];
        var author := UserWithId(users, row.authorId);
        return Ok(Some(row.(author := author)));
      }
      return Ok(None);
    }

    method FindUserByID(id: nat) returns (r: Result<Option<User>>)
      ensures r == SelectUser(State(), id)
    {
      if FindUserById in failing {
        return Err(DatabaseError);
      }
      return Ok(UserWithId(users, id));
    }

    method FindUserByEmail(email: string) returns (r: Result<Option<User>>)
      ensures r == SelectUserByEmail(State(), email)
    {
      if DbCall.FindUserByEmail in failing {
        return Err(DatabaseError);
      }
      return Ok(UserWithEmail(users, email));
    }

    method CreatePost(p: Post, now: Time) returns (r: Result<Post>)
      modifies this`posts, this`nextPostId
      ensures Stored(r, State()) == InsertPost(old(State()), p, now)
    {
      if DbCall.CreatePost in failing {
        return Err(DatabaseError);
      }
      var q := p.(id := nextPostId, createdAt := Stamp(p.createdAt, now), updatedAt := Stamp(p.updatedAt, now));
      posts := posts[q.id := Row(q)];
      nextPostId := nextPostId + 1;
      return Ok(q);
    }

    method UpdatePost(p: Post) returns (err: Option<Error>)
      modifies this`posts, this`nextPostId
      ensures Stored(err, State()) == SavePost(old(State()), p)
    {
      if DbCall.UpdatePost in failing {
        return Some(DatabaseError);
      }
      posts := posts[p.id := Row(p)];
      if nextPostId <= p.id {
        nextPostId := p.id + 1;
      }
      return None;
    }

    method DeletePost(id: nat) returns (err: Option<Error>)
      modifies this`posts
      ensures Stored(err, State()) == RemovePost(old(State()), id)
    {
      if DbCall.DeletePost in failing {
        return Some(DatabaseError);
      }
      posts := posts - {id};
      return None;
    }

    method CreateUser(u: User, now: Time) returns (r: Result<User>)
      modifies this`users, this`nextUserId
      ensures Stored(r, State()) == InsertUser(old(State()), u, now)
    {
      if DbCall.CreateUser in failing {
        return Err(DatabaseError);
      }
      var q := u.(id := nextUserId, createdAt := Stamp(u.createdAt, now), updatedAt := Stamp(u.updatedAt, now));
      users := users + [q];
      nextUserId := nextUserId + 1;
      return Ok(q);
    }

    method CreateComment(c: Comment, now: Time) returns (r: Result<Comment>)
      modifies this`comments, this`nextCommentId
      ensures Stored(r, State()) == InsertComment(old(State()), c, now)
    {
      if DbCall.CreateComment in failing {
        return Err(DatabaseError);
      }
      var q := c.(id := nextCommentId, createdAt := Stamp(c.createdAt, now));
      comments := comments + [q];
      nextCommentId := nextCommentId + 1;
      return Ok(q);
    }
  }
}
