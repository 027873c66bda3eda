/** CommentServiceImpl: commenting on a post that GetPostByID can find, and listing and
    counting a post's comments. */
module Comments {
  import opened Common
  import opened Dto
  import opened Entities
  import opened Keys
  import opened Redis
  import opened Store
  import opened Posts
  import opened PostLemmas

  /** The comment Create inserts: no id or creation time yet. */
  function NewComment(postId: nat, req: CommentRequest): Comment
  {
    Comment(0, postId, req.authorName, req.content, ZeroTime)
  }

  /** Create: the post must be found by GetPostByID (cache first); then the comment row is
      inserted and the store's error passed on as it is. */
  function CreateSpec(c: CacheState, d: DbState, postId: nat, req: CommentRequest, now: Time): Outcome<Result<CommentResponse>>
  {
    var got := GetPostByIdSpec(c, d, postId);
    if got.out.Err? then Outcome(Err(got.out.error), got.cache, d)
    else
      var created := InsertComment(d, NewComment(postId, req), now);
      if created.out.Err? then Outcome(Err(created.out.error), got.cache, created.db)
      else Outcome(Ok(ToCommentResponse(created.out.value)), got.cache, created.db)
  }

  /** The responses GetAllByPostID builds: one per listed comment, in order. */
  function CommentResponses(rows: seq<Comment>): (r: seq<CommentResponse>)
    ensures |r| == |rows|
    ensures forall i :: 0 <= i < |rows| ==> r[i] == ToCommentResponse(rows[i])
  {
    if |rows| == 0 then []
    else
      var rest := CommentResponses(rows[1..]);
      assert forall i :: 1 <= i < |rows| ==> rows[i] == rows[1..][i - 1];
      [ToCommentResponse(rows[0])] + rest
  }

  /** GetAllByPostID: the page and page size are clamped, then the repository's page for the
      post is listed; `findAll` stands for the filtered, sorted, paged query. */
  function GetAllByPostIdSpec(postId: nat, q: Query, findAll: (nat, Query) -> Result<seq<Comment>>): Result<seq<CommentResponse>>
  {
    var clamped := q.(page := ClampPage(q.page), pageSize := ClampPageSize(q.pageSize));
    match findAll(postId, clamped)
    case Err(e) => Err(e)
    case Ok(rows) => Ok(CommentResponses(rows))
  }

  // ---------------------------------------------------------------------------
  // Properties
  // ---------------------------------------------------------------------------

  /** A post GetPostByID cannot produce ends the request with its error: no row is
      written. */
  lemma CreateNeedsPost(c: CacheState, d: DbState, postId: nat, req: CommentRequest, now: Time)
    ensures var got := GetPostByIdSpec(c, d, postId);
      var o := CreateSpec(c, d, postId, req, now);
      got.out.Err? ==> o == Outcome(Err(got.out.error), got.cache, d)
  {
  }

  /** A created comment is appended to the table with the post id, author name and content
      asked for, the current time, and an id above every earlier comment's; the response
      describes that row. Creating a comment writes nothing to the cache beyond what
      GetPostByID wrote, and no post. A failed insert is reported as the store's error, and no
      failure writes the store. */
  lemma CreateAppendsComment(c: CacheState, d: DbState, postId: nat, req: CommentRequest, now: Time)
    requires Valid(d)
    ensures var o := CreateSpec(c, d, postId, req, now);
      o.out.Ok? ==>
        && |o.db.comments| == |d.comments| + 1
        && o.db.comments[..|d.comments|] == d.comments
        && var cm := o.db.comments[|d.comments|];
        && cm.postId == postId && cm.authorName == req.authorName && cm.content == req.content
        && cm.createdAt == now
        && 0 < cm.id && (forall k :: k in d.comments ==> k.id < cm.id)
        && o.out.value == ToCommentResponse(cm)
        && o.db.posts == d.posts && o.db.nextPostId == d.nextPostId
    ensures var o := CreateSpec(c, d, postId, req, now);
      o.out.Err? ==> o.db == d
    ensures var o := CreateSpec(c, d, postId, req, now);
      GetPostByIdSpec(c, d, postId).out.Ok? && CreateComment in d.failing ==> o.out == Err(DatabaseError)
    ensures var o := CreateSpec(c, d, postId, req, now);
      o.cache == GetPostByIdSpec(c, d, postId).cache && Valid(o.db)
  {
    var o := CreateSpec(c, d, postId, req, now);
    if o.out.Ok? {
      var created := InsertComment(d, NewComment(postId, req), now);
      assert o.db.comments[|d.comments|] == created.out.value;
    }
  }

  /** The post check believes the cache: a post still cached after its row was deleted
      takes comments. */
  lemma CreateTrustsCachedPost(c: CacheState, d: DbState, postId: nat, req: CommentRequest, now: Time, p: Post)
    requires !c.getFails && Live(c, PostKey(postId)) && c.entries[PostKey(postId)].payload == Json(PostValue(p))
    requires p.id != 0 && p.author.Some? && p.author.value.id != 0
    requires postId !in d.posts && CreateComment !in d.failing
    ensures var o := CreateSpec(c, d, postId, req, now);
      o.out.Ok? && o.out.value.postId == postId && postId !in o.db.posts
      && |o.db.comments| == |d.comments| + 1 && o.db.comments[|d.comments|].postId == postId
  {
  }

  /** Create never reports "postID does not exist": GetPostByID answers a post or an error,
      never neither, so that check is dead. */
  lemma CreateNeverReportsMissingPostId(c: CacheState, d: DbState, postId: nat, req: CommentRequest, now: Time)
    ensures CreateSpec(c, d, postId, req, now).out != Err(PostIdDoesNotExist)
  {
    var got := GetPostByIdSpec(c, d, postId);
    var f := PostFromCacheSpec(c, d, postId);
    assert got.out != Err(PostIdDoesNotExist);
  }

  /** Commenting keeps the cache layout and a valid store. */
  lemma CreateKeepsCoherent(c: CacheState, d: DbState, postId: nat, req: CommentRequest, now: Time)
    requires Coherent(c) && Valid(d)
    ensures var o := CreateSpec(c, d, postId, req, now);
      Coherent(o.cache) && Valid(o.db)
  {
    GetPostResultFits(c, d, postId);
  }

  // ---------------------------------------------------------------------------
  // The service
  // ---------------------------------------------------------------------------

  class CommentService {
    const db: Database
    const posts: PostService

    /** The post service shares this service's store. */
    predicate Valid()
      reads this, posts, posts.users
    {
      posts.db == db && posts.Valid()
    }

    constructor (db: Database, posts: PostService)
      requires posts.db == db && posts.Valid()
      ensures this.db == db && this.posts == posts
      ensures Valid()
    {
      this.db := db;
      this.posts := posts;
    }

    method Create(postId: nat, req: CommentRequest, now: Time) returns (r: Result<CommentResponse>)
      requires Valid()
      modifies posts.redis.client`entries, db`comments, db`nextCommentId
      ensures Outcome(r, posts.redis.client.State(), db.State())
        == CreateSpec(old(posts.redis.client.State()), old(db.State()), postId, req, now)
    {
      var post := posts.GetPostByID(postId);
      if post.Err? {
        return Err(post.error);
      }
      var created := db.CreateComment(NewComment(postId, req), now);
      if created.Err? {
        return Err(created.error);
      }
      return Ok(ToCommentResponse(created.value));
    }

    method GetAllByPostID(postId: nat, params: QueryParams, findAll: (nat, Query) -> Result<seq<Comment>>)
      returns (r: Result<seq<CommentResponse>>)
      modifies params`page, params`pageSize
      ensures params.Snapshot() == old(params.Snapshot()).(page := ClampPage(old(params.page)), pageSize := ClampPageSize(old(params.pageSize)))
      ensures r == GetAllByPostIdSpec(postId, old(params.Snapshot()), findAll)
    {
      if params.page < 1 {
        params.page := 1;
      }
      if params.pageSize < 1 {
        params.pageSize := DefaultPageSize;
      }
      var listed := findAll(postId, params.Snapshot());
      if listed.Err? {
        return Err(listed.error);
      }
      var rows := listed.value;
      var responses: seq<CommentResponse> := [];
      var i := 0;
      while i < |rows|
        invariant 0 <= i <= |rows|
        invariant responses == CommentResponses(rows[..i])
        invariant params.Snapshot() == old(params.Snapshot()).(page := ClampPage(old(params.page)), pageSize := ClampPageSize(old(params.pageSize)))
      {
        assert rows[..i + 1] == rows[..i] + [rows[i]];
        CommentResponsesAppend(rows[..i], rows[i]);
        responses := responses + [ToCommentResponse(rows[i])];
        i := i + 1;
      }
      assert rows[..|rows|] == rows;
      return Ok(responses);
    }

    method CountAllByPostID(postId: nat, params: QueryParams, count: (nat, Query) -> Result<int>) returns (r: Result<int>)
      ensures r == count(postId, params.Snapshot())
    {
      r := count(postId, params.Snapshot());
    }
  }

  /** Listing one more comment adds its response at the end. */
  lemma CommentResponsesAppend(rows: seq<Comment>, cm: Comment)
    ensures CommentResponses(rows + [cm]) == CommentResponses(rows) + [ToCommentResponse(cm)]
  {
    var r := CommentResponses(rows + [cm]);
    assert (rows + [cm])[|rows|] == cm;
    assert forall i :: 0 <= i < |rows| ==> (rows + [cm])[i] == rows[i];
  }
}
