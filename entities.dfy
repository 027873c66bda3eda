/** The stored records (User, Post, Comment) and their mappings to response records. */
module Entities {
  import opened Common
  import opened Dto

  /** A row of the users table. */
  datatype User = User(
    id: nat, name: string, email: string, passwordHash: string,
    createdAt: Time, updatedAt: Time)

  /** A post. `authorId` is the foreign key; `author` is the optional embedded *User, which
      is nil in a bare row, filled by a store join, and carried along in cache snapshots. */
  datatype Post = Post(
    id: nat, title: string, content: string, authorId: nat,
    createdAt: Time, updatedAt: Time, author: Option<User>)

  /** A comment; `authorName` is free text, not a user reference. */
  datatype Comment = Comment(
    id: nat, postId: nat, authorName: string, content: string, createdAt: Time)

  /** The zero values that a lookup target starts out as (`&entities.User{}`, `&entities.Post{}`). */
  const ZeroUser: User := User(0, "", "", "", ZeroTime, ZeroTime)
  const ZeroPost: Post := Post(0, "", "", 0, ZeroTime, ZeroTime, None)

  /** The post's columns and the author response handed in; the embedded author is not read. */
  function ToPostResponse(p: Post, author: AuthorResponse): (r: PostResponse)
    ensures r.id == p.id && r.title == p.title && r.content == p.content
    ensures r.authorId == p.authorId && r.author == author
    ensures r.createdAt == p.createdAt && r.updatedAt == p.updatedAt
  {
    PostResponse(p.id, p.title, p.content, p.authorId, author, p.createdAt, p.updatedAt)
  }

  /** The user's public fields and the token; the password hash is not among them. */
  function ToUserResponse(u: User, token: string): (r: UserResponse)
    ensures r.id == u.id && r.name == u.name && r.email == u.email && r.token == token
  {
    UserResponse(u.id, u.name, u.email, token)
  }

  /** The same fields as the registration response. */
  function ToUserLoginResponse(u: User, token: string): (r: UserLoginResponse)
    ensures r.id == u.id && r.name == u.name && r.email == u.email && r.token == token
  {
    UserLoginResponse(u.id, u.name, u.email, token)
  }

  /** The user's public fields, without a token. */
  function ToAuthorResponse(u: User): (r: AuthorResponse)
    ensures r.id == u.id && r.name == u.name && r.email == u.email
  {
    AuthorResponse(u.id, u.name, u.email)
  }

  function ToCommentResponse(c: Comment): (r: CommentResponse)
    ensures r.id == c.id && r.postId == c.postId && r.authorName == c.authorName
    ensures r.content == c.content && r.createdAt == c.createdAt
  {
    CommentResponse(c.id, c.postId, c.authorName, c.content, c.createdAt)
  }

  /** Two post responses agree exactly when the posts agree on every column and the author
      responses passed in agree: the embedded `author` of the post plays no part, and
      `authorId` comes from the post whatever author response is given. The times compare
      as instants: the RFC 3339 text of the source drops fractions of a second, so there two
      posts whose times differ by less than a second give equal responses. */
  lemma PostResponseDeterminedBy(p: Post, q: Post, a: AuthorResponse, b: AuthorResponse)
    ensures ToPostResponse(p, a) == ToPostResponse(q, b) <==>
      && p.id == q.id && p.title == q.title && p.content == q.content
      && p.authorId == q.authorId && p.createdAt == q.createdAt && p.updatedAt == q.updatedAt
      && a == b
  {
  }

  /** The three user mappings expose the id, name and email and nothing else of the user:
      users that differ only in password hash or timestamps map to equal responses, and
      users whose responses are equal agree on id, name and email. */
  lemma UserResponsesDeterminedBy(u: User, v: User, t: string, s: string)
    ensures ToUserResponse(u, t) == ToUserResponse(v, s) <==>
      u.id == v.id && u.name == v.name && u.email == v.email && t == s
    ensures ToUserLoginResponse(u, t) == ToUserLoginResponse(v, s) <==>
      u.id == v.id && u.name == v.name && u.email == v.email && t == s
    ensures ToAuthorResponse(u) == ToAuthorResponse(v) <==>
      u.id == v.id && u.name == v.name && u.email == v.email
  {
  }

  /** A comment response carries the whole comment. The creation time compares as an
      instant: the RFC 3339 text of the source drops fractions of a second, so there two
      comments created within the same second can give equal responses. */
  lemma CommentResponseDeterminedBy(c: Comment, d: Comment)
    ensures ToCommentResponse(c) == ToCommentResponse(d) <==> c == d
  {
  }
}
