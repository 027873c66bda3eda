/** Request and response records exchanged with the HTTP layer, and the query parameters
    that the listing operations clamp in place. */
module Dto {
  import opened Common

  /** A post request; `authorId` is the acting user's id, filled in from the auth context. */
  datatype PostRequest = PostRequest(title: string, content: string, authorId: nat)

  datatype UserRequest = UserRequest(name: string, email: string, password: string)

  datatype UserLoginRequest = UserLoginRequest(email: string, password: string)

  datatype CommentRequest = CommentRequest(authorName: string, content: string)

  datatype AuthorResponse = AuthorResponse(id: nat, name: string, email: string)

  /** Timestamps stay opaque instants; their RFC 3339 formatting is not modelled. */
  datatype PostResponse = PostResponse(
    id: nat, title: string, content: string, authorId: nat, author: AuthorResponse,
    createdAt: Time, updatedAt: Time)

  datatype UserResponse = UserResponse(id: nat, name: string, email: string, token: string)

  datatype UserLoginResponse = UserLoginResponse(id: nat, name: string, email: string, token: string)

  datatype CommentResponse = CommentResponse(
    id: nat, postId: nat, authorName: string, content: string, createdAt: Time)

  /** The values of a `QueryParams` at the moment it is handed to a repository. */
  datatype Query = Query(search: string, page: int, pageSize: int, sortBy: string, sortOrder: string)

  /** The caller-owned query parameters; the services overwrite `page` and `pageSize`. */
  class QueryParams {
    var search: string
    var page: int
    var pageSize: int
    var sortBy: string
    var sortOrder: string

    constructor (search: string, page: int, pageSize: int, sortBy: string, sortOrder: string)
      ensures Snapshot() == Query(search, page, pageSize, sortBy, sortOrder)
    {
      this.search := search;
      this.page := page;
      this.pageSize := pageSize;
      this.sortBy := sortBy;
      this.sortOrder := sortOrder;
    }

    function Snapshot(): Query
      reads this
    {
      Query(search, page, pageSize, sortBy, sortOrder)
    }
  }

  /** The default page size that a page size below 1 is replaced by. */
  const DefaultPageSize: int := 10

  /** The page number a listing actually uses: at least 1, and the caller's when valid. */
  function ClampPage(page: int): (r: int)
    ensures r >= 1
    ensures page >= 1 ==> r == page
    ensures page < 1 ==> r == 1
  {
    if page < 1 then 1 else page
  }

  /** The page size a listing actually uses: at least 1, the default when the caller's is not. */
  function ClampPageSize(pageSize: int): (r: int)
    ensures r >= 1
    ensures pageSize >= 1 ==> r == pageSize
    ensures pageSize < 1 ==> r == DefaultPageSize
  {
    if pageSize < 1 then DefaultPageSize else pageSize
  }
}
