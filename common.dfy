/** Values shared by every layer of the blog backend: optional values, the opaque
    timestamps of `time.Time`, and the errors the services return. */
module Common {

  /** A Go pointer that may be nil. */
  datatype Option<+T> = None | Some(value: T)

  /** An instant of `time.Time`. Only the year matters to this model: JSON encoding of a
      time fails when the year lies outside [0, 9999]; `tick` stands for the rest of the
      instant and is never inspected. */
  datatype Time = Time(year: int, tick: int)

  /** The zero `time.Time` (January 1, year 1). */
  const ZeroTime: Time := Time(1, 0)

  /** Every error the services produce. Most carry the message of an `errors.New` in the
      services; the last four are passed through from the key/value client, the JSON codec,
      the relational store and the Go runtime. */
  datatype Error =
    | TitleAndContentRequired            // "title and content are required"
    | AuthorNotFound                     // "author not found"
    | PostNotFound                       // "post not found"
    | NotPostOwner                       // "you do not have permission to modify this post"
    | FailedToCreatePost                 // "failed to create post" (also what updatePost says)
    | FailedToStorePostInRedis           // "failed to store post in Redis"
    | FailedToRetrievePostFromRedis      // "failed to retrieve post from Redis"
    | FailedToLoadAuthorDetails          // "failed to load author details"
    | FailedToFindPostInDatabase         // "failed to find post in database"
    | InvalidEmailFormat                 // "invalid email format"
    | PasswordHashingFailed              // "password hashing failed"
    | FailedToCheckExistingEmail         // "failed to check existing email"
    | EmailAlreadyInUse                  // "email already in use"
    | FailedToCreateUser                 // "failed to create user"
    | FailedToStoreUserInRedis           // "failed to store user in Redis"
    | CouldNotGenerateToken              // "could not generate token"
    | InvalidCredentials                 // "invalid credentials"
    | FailedToCheckExistingEmailInRedis  // "failed to check existing email in Redis"
    | FailedToCheckExistingEmailInDatabase // "failed to check existing email in database"
    | PostIdDoesNotExist                 // "postID does not exist"
    | RedisClientError                   // a non-miss error of the Redis client
    | DecodeError                        // json.Unmarshal failed
    | EncodeError                        // json.Marshal failed
    | DatabaseError                      // an error of the relational store
    | NilDereference                     // runtime panic: a nil *User was dereferenced

  /** A Go `(value, error)` pair where exactly one side is meaningful. */
  datatype Result<+T> = Ok(value: T) | Err(error: Error)
}
