/** Vocabulary shared by every module: optional values, error returns, identifiers and time. */
module Common {

  datatype Option<+T> = None | Some(value: T)

  datatype Result<+T, +E> = Ok(value: T) | Err(error: E)

  /** A UUID. Only equality matters, and that one value is the nil UUID. */
  newtype Uuid = n: int | 0 <= n

  const NIL: Uuid := 0

  /** What `uuid.New` returns: never the nil UUID. */
  type NewUuid = id: Uuid | id != NIL witness 1

  /** Instants and durations, in nanoseconds. */
  type Time = int

  const SECOND: Time := 1_000_000_000

  /** The errors the use cases return. DbConflict stands for a violated primary key or unique
      index, ColumnOverflow for a value longer than the column that should hold it. */
  datatype Error =
    | BadRequest
    | Unauthorized
    | Forbidden
    | NotFound
    | NotYourTurn
    | GameNotStarted
    | GameAlreadyStarted
    | GameAlreadyFinished
    | WinnerNotInGame
    | UserInActiveGame
    | AlreadyInMatching
    | RateLimitExceeded
    | UserAlreadyDeleted
    | CannotDeleteSelf
    | CannotDeleteMaster
    | BadDigitLength
    | BadDigit
    | DuplicateDigit
    | BadSecretFormat
    | DbConflict
    | ColumnOverflow
    | NoRandomSource
    | StoreFailure
}
