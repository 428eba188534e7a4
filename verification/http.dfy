/** What a route handler can answer: a value, or an HTTP error carrying the
    status code FastAPI would send and the check that raised it. */
module Http {

  /** Which check produced an error. Parameters keep only the message
      content that carries meaning (the status a task is in, say). */
  datatype Why =
    // authentication header
    | MissingCaller
    // task routes, both variants
    | TaskNotFound
    | TaskNotOpen
    | NotAllowedToComplete
    | NotTaskOwner
    | OnlyOpenDeletable
    | MissingAttribute(name: string)
    | TaskAlreadyAccepted
    | TaskNotInProgress
    | NotTaskAccepter
    // rating input and eligibility
    | InvalidScore
    | CommentTooLong(length: nat)
    | CommentTooShort
    | BlankTargetUser
    | BlankTaskId
    | SelfRating
    | BlankUserId
    | UnknownUser
    | InactiveUser(context: string)
    | TaskNotCompleted(currentStatus: string)
    | RaterNotInvolved
    | TargetNotInvolved
    | SameRole
    | AlreadyRated
    /** DynamoDB refused the task read (a `ClientError`, answered with a 500). */
    | TaskLookupRejected
    // rating moderation and listings
    | BlankRatingId
    | FlagReasonLength
    | FlagReasonTooShort
    | RatingNotFound
    | AlreadyFlagged
    | OwnRating
    | NotTaskParticipant
    // user directory
    | NothingToUpdate
    | UserNotFound
    /** A 500 whose detail is the text of an HTTPException that a
        surrounding `except Exception` caught. */
    | Wrapped(inner: Error)

  datatype Error = Error(code: int, why: Why)

  datatype Result<+T> = Ok(value: T) | Err(error: Error) {
    predicate IsFailure() { Err? }

    function PropagateFailure<U>(): Result<U>
      requires Err?
    {
      Err(error)
    }

    function Extract(): T
      requires Ok?
    {
      value
    }
  }

  /** The new contents of a table together with the response body. */
  datatype Reply<+S, +B> = Reply(store: S, body: B)

  /** The error that `except Exception as e: raise HTTPException(500, str(e))`
      turns any error raised inside its `try` into. */
  function CaughtAll(e: Error): (w: Error)
    ensures w.code == 500 && w.why.Wrapped? && w.why.inner == e
  {
    Error(500, Wrapped(e))
  }
}
