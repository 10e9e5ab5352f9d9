/**
 * Go error values as the core uses them: sentinel values compared with
 * errors.Is, and chains built by fmt.Errorf("<context>: %w", cause).
 */
module Errors {

  /** The sentinel errors the core compares against. */
  datatype Sentinel =
    | AppInvalidArg          // app.ErrInvalidArg
    | AppEmptyArg            // app.ErrEmptyArg
    | AppRecordNotFound      // app.ErrRecordNotFound
    | AppOperationNotAllowed // app.ErrOperationNotAllowed
    | DbInvalidArg           // db.ErrInvalidArg
    | DbEmptyArg             // db.ErrEmptyArg
    | DbRecordNotFound       // db.ErrRecordNotFound
    | NoDocuments            // the MongoDB driver's ErrNoDocuments

  datatype Error =
    | Base(sentinel: Sentinel)                // a sentinel returned as it is
    | Wrapped(context: string, cause: Error)  // fmt.Errorf("<context>: %w", cause)
    | Driver(message: string)                 // any other failure the database driver reports
    | Panic(message: string)                  // a Go runtime panic, unwinding through every caller

  /** Every operation of the core returns either a value or an error. */
  datatype Result<+T> = Success(value: T) | Failure(error: Error)

  /** errors.Is: does the chain of `e` contain the sentinel `s`? */
  predicate Is(e: Error, s: Sentinel) {
    match e
    case Base(t) => t == s
    case Wrapped(_, cause) => Is(cause, s)
    case Driver(_) => false
    case Panic(_) => false
  }

  /**
   * fmt.Errorf("<context>: %w", cause). A panic is not a returned value: it
   * passes the wrapping site unchanged.
   */
  function Wrap(context: string, cause: Error): (e: Error)
    ensures forall s :: Is(e, s) == Is(cause, s)
    ensures cause.Panic? <==> e.Panic?
  {
    if cause.Panic? then cause else Wrapped(context, cause)
  }

  /** The text errors.New gave each sentinel. */
  function SentinelText(s: Sentinel): string {
    match s
    case AppInvalidArg => "invalid argument"
    case AppEmptyArg => "empty argument"
    case AppRecordNotFound => "record not found"
    case AppOperationNotAllowed => "operation not allowed"
    case DbInvalidArg => "invalid argument"
    case DbEmptyArg => "empty argument not allowed"
    case DbRecordNotFound => "record not found"
    case NoDocuments => "mongo: no documents in result"
  }

  /** err.Error(): the context prefixes joined by ": ", ending in the root cause's text. */
  function Message(e: Error): string {
    match e
    case Base(s) => SentinelText(s)
    case Wrapped(context, cause) => context + ": " + Message(cause)
    case Driver(m) => m
    case Panic(m) => m
  }
}
