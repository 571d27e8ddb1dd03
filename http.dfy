/** The shapes of replies and of thrown errors shared by the controllers and the middleware. */
module Http {
  import opened Js

  /** A thrown JavaScript error as the error handler sees it: every property it reads,
      each possibly missing. `errors` holds the messages of a Mongoose validation error,
      one per failing path; `keyPattern` the keys of a violated unique index, in order. */
  datatype Err = Err(
    name: Option<string>,
    code: Option<int>,
    errors: seq<string>,
    keyPattern: seq<string>,
    statusCode: Option<int>,
    message: Option<string>)

  /** The `message` of an error body: one text, or one line per failed rule. */
  datatype Message = Text(text: string) | Lines(lines: seq<string>)

  /** `{ statusCode, message, error }`, the body of every failure reply. */
  datatype ErrorBody = ErrorBody(statusCode: int, message: Message, error: string)

  /** What a controller does with a request: answers it (`Success`, `Failure`),
      or passes an exception on to the error handler with `next(error)` (`Thrown`). */
  datatype Reply<+T> =
    | Success(status: int, message: string, data: T)
    | Failure(body: ErrorBody)
    | Thrown(err: Err)

  /** A Mongoose `ValidationError` with one message per failing path. */
  function ValidationFailure(messages: seq<string>): Err {
    Err(Some("ValidationError"), None, messages, [], None, Some("Validation failed"))
  }

  /** A MongoDB duplicate-key error (code 11000) on the unique index over `field`. */
  function DuplicateKey(field: string): Err {
    Err(Some("MongoServerError"), Some(11000), [], [field], None, Some("E11000 duplicate key error"))
  }

  /** A Mongoose `CastError`: an identifier that is not a well-formed ObjectId. */
  function CastFailure(): Err {
    Err(Some("CastError"), None, [], [], None, Some("Cast to ObjectId failed"))
  }

  /** Any failure of the document store itself (unreachable, timed out). */
  function StoreUnavailable(): Err {
    Err(Some("MongoNetworkError"), None, [], [], None, Some("store unavailable"))
  }

  function NotFound(message: string): ErrorBody {
    ErrorBody(404, Text(message), "Not Found")
  }

  function BadRequest(message: string): ErrorBody {
    ErrorBody(400, Text(message), "Bad Request")
  }
}
