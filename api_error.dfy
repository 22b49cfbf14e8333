/**
 * The error record every handler throws (src/utils/ApiError.js) and the shape of a handler's
 * outcome: a success envelope, a thrown `ApiError`, or any other exception.
 */
module Errors {
  import opened Wrappers

  /** The JavaScript value `null`, the only value an `ApiError`'s `data` ever holds. */
  datatype JsNull = Null

  /** The fields the `ApiError` constructor sets. The status code is kept in `status`. */
  datatype ApiError = ApiError(message: string, errors: seq<string>, success: bool, data: JsNull, status: int)

  const DefaultMessage: string := "Something went wrong"

  /** `new ApiError(statusCode, message, errors)`; an omitted (undefined) argument takes its default. */
  function NewApiError(statusCode: int, message: Option<string>, errors: Option<seq<string>>): (e: ApiError)
    ensures !e.success && e.data == Null
    ensures e.status == statusCode
    ensures message.None? ==> e.message == DefaultMessage
    ensures message.Some? ==> e.message == message.value
    ensures errors.None? ==> e.errors == []
    ensures errors.Some? ==> e.errors == errors.value
  {
    ApiError(message.GetOr(DefaultMessage), errors.GetOr([]), false, Null, statusCode)
  }

  /** Exceptions other than `ApiError` that a handler can raise. */
  datatype Fault =
    | CastError            // a value that is not an ObjectId failed its cast (in a query or a new document)
                           // or an `ObjectId` constructor rejected it
    | TypeError            // a property read on `undefined` or `null`
    | ValidationError(paths: seq<string>)  // a document failed its schema's validators
    | TokenError           // `jwt.verify` rejected a token

  /**
   * What a handler produces: a success envelope (HTTP status, data, message), an `ApiError`
   * thrown with `throw new ApiError(...)`, or another exception. `asyncHandler` forwards every
   * exception to Express, and no error middleware is installed.
   */
  datatype Response<T> =
    | Ok(statusCode: int, data: T, message: string)
    | Thrown(error: ApiError)
    | Crashed(fault: Fault)

  /** `throw new ApiError(status, message)`. */
  function Throw<T>(status: int, message: string): (r: Response<T>)
    ensures r.Thrown? && r.error.status == status && r.error.message == message
    ensures r.error.errors == [] && !r.error.success
  {
    Thrown(NewApiError(status, Some(message), None))
  }

  /**
   * The HTTP status of the reply. Express's default error handler takes an error's `status`
   * field when it is a 4xx or 5xx code and answers 500 otherwise, so every failure is a 4xx/5xx.
   */
  function HttpStatus<T>(r: Response<T>): (code: int)
    ensures r.Ok? ==> code == r.statusCode
    ensures r.Thrown? && 400 <= r.error.status < 600 ==> code == r.error.status
    ensures r.Thrown? && !(400 <= r.error.status < 600) ==> code == 500
    ensures r.Crashed? ==> code == 500
  {
    match r
    case Ok(s, _, _) => s
    case Thrown(e) => if 400 <= e.status < 600 then e.status else 500
    case Crashed(_) => 500
  }
}
