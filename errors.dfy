/** Error taxonomy of the interview tool (src/errors.ts): the error codes,
    the HTTP-flavoured `AppError` family and the domain `InterviewError`. */
module Errors {
  import opened Types

  // ---------------------------------------------------------------------------
  // ErrorCodes

  datatype ErrorCode = InvalidMessage | TranscriptionFailed | LlmFailed | DatabaseError

  function CodeName(c: ErrorCode): string
  {
    match c
    case InvalidMessage => "INVALID_MESSAGE"
    case TranscriptionFailed => "TRANSCRIPTION_FAILED"
    case LlmFailed => "LLM_FAILED"
    case DatabaseError => "DATABASE_ERROR"
  }

  /** The four codes are four distinct strings. */
  lemma CodeNamesDistinct(c1: ErrorCode, c2: ErrorCode)
    ensures CodeName(c1) == CodeName(c2) ==> c1 == c2
  {
  }

  // ---------------------------------------------------------------------------
  // Thrown errors

  /** Which class of the `AppError` family was instantiated. */
  datatype AppErrorClass = Base | Unauthorized | BadRequest | NotFound

  /** An exception the core throws. Both kinds carry a message and an HTTP
      status code; an `InterviewError` also carries an error code string. */
  datatype Error =
    | AppError(errorClass: AppErrorClass, message: string, statusCode: int)
    | InterviewError(message: string, code: string, statusCode: int)

  /** The `name` property: the constructor's name for the `AppError` family,
      the fixed string "InterviewError" otherwise. */
  function Name(e: Error): (r: string)
    ensures r == "InterviewError" <==> e.InterviewError?
    ensures r == "AppError" <==> e.AppError? && e.errorClass == Base
  {
    match e
    case AppError(Base, _, _) => "AppError"
    case AppError(Unauthorized, _, _) => "UnauthorizedError"
    case AppError(BadRequest, _, _) => "BadRequestError"
    case AppError(NotFound, _, _) => "NotFoundError"
    case InterviewError(_, _, _) => "InterviewError"
  }

  /** Two errors have the same `name` exactly when they are instances of the
      same class, so `name` tells the classes apart. */
  lemma NameIdentifiesClass(e1: Error, e2: Error)
    ensures Name(e1) == Name(e2) <==>
      || (e1.InterviewError? && e2.InterviewError?)
      || (e1.AppError? && e2.AppError? && e1.errorClass == e2.errorClass)
  {
  }

  /** `new AppError(message, statusCode)` keeps both arguments. */
  function NewAppError(message: string, statusCode: int): (e: Error)
    ensures e.message == message && e.statusCode == statusCode
    ensures Name(e) == "AppError"
  {
    AppError(Base, message, statusCode)
  }

  /** `new UnauthorizedError(message)`: status 401. */
  function NewUnauthorizedError(message: string): (e: Error)
    ensures e.message == message && e.statusCode == 401
    ensures Name(e) == "UnauthorizedError"
  {
    AppError(Unauthorized, message, 401)
  }

  /** `new BadRequestError(message)`: status 400. */
  function NewBadRequestError(message: string): (e: Error)
    ensures e.message == message && e.statusCode == 400
    ensures Name(e) == "BadRequestError"
  {
    AppError(BadRequest, message, 400)
  }

  /** `new NotFoundError(message)`: status 404. */
  function NewNotFoundError(message: string): (e: Error)
    ensures e.message == message && e.statusCode == 404
    ensures Name(e) == "NotFoundError"
  {
    AppError(NotFound, message, 404)
  }

  /** `new InterviewError(message, code[, statusCode])`: keeps the message and
      code; the status code is the one given, or 500 when it is omitted. */
  function NewInterviewError(message: string, code: string, statusCode: Option<int>): (e: Error)
    ensures e.InterviewError? && e.message == message && e.code == code
    ensures statusCode.None? ==> e.statusCode == 500
    ensures statusCode.Some? ==> e.statusCode == statusCode.value
    ensures Name(e) == "InterviewError"
  {
    InterviewError(message, code, if statusCode.Some? then statusCode.value else 500)
  }

  /** The store's way of rethrowing a failure: an `InterviewError` with code
      DATABASE_ERROR, default status, and the cause's message after `prefix`. */
  function DatabaseFailure(prefix: string, cause: string): (e: Error)
    ensures e.InterviewError? && e.code == CodeName(DatabaseError) && e.statusCode == 500
    ensures e.message == prefix + cause
  {
    NewInterviewError(prefix + cause, CodeName(DatabaseError), None)
  }

  /** The three `AppError` subclasses answer with three distinct client-error
      codes, and an `InterviewError` defaults to a server error. */
  lemma StatusCodesByClass(m: string, code: string)
    ensures 400 <= NewBadRequestError(m).statusCode < NewUnauthorizedError(m).statusCode
                < NewNotFoundError(m).statusCode < 500
    ensures NewInterviewError(m, code, None).statusCode == 500
  {
  }

  /** The outcome of an operation that may throw. */
  datatype Result<+T> = Ok(value: T) | Err(error: Error)
}
