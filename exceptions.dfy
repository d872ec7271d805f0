/**
 * The error taxonomy: HTTP exceptions as values (class, status, response body),
 * the four custom exception classes of the application, the framework's
 * built-in ones the article service throws, and the catch policy the service
 * applies to everything thrown inside an operation.
 */
module Exceptions {
  import opened Wrappers
  import opened JsonObjects

  const BAD_REQUEST := 400
  const UNAUTHORIZED := 401
  const NOT_FOUND := 404
  const CONFLICT := 409
  const INTERNAL_SERVER_ERROR := 500

  /** Which class an HTTP exception was constructed from; every one of them is an HttpException. */
  datatype ExceptionClass =
    | Plain              // HttpException itself
    | Unauthorized       // the framework's UnauthorizedException
    | FrameworkNotFound  // the framework's NotFoundException
    | FrameworkConflict  // the framework's ConflictException
    | Database           // DatabaseException
    | NotFound           // the application's NotFoundException
    | Conflict           // the application's ConflictException
    | Validation         // ValidationException

  /** What `getResponse()` returns: a string, an object, `null`, or some other value. */
  datatype Response = Text(text: string) | Record(fields: Obj) | Null | NonObject

  datatype HttpError = HttpError(cls: ExceptionClass, status: int, response: Response)

  /** A three-entry object literal `{k1: v1, k2: v2, k3: v3}` with distinct keys. */
  function Literal3(k1: string, v1: Json, k2: string, v2: Json, k3: string, v3: Json): (o: Obj)
    requires k1 != k2 && k1 != k3 && k2 != k3
    ensures Keys(o) == [k1, k2, k3]
    ensures Get(o, k1) == Some(v1) && Get(o, k2) == Some(v2) && Get(o, k3) == Some(v3)
  {
    var o: Entries := [(k1, v1), (k2, v2), (k3, v3)];
    var o2: Entries := [(k2, v2), (k3, v3)];
    var o3: Entries := [(k3, v3)];
    assert o[1..] == o2 && o2[1..] == o3 && o3[1..] == [];
    assert Keys(o3) == [k3];
    assert Keys(o2) == [k2, k3];
    assert Keys(o) == [k1, k2, k3];
    assert [k1, k2, k3][1..] == [k2, k3] && [k2, k3][1..] == [k3] && [k3][1..] == [];
    assert Distinct([k3]) && Distinct([k2, k3]);
    assert Get(o3, k3) == Some(v3) && Get(o2, k3) == Some(v3);
    o
  }

  /** `new HttpException(message, status)` with a string response. */
  function HttpException(message: string, status: int): HttpError
  {
    HttpError(Plain, status, Text(message))
  }

  // ---- the application's exception classes ----

  /** `new DatabaseException(message)`: status 500 and the body {statusCode, error, message}. */
  function DatabaseException(message: string): (e: HttpError)
    ensures e.cls == Database && e.status == INTERNAL_SERVER_ERROR && e.response.Record?
    ensures Keys(e.response.fields) == ["statusCode", "error", "message"]
    ensures Get(e.response.fields, "statusCode") == Some(JNum(e.status))
    ensures Get(e.response.fields, "error") == Some(JStr("Database Error"))
    ensures Get(e.response.fields, "message") == Some(JStr(message))
  {
    HttpError(Database, INTERNAL_SERVER_ERROR, Record(Literal3(
      "statusCode", JNum(INTERNAL_SERVER_ERROR),
      "error", JStr("Database Error"),
      "message", JStr(message))))
  }

  /** The application's `new NotFoundException(message)`: status 404. */
  function NotFoundException(message: string): (e: HttpError)
    ensures e.cls == NotFound && e.status == NOT_FOUND && e.response.Record?
    ensures Keys(e.response.fields) == ["statusCode", "error", "message"]
    ensures Get(e.response.fields, "statusCode") == Some(JNum(e.status))
    ensures Get(e.response.fields, "error") == Some(JStr("Not Found"))
    ensures Get(e.response.fields, "message") == Some(JStr(message))
  {
    HttpError(NotFound, NOT_FOUND, Record(Literal3(
      "statusCode", JNum(NOT_FOUND),
      "error", JStr("Not Found"),
      "message", JStr(message))))
  }

  /** The application's `new ConflictException(message)`: status 409. */
  function ConflictException(message: string): (e: HttpError)
    ensures e.cls == Conflict && e.status == CONFLICT && e.response.Record?
    ensures Keys(e.response.fields) == ["statusCode", "error", "message"]
    ensures Get(e.response.fields, "statusCode") == Some(JNum(e.status))
    ensures Get(e.response.fields, "error") == Some(JStr("Conflict"))
    ensures Get(e.response.fields, "message") == Some(JStr(message))
  {
    HttpError(Conflict, CONFLICT, Record(Literal3(
      "statusCode", JNum(CONFLICT),
      "error", JStr("Conflict"),
      "message", JStr(message))))
  }

  /** `new ValidationException(errors)`: status 400, the errors under `details`, no `message`. */
  function ValidationException(errors: Json): (e: HttpError)
    ensures e.cls == Validation && e.status == BAD_REQUEST && e.response.Record?
    ensures Keys(e.response.fields) == ["statusCode", "error", "details"]
    ensures "message" !in Keys(e.response.fields)
    ensures Get(e.response.fields, "statusCode") == Some(JNum(e.status))
    ensures Get(e.response.fields, "error") == Some(JStr("Validation Error"))
    ensures Get(e.response.fields, "details") == Some(errors)
  {
    HttpError(Validation, BAD_REQUEST, Record(Literal3(
      "statusCode", JNum(BAD_REQUEST),
      "error", JStr("Validation Error"),
      "details", errors)))
  }

  // ---- the framework's built-in exceptions, body {message, error, statusCode} ----

  function FrameworkException(cls: ExceptionClass, status: int, kind: string, message: string): (e: HttpError)
    ensures e.cls == cls && e.status == status && e.response.Record?
    ensures Keys(e.response.fields) == ["message", "error", "statusCode"]
    ensures Get(e.response.fields, "message") == Some(JStr(message))
    ensures Get(e.response.fields, "error") == Some(JStr(kind))
    ensures Get(e.response.fields, "statusCode") == Some(JNum(status))
  {
    HttpError(cls, status, Record(Literal3(
      "message", JStr(message),
      "error", JStr(kind),
      "statusCode", JNum(status))))
  }

  function UnauthorizedException(message: string): (e: HttpError)
    ensures e.cls == Unauthorized && e.status == UNAUTHORIZED && e.response.Record?
    ensures Keys(e.response.fields) == ["message", "error", "statusCode"]
    ensures Get(e.response.fields, "message") == Some(JStr(message))
    ensures Get(e.response.fields, "error") == Some(JStr("Unauthorized"))
    ensures Get(e.response.fields, "statusCode") == Some(JNum(e.status))
  {
    FrameworkException(Unauthorized, UNAUTHORIZED, "Unauthorized", message)
  }

  function FrameworkNotFoundException(message: string): (e: HttpError)
    ensures e.cls == FrameworkNotFound && e.status == NOT_FOUND && e.response.Record?
    ensures Keys(e.response.fields) == ["message", "error", "statusCode"]
    ensures Get(e.response.fields, "message") == Some(JStr(message))
    ensures Get(e.response.fields, "error") == Some(JStr("Not Found"))
    ensures Get(e.response.fields, "statusCode") == Some(JNum(e.status))
  {
    FrameworkException(FrameworkNotFound, NOT_FOUND, "Not Found", message)
  }

  function FrameworkConflictException(message: string): (e: HttpError)
    ensures e.cls == FrameworkConflict && e.status == CONFLICT && e.response.Record?
    ensures Keys(e.response.fields) == ["message", "error", "statusCode"]
    ensures Get(e.response.fields, "message") == Some(JStr(message))
    ensures Get(e.response.fields, "error") == Some(JStr("Conflict"))
    ensures Get(e.response.fields, "statusCode") == Some(JNum(e.status))
  {
    FrameworkException(FrameworkConflict, CONFLICT, "Conflict", message)
  }

  // ---- what an operation can throw, and the service's catch policy ----

  /** A thrown value: an HttpException (any subclass), or anything else (TypeError, Error, ...). */
  datatype Thrown = Raised(error: HttpError) | Fault(description: string)

  function InternalServerError(): HttpError
  {
    HttpException("Internal server error", INTERNAL_SERVER_ERROR)
  }

  /**
   * The catch block of every service operation: an HttpException is rethrown
   * unchanged, anything else becomes "Internal server error" with status 500.
   */
  function Rethrow(t: Thrown): (e: HttpError)
    ensures t.Raised? ==> e == t.error
    ensures t.Fault? ==> e.cls == Plain && e.status == 500 && e.response == Text("Internal server error")
  {
    match t
    case Raised(error) => error
    case Fault(_) => InternalServerError()
  }

  /** How the body of a `try` ends: with a value, or by throwing. */
  datatype Step<T> = Return(value: T) | Throw(thrown: Thrown)

  /** How an operation ends for its caller: a value, or a rejection with an HTTP exception. */
  datatype Outcome<T> = Ok(value: T) | Err(error: HttpError)

  /** `try { body } catch (error) { rethrow policy }`. */
  function TryCatch<T>(body: Step<T>): Outcome<T>
  {
    match body
    case Return(v) => Ok(v)
    case Throw(t) => Err(Rethrow(t))
  }
}
