/** The application's error values: the `AppError` class with its static
    factories (backend/src/utils/error.util.ts), and the other errors a
    handler can pass to `next` (library errors identified by their `name`). */
module Errors {
  import opened Wrappers

  /** An `AppError`. `errors` is the optional field-to-message record. */
  datatype AppError = AppError(
    message: string,
    statusCode: int,
    isOperational: bool,
    code: Option<int>,
    errors: Option<map<string, string>>)

  /** Anything thrown or passed to `next(error)`: an `AppError`, or a native
      error recognised by its `name` (Mongoose `ValidationError` with its
      per-path messages, `MongoServerError` with its numeric code and the
      offending key/value pairs, the JWT library errors, a plain `Error`). */
  datatype Thrown =
    | App(err: AppError)
    | Native(name: string, message: string, code: Option<int>,
             pathMessages: seq<(string, string)>, keyValue: seq<(string, string)>)

  /** The constructor; `isOperational` defaults to true when not passed. */
  function NewAppError(message: string, statusCode: int, isOperational: Option<bool>,
                       code: Option<int>, errors: Option<map<string, string>>): (e: AppError)
    ensures e.message == message && e.statusCode == statusCode
    ensures e.isOperational == isOperational.GetOr(true)
    ensures isOperational.None? ==> e.isOperational
    ensures e.code == code && e.errors == errors
  {
    AppError(message, statusCode, isOperational.GetOr(true), code, errors)
  }

  /** The static factories, one constructor each. */
  datatype Factory =
    | BadRequestF | UnauthorizedF | ForbiddenF | NotFoundF | ConflictF
    | ValidationErrorF | InternalServerErrorF | DatabaseErrorF

  const DefaultBadRequest := "Bad Request"
  const DefaultUnauthorized := "Unauthorized"
  const DefaultForbidden := "Forbidden"
  const DefaultNotFound := "Resource not found"
  const DefaultConflict := "Resource already exists"
  const DefaultValidation := "Validation failed"
  const DefaultInternal := "Internal server error"
  const DefaultDatabase := "Database error"

  function BadRequest(message: Option<string>, errors: Option<map<string, string>>, code: Option<int>): AppError {
    NewAppError(message.GetOr(DefaultBadRequest), 400, Some(true), code, errors)
  }

  function Unauthorized(message: Option<string>): AppError {
    NewAppError(message.GetOr(DefaultUnauthorized), 401, None, None, None)
  }

  function Forbidden(message: Option<string>): AppError {
    NewAppError(message.GetOr(DefaultForbidden), 403, None, None, None)
  }

  function NotFound(message: Option<string>): AppError {
    NewAppError(message.GetOr(DefaultNotFound), 404, None, None, None)
  }

  function Conflict(message: Option<string>): AppError {
    NewAppError(message.GetOr(DefaultConflict), 409, None, None, None)
  }

  function ValidationError(errors: map<string, string>, message: Option<string>): AppError {
    NewAppError(message.GetOr(DefaultValidation), 422, Some(true), None, Some(errors))
  }

  function InternalServerError(message: Option<string>): AppError {
    NewAppError(message.GetOr(DefaultInternal), 500, Some(false), None, None)
  }

  function DatabaseError(message: Option<string>): AppError {
    NewAppError(message.GetOr(DefaultDatabase), 500, Some(false), None, None)
  }

  /** The factory `f` called with `message` (or its default when `None`),
      with `errors` and `code` passed where the factory accepts them. */
  function Make(f: Factory, message: Option<string>, errors: Option<map<string, string>>, code: Option<int>): AppError {
    match f
    case BadRequestF => BadRequest(message, errors, code)
    case UnauthorizedF => Unauthorized(message)
    case ForbiddenF => Forbidden(message)
    case NotFoundF => NotFound(message)
    case ConflictF => Conflict(message)
    case ValidationErrorF => ValidationError(errors.GetOr(map[]), message)
    case InternalServerErrorF => InternalServerError(message)
    case DatabaseErrorF => DatabaseError(message)
  }

  /** The status code and default message each factory is documented with. */
  function Status(f: Factory): int {
    match f
    case BadRequestF => 400
    case UnauthorizedF => 401
    case ForbiddenF => 403
    case NotFoundF => 404
    case ConflictF => 409
    case ValidationErrorF => 422
    case InternalServerErrorF => 500
    case DatabaseErrorF => 500
  }

  function DefaultMessage(f: Factory): string {
    match f
    case BadRequestF => DefaultBadRequest
    case UnauthorizedF => DefaultUnauthorized
    case ForbiddenF => DefaultForbidden
    case NotFoundF => DefaultNotFound
    case ConflictF => DefaultConflict
    case ValidationErrorF => DefaultValidation
    case InternalServerErrorF => DefaultInternal
    case DatabaseErrorF => DefaultDatabase
  }

  /** Every factory produces its status and its message (the given one, or
      the default); only the two 500 factories are non-operational; only
      `badRequest` takes a code; only `badRequest` and `validationError`
      carry an errors record, and `validationError` always does. */
  lemma FactoryContract(f: Factory, message: Option<string>, errors: Option<map<string, string>>, code: Option<int>)
    ensures Make(f, message, errors, code).statusCode == Status(f)
    ensures Make(f, message, errors, code).message == message.GetOr(DefaultMessage(f))
    ensures !Make(f, message, errors, code).isOperational <==> f == InternalServerErrorF || f == DatabaseErrorF
    ensures !Make(f, message, errors, code).isOperational <==> Make(f, message, errors, code).statusCode == 500
    ensures Make(f, message, errors, code).code == (if f == BadRequestF then code else None)
    ensures f == BadRequestF ==> Make(f, message, errors, code).errors == errors
    ensures f == ValidationErrorF ==> Make(f, message, errors, code).errors == Some(errors.GetOr(map[]))
    ensures f != BadRequestF && f != ValidationErrorF ==> Make(f, message, errors, code).errors.None?
  {
  }

  /** The error `uploadImageToCloudinary` throws when the image host refuses. */
  const UploadFailed: Thrown := Native("Error", "Image upload failed", None, [], [])

  /** A Mongoose validation failure with its per-path messages. */
  function MongooseValidation(pathMessages: seq<(string, string)>): Thrown {
    Native("ValidationError", "Validation failed", None, pathMessages, [])
  }

  /** A MongoDB duplicate-key failure (E11000) on the given key/value pairs. */
  function DuplicateKey(keyValue: seq<(string, string)>): Thrown {
    Native("MongoServerError", "E11000 duplicate key error", Some(11000), [], keyValue)
  }
}
