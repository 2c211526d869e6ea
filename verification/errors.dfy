/** The exceptions the services throw and that the error-handling middleware
    distinguishes (Application/Exceptions and the exceptions thrown by the
    framework calls the core makes). */
module Errors {
  import opened Common

  /** HttpStatusCode values that occur in the core. */
  const StatusUnauthorized: int := 401
  const StatusForbidden: int := 403
  const StatusNotFound: int := 404
  const StatusConflict: int := 409
  const StatusInternalServerError: int := 500

  /** A FluentValidation ValidationFailure: the property it is about and its message. */
  datatype Failure = Failure(propertyName: string, errorMessage: string)

  /** The kinds of unmapped exceptions the core can raise. */
  datatype FaultKind =
    | NullReference        // a missing tenant dereferenced by the tenant service
    | ArgumentNull         // a role the user belongs to could not be found
    | SecurityToken        // the refresh JWT failed signature or format validation
    | SecurityTokenExpired // the refresh JWT's lifetime has passed
    | Database             // a store refused an insert, update or delete
    | InvalidOperation     // a single-row lookup matched several rows
    | General

  /** An exception, with the status code and message list the application's
      own exception types carry. */
  datatype Exception =
    | Conflict(errorMessages: seq<string>, statusCode: int)
    | Forbidden(errorMessages: seq<string>, statusCode: int)
    | Identity(errorMessages: seq<string>, statusCode: int)
    | NotFound(errorMessages: seq<string>, statusCode: int)
    | Unauthorized(errorMessages: seq<string>, statusCode: int)
    | ValidationFailed(failures: seq<Failure>)
    | Fault(kind: FaultKind, message: string, innerMessage: Option<string>)

  /** new UnauthorizedException(messages): status 401. */
  function Unauthorised(message: string): Exception {
    Unauthorized([message], StatusUnauthorized)
  }

  /** FluentValidation's ValidationException message: "Validation failed: "
      followed by one line per failure. */
  function ValidationSummary(failures: seq<Failure>): string {
    if |failures| == 0 then "Validation failed: "
    else
      var f := failures[|failures| - 1];
      ValidationSummary(failures[..|failures| - 1])
        + "\n -- " + f.propertyName + ": " + f.errorMessage + " Severity: Error"
  }

  /** Exception.Message and InnerException?.Message of an unmapped exception. */
  function MessageOf(e: Exception): string {
    match e
    case ValidationFailed(failures) => ValidationSummary(failures)
    case Fault(_, message, _) => message
    case _ => ""
  }

  function InnerMessageOf(e: Exception): Option<string> {
    if e.Fault? then e.innerMessage else None
  }
}
