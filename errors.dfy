/** The failures the request pipeline raises and the central handler that
    turns each of them into an `ErrorMessage` body and an HTTP status. */
module Errors {
  import opened Wrappers
  import opened Validation

  /** The four exception kinds the handler catches. */
  datatype HandledException =
    | NotFoundException(message: string)
    | HttpMessageNotReadableException
    | MethodArgumentNotValidException(fieldErrors: seq<Violation>)
    | ConstraintViolationException(violations: seq<Violation>)

  /** One entry of the `errors` list of an error body. */
  datatype ErrorDetails = ErrorDetails(field: string, rejectedValue: Value, message: string)

  /** The error body; `errors == None` is a null list, left out of the JSON. */
  datatype ErrorMessage = ErrorMessage(status: int, message: string, errors: Option<seq<ErrorDetails>>)

  /** What a handler produces: the HTTP status of the response and its body. */
  datatype ErrorResponse = ErrorResponse(httpStatus: int, body: ErrorMessage)

  const OK := 200
  const BAD_REQUEST := 400
  const NOT_FOUND := 404

  const MalformedBody := "Request body is missing or malformed"
  const ValidationFailed := "Validation failed"

  /** One error entry per violation, in the same order, with field, rejected
      value and message copied. */
  function ToErrorDetails(vs: seq<Violation>): (r: seq<ErrorDetails>)
    ensures |r| == |vs|
    ensures forall i :: 0 <= i < |vs| ==>
              r[i].field == vs[i].field && r[i].rejectedValue == vs[i].rejectedValue && r[i].message == vs[i].message
  {
    if vs == [] then [] else [ErrorDetails(vs[0].field, vs[0].rejectedValue, vs[0].message)] + ToErrorDetails(vs[1..])
  }

  /** `handleNotFoundException`: 404, the exception's own message, no errors. */
  function HandleNotFoundException(message: string): (r: ErrorResponse)
    ensures r.httpStatus == NOT_FOUND && r.body.status == NOT_FOUND
    ensures r.body.message == message && r.body.errors.None?
  {
    ErrorResponse(NOT_FOUND, ErrorMessage(NOT_FOUND, message, None))
  }

  /** `handleInvalidPayloadException` as written: the body says 404, and as the
      handler has no `@ResponseStatus` the response keeps the default 200. */
  function HandleInvalidPayloadExceptionAsWritten(): (r: ErrorResponse)
    ensures r.body.status == NOT_FOUND && r.httpStatus == OK
    ensures r.body.message == MalformedBody && r.body.errors.None?
  {
    ErrorResponse(OK, ErrorMessage(NOT_FOUND, MalformedBody, None))
  }

  /** The as-written handler reports a client error under a "not found" code in
      the body and a success code on the response. */
  lemma MalformedBodyStatusDisagrees()
    ensures HandleInvalidPayloadExceptionAsWritten().httpStatus != HandleInvalidPayloadExceptionAsWritten().body.status
    ensures !(400 <= HandleInvalidPayloadExceptionAsWritten().httpStatus < 500)
  {
  }

  /** `handleInvalidPayloadException` as intended: a bad request, 400 on the
      response and in the body, with the same fixed message. */
  function HandleInvalidPayloadException(): (r: ErrorResponse)
    ensures r.httpStatus == BAD_REQUEST && r.body.status == BAD_REQUEST
    ensures r.body.message == MalformedBody && r.body.errors.None?
  {
    ErrorResponse(BAD_REQUEST, ErrorMessage(BAD_REQUEST, MalformedBody, None))
  }

  /** `handleValidationExceptions`: 400, "Validation failed", one entry per
      field error in order. */
  function HandleValidationExceptions(fieldErrors: seq<Violation>): (r: ErrorResponse)
    ensures r.httpStatus == BAD_REQUEST && r.body.status == BAD_REQUEST
    ensures r.body.message == ValidationFailed
    ensures r.body.errors.Some? && |r.body.errors.value| == |fieldErrors|
    ensures forall i :: 0 <= i < |fieldErrors| ==>
              r.body.errors.value[i] == ErrorDetails(fieldErrors[i].field, fieldErrors[i].rejectedValue, fieldErrors[i].message)
  {
    ErrorResponse(BAD_REQUEST, ErrorMessage(BAD_REQUEST, ValidationFailed, Some(ToErrorDetails(fieldErrors))))
  }

  /** `handleConstraintViolationException`: 400, "Validation failed", one entry
      per violation, from its property path, invalid value and message. */
  function HandleConstraintViolationException(violations: seq<Violation>): (r: ErrorResponse)
    ensures r.httpStatus == BAD_REQUEST && r.body.status == BAD_REQUEST
    ensures r.body.message == ValidationFailed
    ensures r.body.errors.Some? && |r.body.errors.value| == |violations|
    ensures forall i :: 0 <= i < |violations| ==>
              r.body.errors.value[i] == ErrorDetails(violations[i].field, violations[i].rejectedValue, violations[i].message)
  {
    ErrorResponse(BAD_REQUEST, ErrorMessage(BAD_REQUEST, ValidationFailed, Some(ToErrorDetails(violations))))
  }

  /** The advice's dispatch: each exception kind goes to its own handler. */
  function Handle(ex: HandledException): (r: ErrorResponse)
    ensures r.httpStatus == r.body.status
    ensures r.httpStatus == (if ex.NotFoundException? then NOT_FOUND else BAD_REQUEST)
    ensures r.body.errors.Some? <==> ex.MethodArgumentNotValidException? || ex.ConstraintViolationException?
    ensures ex.NotFoundException? ==> r.body.message == ex.message
    ensures ex.HttpMessageNotReadableException? ==> r.body.message == MalformedBody
    ensures ex.MethodArgumentNotValidException? ==> r.body.message == ValidationFailed && |r.body.errors.value| == |ex.fieldErrors|
    ensures ex.ConstraintViolationException? ==> r.body.message == ValidationFailed && |r.body.errors.value| == |ex.violations|
  {
    match ex
    case NotFoundException(message) => HandleNotFoundException(message)
    case HttpMessageNotReadableException => HandleInvalidPayloadException()
    case MethodArgumentNotValidException(fieldErrors) => HandleValidationExceptions(fieldErrors)
    case ConstraintViolationException(violations) => HandleConstraintViolationException(violations)
  }
}
