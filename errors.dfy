/**
 * The application error type of the service (src/error.rs): the five error
 * variants, the conversion from a storage error, and the mapping of each
 * variant to an HTTP status and a JSON body of the form {"error": message}.
 */
module Errors {

  /** An error reported by the storage backend; `detail` stands for everything
      the backend's error value carries (driver message, SQL text, ...). */
  datatype DbError = DbError(detail: string)

  datatype AppError =
    | DatabaseError(cause: DbError)
    | UrlNotFound
    | InvalidUrl
    | CodeAlreadyExists
    | InternalServerError(msg: string)

  /** The outcome of a handler: a value, or an application error. */
  datatype Result<+T> = Success(value: T) | Failure(error: AppError)

  /** The `?` conversion applied to every failed storage call. */
  function FromDbError(e: DbError): (r: AppError)
    ensures r.DatabaseError? && r.cause == e
  {
    DatabaseError(e)
  }

  const StatusBadRequest: nat := 400
  const StatusNotFound: nat := 404
  const StatusConflict: nat := 409
  const StatusInternalServerError: nat := 500

  /** The single key of every error body. */
  const ErrorKey := "error"

  /** An HTTP error response: a status code and a JSON object of string values. */
  datatype ErrorResponse = ErrorResponse(status: nat, body: map<string, string>)

  /** The status line and message of each variant (the `match` in `into_response`). */
  function StatusAndMessage(e: AppError): (r: (nat, string))
    ensures r.0 in {StatusBadRequest, StatusNotFound, StatusConflict, StatusInternalServerError}
    ensures r.0 == StatusInternalServerError <==> e.DatabaseError? || e.InternalServerError?
    ensures r.0 == StatusInternalServerError ==>
              r.1 == if e.DatabaseError? then "Database error" else "Internal server error"
  {
    match e
    case DatabaseError(_) => (StatusInternalServerError, "Database error")
    case UrlNotFound => (StatusNotFound, "URL not found")
    case InvalidUrl => (StatusBadRequest, "Invalid URL")
    case CodeAlreadyExists => (StatusConflict, "Short code already exists")
    case InternalServerError(_) => (StatusInternalServerError, "Internal server error")
  }

  /** `impl IntoResponse for AppError`: every variant yields a response whose
      body holds exactly one key, "error"; server-side failures become a bare 500. */
  function IntoResponse(e: AppError): (r: ErrorResponse)
    ensures r.body.Keys == {ErrorKey}
    ensures 400 <= r.status < 600
    ensures r.status == StatusInternalServerError <==> e.DatabaseError? || e.InternalServerError?
    ensures e.DatabaseError? ==> r.body[ErrorKey] == "Database error"
    ensures e.InternalServerError? ==> r.body[ErrorKey] == "Internal server error"
    ensures e.UrlNotFound? <==> r.status == StatusNotFound && r.body[ErrorKey] == "URL not found"
    ensures e.InvalidUrl? <==> r.status == StatusBadRequest && r.body[ErrorKey] == "Invalid URL"
    ensures e.CodeAlreadyExists? <==> r.status == StatusConflict && r.body[ErrorKey] == "Short code already exists"
  {
    var (status, message) := StatusAndMessage(e);
    ErrorResponse(status, map[ErrorKey := message])
  }

  /** The variant of `e` with its payload dropped: what a client may learn. */
  function Redacted(e: AppError): (r: AppError)
    ensures r.DatabaseError? <==> e.DatabaseError?
    ensures r.InternalServerError? <==> e.InternalServerError?
    ensures r.DatabaseError? ==> r.cause == DbError([])
    ensures r.InternalServerError? ==> r.msg == []
    ensures !e.DatabaseError? && !e.InternalServerError? ==> r == e
  {
    match e
    case DatabaseError(_) => DatabaseError(DbError([]))
    case InternalServerError(_) => InternalServerError([])
    case _ => e
  }

  /** Nothing carried by a `DatabaseError` or an `InternalServerError` reaches
      the client: the response is that of the redacted error. */
  lemma ResponseHidesPayload(e: AppError)
    ensures IntoResponse(e) == IntoResponse(Redacted(e))
  {
  }

  /** Two storage failures, whatever their details, give identical responses. */
  lemma DatabaseErrorsIndistinguishable(d1: DbError, d2: DbError)
    ensures IntoResponse(FromDbError(d1)) == IntoResponse(FromDbError(d2))
  {
  }

  /** Two internal failures, whatever their messages, give identical responses. */
  lemma InternalErrorsIndistinguishable(m1: string, m2: string)
    ensures IntoResponse(InternalServerError(m1)) == IntoResponse(InternalServerError(m2))
  {
  }

  /** Client-visible responses tell the variants apart up to redaction. */
  lemma ResponseDeterminesRedactedVariant(e1: AppError, e2: AppError)
    requires IntoResponse(e1) == IntoResponse(e2)
    ensures Redacted(e1) == Redacted(e2)
  {
  }
}
