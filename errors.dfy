// The TypeScript backend's error taxonomy and the two top-level error handlers.
module AppErrors {
  import opened Common

  /** The `ErrorCode` union. */
  datatype ErrorCode = UNAUTHORIZED | FORBIDDEN | NOT_FOUND | VALIDATION_FAILED | CONFLICT | INTERNAL_ERROR

  /** An `AppError`: the message, status and code are kept as given; details
      are `unknown` and absent unless passed. */
  datatype AppError = AppError(message: string, statusCode: int, code: ErrorCode, details: Option<Json>)

  /** The five subclasses. */
  datatype ErrorKind = NotFound | Unauthorized | Forbidden | Validation | Conflict

  function StatusOf(k: ErrorKind): int
  {
    match k
    case NotFound => 404
    case Unauthorized => 401
    case Forbidden => 403
    case Validation => 422
    case Conflict => 409
  }

  function CodeOf(k: ErrorKind): ErrorCode
  {
    match k
    case NotFound => NOT_FOUND
    case Unauthorized => UNAUTHORIZED
    case Forbidden => FORBIDDEN
    case Validation => VALIDATION_FAILED
    case Conflict => CONFLICT
  }

  function DefaultMessage(k: ErrorKind): string
  {
    match k
    case NotFound => "Resource not found"
    case Unauthorized => "Unauthorized"
    case Forbidden => "Forbidden"
    case Validation => "Validation failed"
    case Conflict => "Conflict"
  }

  /** `new NotFoundError(message?, details?)` and its siblings: the message
      parameter defaults only when it is `undefined`. */
  function Raise(k: ErrorKind, message: Option<string>, details: Option<Json>): (e: AppError)
    ensures e.statusCode == StatusOf(k) && e.code == CodeOf(k) && e.details == details
    ensures message.Some? ==> e.message == message.value
    ensures message.None? ==> e.message == DefaultMessage(k)
  {
    AppError(message.OrElse(DefaultMessage(k)), StatusOf(k), CodeOf(k), details)
  }

  /** Shorthands for the raises the services use. */
  function NotFoundError(message: string): (e: AppError)
    ensures e.statusCode == 404 && e.code == NOT_FOUND && e.message == message && e.details.None?
  {
    Raise(NotFound, Some(message), None)
  }

  function UnauthorizedError(message: string): (e: AppError)
    ensures e.statusCode == 401 && e.code == UNAUTHORIZED && e.message == message && e.details.None?
  {
    Raise(Unauthorized, Some(message), None)
  }

  function ValidationError(message: string, details: Option<Json>): (e: AppError)
    ensures e.statusCode == 422 && e.code == VALIDATION_FAILED && e.message == message && e.details == details
  {
    Raise(Validation, Some(message), details)
  }

  function ConflictError(message: string, details: Option<Json>): (e: AppError)
    ensures e.statusCode == 409 && e.code == CONFLICT && e.message == message && e.details == details
  {
    Raise(Conflict, Some(message), details)
  }

  /** The taxonomy is consistent: status and code each determine the kind, no
      subclass is a 500 or INTERNAL_ERROR, and every status is a 4xx. */
  lemma TaxonomyInjective(k1: ErrorKind, k2: ErrorKind)
    ensures StatusOf(k1) == StatusOf(k2) <==> k1 == k2
    ensures CodeOf(k1) == CodeOf(k2) <==> k1 == k2
    ensures 400 <= StatusOf(k1) < 500 && CodeOf(k1) != INTERNAL_ERROR
  {
  }

  /** A failure a service can end with: an application error it throws, or an
      error from the database layer (a broken unique constraint, for one). */
  datatype Failure = AppFailure(error: AppError) | StoreFailure(reason: string)

  datatype Result<T> = Ok(value: T) | Fail(failure: Failure)
  {
    predicate IsOk() { Ok? }
  }

  function Throw<T>(e: AppError): (r: Result<T>)
    ensures r.Fail? && r.failure == AppFailure(e)
  {
    Fail(AppFailure(e))
  }
}

// `errorHandler` of the TypeScript backend: an error becomes a status and the
// `{error: {code, message, details}}` envelope.
module ErrorEnvelope {
  import opened Common
  import opened AppErrors

  /** What reached the handler: an `AppError`, or any other thrown value. */
  datatype Thrown = App(error: AppError) | Other(value: Json)

  datatype HttpResponse = HttpResponse(status: int, body: Json)

  function CodeName(c: ErrorCode): (s: string)
  {
    match c
    case UNAUTHORIZED => "UNAUTHORIZED"
    case FORBIDDEN => "FORBIDDEN"
    case NOT_FOUND => "NOT_FOUND"
    case VALIDATION_FAILED => "VALIDATION_FAILED"
    case CONFLICT => "CONFLICT"
    case INTERNAL_ERROR => "INTERNAL_ERROR"
  }

  /** The serialised envelope; `JSON.stringify` drops a `details` that is undefined. */
  function EnvelopeBody(code: string, message: string, details: Option<Json>): (j: Json)
    ensures j.JObj? && j.fields.Keys == {"error"} && j.fields["error"].JObj?
    ensures var e := j.fields["error"].fields;
      "code" in e && e["code"] == JStr(code) && "message" in e && e["message"] == JStr(message)
      && ("details" in e <==> details.Some?) && (details.Some? ==> e["details"] == details.value)
  {
    var base := map["code" := JStr(code), "message" := JStr(message)];
    JObj(map["error" := JObj(if details.Some? then base["details" := details.value] else base)])
  }

  function HandleError(t: Thrown): (r: HttpResponse)
    ensures t.App? ==> r.status == t.error.statusCode
    ensures t.App? ==> r.body == EnvelopeBody(CodeName(t.error.code), t.error.message, t.error.details)
    ensures t.Other? ==> r == HttpResponse(500, EnvelopeBody("INTERNAL_ERROR", "Internal server error", None))
  {
    match t
    case App(e) => HttpResponse(e.statusCode, EnvelopeBody(CodeName(e.code), e.message, e.details))
    case Other(_) => HttpResponse(500, EnvelopeBody("INTERNAL_ERROR", "Internal server error", None))
  }

  /** Nothing of a value that is not an `AppError` reaches the client. */
  lemma NoLeak(v1: Json, v2: Json)
    ensures HandleError(Other(v1)) == HandleError(Other(v2))
  {
  }

  /** A raised subclass answers with its own status and code, and the two
      determine each other. */
  lemma RaisedErrorResponse(k: ErrorKind, message: Option<string>, details: Option<Json>)
    ensures var r := HandleError(App(Raise(k, message, details)));
      r.status == StatusOf(k) && r.status != 500
      && r.body.fields["error"].fields["code"] == JStr(CodeName(CodeOf(k)))
  {
  }
}

// `notFoundHandler` and `errorHandler` of the JavaScript backend.
module JsErrorHandler {
  import opened Common

  /** The fields the handler reads from whatever was thrown. */
  datatype JsError = JsError(statusCode: Option<int>, message: Option<string>, stack: Option<string>)

  datatype JsResponse = JsResponse(status: int, body: Json)

  function NotFoundHandler(): (r: JsResponse)
    ensures r.status == 404 && r.body == JObj(map["message" := JStr("Resource not found")])
  {
    JsResponse(404, JObj(map["message" := JStr("Resource not found")]))
  }

  /** `nodeEnv` is `process.env.NODE_ENV`. A `stack` that is undefined is
      dropped by `JSON.stringify`. */
  function HandleError(err: JsError, nodeEnv: Option<string>): (r: JsResponse)
    ensures r.status == err.statusCode.OrElse(500)
    ensures r.body.JObj? && "message" in r.body.fields
    ensures r.body.fields["message"] == JStr(err.message.OrElse("Unexpected error"))
    ensures "stack" in r.body.fields <==> nodeEnv != Some("production") && err.stack.Some?
    ensures "stack" in r.body.fields ==> r.body.fields["stack"] == JStr(err.stack.value)
    ensures r.body.fields.Keys <= {"message", "stack"}
  {
    var base := map["message" := JStr(err.message.OrElse("Unexpected error"))];
    var showStack := nodeEnv != Some("production");
    JsResponse(err.statusCode.OrElse(500),
               JObj(if showStack && err.stack.Some? then base["stack" := JStr(err.stack.value)] else base))
  }

  /** In production the response depends only on the status and message. */
  lemma ProductionHidesStack(e1: JsError, e2: JsError)
    requires e1.statusCode == e2.statusCode && e1.message == e2.message
    ensures HandleError(e1, Some("production")) == HandleError(e2, Some("production"))
  {
  }
}
