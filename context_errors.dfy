/**
 * pkg/error/error.go: the revision of apperr whose handlers record the coded
 * error on the request context (ctx.Error) instead of returning it. Each
 * handler builds one coded error and appends it to the context's error list.
 */
module ContextErrors {
  import opened Wrappers
  import opened CodedErrors
  import opened FieldValidation
  import EC = ErrorCodes
  import Gin

  /**
   * The coded error BadRequest records: always 400 / ErrCodeInvalidRequest
   * with the input as cause; the message is chosen by the first matching case
   * (empty body, then validation failures, then anything else).
   */
  ghost predicate BadRequestOutcome(err: MaybeError, e: CodedError) {
    && e.httpCode == StatusBadRequest
    && e.code == EC.ErrCodeInvalidRequest
    && e.err == err
    && (err == Some(EOF) ==> e.message == "request body is required but was empty")
    && (err.Some? && err.value.Validation? ==> ValidationMessage(e.message, err.value.errs))
    && (err.None? || !(err.value.EOF? || err.value.Validation?) ==> e.message == "invalid request body")
  }

  /** The coded error built by BadRequest (the decision part of the handler). */
  method BadRequestError(err: MaybeError) returns (e: CodedError)
    ensures BadRequestOutcome(err, e)
  {
    if err == Some(EOF) {
      e := NewError(ErrorParams(StatusBadRequest, EC.ErrCodeInvalidRequest,
                                "request body is required but was empty", err));
      return;
    }
    if err.Some? && err.value.Validation? {
      var errorsMap := MapValidationErrors(err.value.errs);
      var msg := FormatValidationErrors(errorsMap);
      e := NewError(ErrorParams(StatusBadRequest, EC.ErrCodeInvalidRequest, msg, err));
      FieldMapEmptyIff(err.value.errs);
      if err.value.errs == [] {
        RenderingOfEmpty(msg);
      }
      return;
    }
    e := NewError(ErrorParams(StatusBadRequest, EC.ErrCodeInvalidRequest, "invalid request body", err));
  }

  function Last(errors: seq<AnyError>): AnyError
    requires errors != []
  {
    errors[|errors| - 1]
  }

  /** BadRequest: records exactly one 400 error and changes nothing else. */
  method BadRequest(ctx: Gin.Context, err: MaybeError)
    modifies ctx`errors
    ensures |ctx.errors| == |old(ctx.errors)| + 1
    ensures ctx.errors[..|old(ctx.errors)|] == old(ctx.errors)
    ensures Last(ctx.errors).Coded? && BadRequestOutcome(err, Last(ctx.errors).coded)
  {
    var e := BadRequestError(err);
    ctx.Error(Coded(e));
  }

  /** The message InternalServerError uses: the error's own text unless it is nil or empty. */
  function InternalServerCoded(err: MaybeError): (e: CodedError)
    ensures e.httpCode == StatusInternalServerError && e.code == EC.ErrCodeInternalServer && e.err == err
    ensures err.Some? && GoErrorString(err.value) != "" ==> e.message == GoErrorString(err.value)
    ensures err.None? || GoErrorString(err.value) == "" ==> e.message == DefaultMessage
  {
    var msg := if err.Some? && GoErrorString(err.value) != "" then GoErrorString(err.value) else DefaultMessage;
    NewError(ErrorParams(StatusInternalServerError, EC.ErrCodeInternalServer, msg, err))
  }

  method InternalServerError(ctx: Gin.Context, err: MaybeError)
    modifies ctx`errors
    ensures ctx.errors == old(ctx.errors) + [Coded(InternalServerCoded(err))]
  {
    ctx.Error(Coded(InternalServerCoded(err)));
  }

  /** NotFound's error: 404 / ErrCodeUserNotFound with no cause; NewError fills an empty message. */
  function NotFoundCoded(msg: string): (e: CodedError)
    ensures e.httpCode == StatusNotFound && e.code == EC.ErrCodeUserNotFound && e.err == None
    ensures e.message == (if msg != "" then msg else DefaultMessage)
  {
    NewError(ErrorParams(StatusNotFound, EC.ErrCodeUserNotFound, msg, None))
  }

  /** A 404 recorded without a message reads "internal server error". */
  lemma NotFoundWithoutMessage()
    ensures NotFoundCoded("").message == "internal server error"
    ensures NotFoundCoded("").httpCode == 404
  {
  }

  method NotFound(ctx: Gin.Context, msg: string)
    modifies ctx`errors
    ensures ctx.errors == old(ctx.errors) + [Coded(NotFoundCoded(msg))]
  {
    ctx.Error(Coded(NotFoundCoded(msg)));
  }

  /**
   * PostgresError's classification, first match wins: no rows, then the
   * SQLSTATE integrity-constraint codes, then any other driver error, then
   * whatever InternalServerError makes of the error.
   */
  function PostgresCoded(err: MaybeError): (e: CodedError)
    ensures e.err == err
    ensures err == Some(NoRows) ==>
      e == CodedError(StatusNotFound, EC.ErrCodeUserNotFound, "resource not found", err)
    ensures err.Some? && err.value.PgErr? && err.value.code == "23505" ==>
      e == CodedError(StatusConflict, EC.ErrCodeUserAlreadyExists, "resource already exists", err)
    ensures err.Some? && err.value.PgErr? && err.value.code == "23503" ==>
      e == CodedError(StatusBadRequest, EC.ErrCodeInvalidRequest, "invalid reference, foreign key constraint failed", err)
    ensures err.Some? && err.value.PgErr? && err.value.code == "23502" ==>
      e == CodedError(StatusBadRequest, EC.ErrCodeInvalidRequest, "required field missing", err)
    ensures err.Some? && err.value.PgErr? && err.value.code == "23514" ==>
      e == CodedError(StatusBadRequest, EC.ErrCodeInvalidRequest, "check constraint failed", err)
    ensures err.Some? && err.value.PgErr? && err.value.code !in {"23505", "23503", "23502", "23514"} ==>
      e == CodedError(StatusInternalServerError, EC.ErrCodeInternalServer, "database error", err)
    ensures err.None? || !(err.value.NoRows? || err.value.PgErr?) ==> e == InternalServerCoded(err)
  {
    if err == Some(NoRows) then
      NewError(ErrorParams(StatusNotFound, EC.ErrCodeUserNotFound, "resource not found", err))
    else if err.Some? && err.value.PgErr? then
      match err.value.code
      case "23505" => NewError(ErrorParams(StatusConflict, EC.ErrCodeUserAlreadyExists, "resource already exists", err))
      case "23503" => NewError(ErrorParams(StatusBadRequest, EC.ErrCodeInvalidRequest, "invalid reference, foreign key constraint failed", err))
      case "23502" => NewError(ErrorParams(StatusBadRequest, EC.ErrCodeInvalidRequest, "required field missing", err))
      case "23514" => NewError(ErrorParams(StatusBadRequest, EC.ErrCodeInvalidRequest, "check constraint failed", err))
      case _ => NewError(ErrorParams(StatusInternalServerError, EC.ErrCodeInternalServer, "database error", err))
    else
      InternalServerCoded(err)
  }

  /** The HTTP status alone tells which class of error PostgresError saw. */
  lemma PostgresStatusClasses(err: MaybeError)
    ensures PostgresCoded(err).httpCode in {400, 404, 409, 500}
    ensures PostgresCoded(err).httpCode == 404 <==> err == Some(NoRows)
    ensures PostgresCoded(err).httpCode == 409 <==> err.Some? && err.value.PgErr? && err.value.code == "23505"
    ensures PostgresCoded(err).httpCode == 400 <==>
      err.Some? && err.value.PgErr? && err.value.code in {"23503", "23502", "23514"}
  {
  }

  method PostgresError(ctx: Gin.Context, err: MaybeError)
    modifies ctx`errors
    ensures ctx.errors == old(ctx.errors) + [Coded(PostgresCoded(err))]
  {
    if err == Some(NoRows) || (err.Some? && err.value.PgErr?) {
      ctx.Error(Coded(PostgresCoded(err)));
      return;
    }
    InternalServerError(ctx, err);
  }
}
