/**
 * pkg/error/bad_request.go and pkg/error/postgres.go: the revision of apperr
 * whose classifiers return the coded error. It names its codes
 * InvalidRequest, InternalServer, DBNotFound, DBUniqueViolation,
 * DBForeignKeyViolation and DBError; their values are not part of this
 * model, so they are a parameter known only to be non-zero and distinct.
 */
module ReturningErrors {
  import opened Wrappers
  import opened CodedErrors
  import opened FieldValidation

  datatype CodeTable = CodeTable(
    invalidRequest: int,
    internalServer: int,
    dbNotFound: int,
    dbUniqueViolation: int,
    dbForeignKeyViolation: int,
    dbError: int)

  predicate DistinctNonzero(t: CodeTable) {
    && t.invalidRequest != 0 && t.internalServer != 0 && t.dbNotFound != 0
    && t.dbUniqueViolation != 0 && t.dbForeignKeyViolation != 0 && t.dbError != 0
    && t.invalidRequest !in {t.internalServer, t.dbNotFound, t.dbUniqueViolation, t.dbForeignKeyViolation, t.dbError}
    && t.internalServer !in {t.dbNotFound, t.dbUniqueViolation, t.dbForeignKeyViolation, t.dbError}
    && t.dbNotFound !in {t.dbUniqueViolation, t.dbForeignKeyViolation, t.dbError}
    && t.dbUniqueViolation !in {t.dbForeignKeyViolation, t.dbError}
    && t.dbForeignKeyViolation != t.dbError
  }

  type Codes = t: CodeTable | DistinctNonzero(t) witness CodeTable(1, 2, 3, 4, 5, 6)

  /**
   * BadRequest: always 400 / InvalidRequest with the input as cause; the
   * message is chosen by the first matching case (empty body, then validation
   * failures, then anything else). With an empty list of validation failures
   * the rendered text is "" and NewError puts "internal server error" there.
   */
  method BadRequest(codes: Codes, err: MaybeError) returns (e: CodedError)
    ensures e.httpCode == StatusBadRequest && e.code == codes.invalidRequest && e.err == err
    ensures err == Some(EOF) ==> e.message == "request body is required but was empty"
    ensures err.Some? && err.value.Validation? ==> ValidationMessage(e.message, err.value.errs)
    ensures err.None? || !(err.value.EOF? || err.value.Validation?) ==> e.message == "invalid request body"
  {
    if err == Some(EOF) {
      return NewError(ErrorParams(StatusBadRequest, codes.invalidRequest,
                                  "request body is required but was empty", err));
    }
    if err.Some? && err.value.Validation? {
      var errorsMap := MapValidationErrors(err.value.errs);
      var msg := FormatValidationErrors(errorsMap);
      FieldMapEmptyIff(err.value.errs);
      if err.value.errs == [] {
        RenderingOfEmpty(msg);
      }
      return NewError(ErrorParams(StatusBadRequest, codes.invalidRequest, msg, err));
    }
    return NewError(ErrorParams(StatusBadRequest, codes.invalidRequest, "invalid request body", err));
  }

  /**
   * PostgresError, first match wins: no rows, then the SQLSTATE
   * integrity-constraint codes 23505 / 23503 / 23502 / 23514, then any other
   * driver error, then everything else.
   */
  function PostgresError(codes: Codes, err: MaybeError): (e: CodedError)
    ensures e.err == err
    ensures err == Some(NoRows) ==>
      e == CodedError(StatusNotFound, codes.dbNotFound, "resource not found", err)
    ensures err.Some? && err.value.PgErr? && err.value.code == "23505" ==>
      e == CodedError(StatusConflict, codes.dbUniqueViolation, "resource already exists", err)
    ensures err.Some? && err.value.PgErr? && err.value.code == "23503" ==>
      e == CodedError(StatusBadRequest, codes.dbForeignKeyViolation, "invalid reference, foreign key constraint failed", err)
    ensures err.Some? && err.value.PgErr? && err.value.code == "23502" ==>
      e == CodedError(StatusBadRequest, codes.invalidRequest, "required field missing", err)
    ensures err.Some? && err.value.PgErr? && err.value.code == "23514" ==>
      e == CodedError(StatusBadRequest, codes.invalidRequest, "check constraint failed", err)
    ensures err.Some? && err.value.PgErr? && err.value.code !in {"23505", "23503", "23502", "23514"} ==>
      e == CodedError(StatusInternalServerError, codes.dbError, "Application error", err)
    ensures err.None? || !(err.value.NoRows? || err.value.PgErr?) ==>
      e == CodedError(StatusInternalServerError, codes.internalServer, DefaultMessage, err)
  {
    if err == Some(NoRows) then
      NewError(ErrorParams(StatusNotFound, codes.dbNotFound, "resource not found", err))
    else if err.Some? && err.value.PgErr? then
      match err.value.code
      case "23505" => NewError(ErrorParams(StatusConflict, codes.dbUniqueViolation, "resource already exists", err))
      case "23503" => NewError(ErrorParams(StatusBadRequest, codes.dbForeignKeyViolation, "invalid reference, foreign key constraint failed", err))
      case "23502" => NewError(ErrorParams(StatusBadRequest, codes.invalidRequest, "required field missing", err))
      case "23514" => NewError(ErrorParams(StatusBadRequest, codes.invalidRequest, "check constraint failed", err))
      case _ => NewError(ErrorParams(StatusInternalServerError, codes.dbError, "Application error", err))
    else
      NewError(ErrorParams(StatusInternalServerError, codes.internalServer, DefaultMessage, err))
  }

  /** The classes of error PostgresError tells apart. */
  datatype PgClass = NotFoundClass | UniqueClass | ForeignKeyClass | NotNullClass | CheckClass | DriverClass | OtherClass

  function ClassOf(err: MaybeError): PgClass {
    if err == Some(NoRows) then NotFoundClass
    else if err.Some? && err.value.PgErr? then
      if err.value.code == "23505" then UniqueClass
      else if err.value.code == "23503" then ForeignKeyClass
      else if err.value.code == "23502" then NotNullClass
      else if err.value.code == "23514" then CheckClass
      else DriverClass
    else OtherClass
  }

  /** Reads the class back off a result's status, code and message. */
  function ClassOfResult(codes: Codes, e: CodedError): PgClass {
    if e.httpCode == StatusNotFound then NotFoundClass
    else if e.httpCode == StatusConflict then UniqueClass
    else if e.httpCode == StatusBadRequest then
      if e.code == codes.dbForeignKeyViolation then ForeignKeyClass
      else if e.message == "required field missing" then NotNullClass
      else CheckClass
    else if e.code == codes.dbError then DriverClass
    else OtherClass
  }

  /** Every class gets its own result: the status, code and message identify the class of the input. */
  lemma PostgresErrorClassRecoverable(codes: Codes, err: MaybeError)
    ensures PostgresError(codes, err).httpCode in {400, 404, 409, 500}
    ensures ClassOfResult(codes, PostgresError(codes, err)) == ClassOf(err)
  {
  }

  /** Inputs of the same class get the same status, code and message. */
  lemma PostgresErrorDependsOnClass(codes: Codes, err1: MaybeError, err2: MaybeError)
    requires ClassOf(err1) == ClassOf(err2)
    ensures PostgresError(codes, err1).(err := None) == PostgresError(codes, err2).(err := None)
  {
  }
}
