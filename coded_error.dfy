/**
 * The coded-error value of package apperr: an HTTP status, an application
 * code, a message and an optional wrapped cause, built by NewError from
 * defaults plus non-zero overrides, and rendered by its Error method.
 *
 * Go's `error` interface is replaced by an explicit datatype: `GoError` names
 * the kinds of error the classifiers tell apart with errors.Is / errors.As,
 * and `MaybeError` (None standing for nil) is the type of an `error` variable.
 */
module CodedErrors {
  import opened Wrappers
  import opened GoStrings
  import ErrorCodes

  /** One entry of validator.ValidationErrors: namespace, field, failed tag and its parameter. */
  datatype FieldErr = FieldErr(namespace: string, field: string, tag: string, param: string)

  datatype GoError =
    | EOF                                                     // io.EOF
    | NoRows                                                  // sql.ErrNoRows
    | PgErr(severity: string, message: string, code: string)  // *pgconn.PgError, code = SQLSTATE
    | Validation(errs: seq<FieldErr>)                         // validator.ValidationErrors
    | Other(text: string)                                     // any other error, by its text

  /** A Go `error` value: None is nil. */
  type MaybeError = Option<GoError>

  /** validator's FieldError.Error(). */
  function FieldErrString(fe: FieldErr): string {
    "Key: '" + fe.namespace + "' Error:Field validation for '" + fe.field + "' failed on the '" + fe.tag + "' tag"
  }

  function FieldErrStrings(errs: seq<FieldErr>): (r: seq<string>)
    ensures |r| == |errs|
    ensures forall i :: 0 <= i < |errs| ==> r[i] == FieldErrString(errs[i])
  {
    seq(|errs|, i requires 0 <= i < |errs| => FieldErrString(errs[i]))
  }

  /** err.Error() for each kind of error. */
  function GoErrorString(g: GoError): string {
    match g
    case EOF => "EOF"
    case NoRows => "sql: no rows in result set"
    case PgErr(severity, message, code) => severity + ": " + message + " (SQLSTATE " + code + ")"
    case Validation(errs) => Join(FieldErrStrings(errs), "\n")
    case Other(text) => text
  }

  const StatusBadRequest: int := 400
  const StatusNotFound: int := 404
  const StatusConflict: int := 409
  const StatusInternalServerError: int := 500

  const DefaultMessage: string := "internal server error"

  datatype CodedError = CodedError(httpCode: int, code: int, message: string, err: MaybeError)

  /** NewError's optional parameters; a zero field means "not given". */
  datatype ErrorParams = ErrorParams(httpCode: int, code: int, message: string, err: MaybeError)

  /**
   * Starts from 500 / ErrCodeInternalServer / "internal server error" / nil and
   * overrides each field whose parameter is non-zero, non-empty or non-nil.
   */
  function NewError(p: ErrorParams): (e: CodedError)
    ensures e.httpCode == (if p.httpCode != 0 then p.httpCode else StatusInternalServerError)
    ensures e.code == (if p.code != 0 then p.code else ErrorCodes.ErrCodeInternalServer)
    ensures e.message == (if p.message != "" then p.message else DefaultMessage)
    ensures e.err == p.err
    ensures e.httpCode != 0 && e.code != 0 && e.message != ""
  {
    var e := CodedError(StatusInternalServerError, ErrorCodes.ErrCodeInternalServer, DefaultMessage, None);
    var e := if p.httpCode != 0 then e.(httpCode := p.httpCode) else e;
    var e := if p.code != 0 then e.(code := p.code) else e;
    var e := if p.message != "" then e.(message := p.message) else e;
    if p.err.Some? then e.(err := p.err) else e
  }

  function ParamsOf(e: CodedError): ErrorParams {
    ErrorParams(e.httpCode, e.code, e.message, e.err)
  }

  /** Rebuilding a constructed error from its own fields changes nothing. */
  lemma NewErrorFixpoint(p: ErrorParams)
    ensures NewError(ParamsOf(NewError(p))) == NewError(p)
  {
  }

  /** Every code of the table is non-zero, so NewError always keeps it. */
  lemma NewErrorKeepsTableCode(p: ErrorParams)
    requires p.code in ErrorCodes.AllCodes
    ensures NewError(p).code == p.code
  {
    ErrorCodes.AllCodesNonzero();
  }

  /** (*CodedError).Error(): "<msg> (code: <c>, http: <h>)", then " -> <cause>" when there is one. */
  function CodedErrorString(e: CodedError): (s: string)
    ensures |s| > |e.message| && s[..|e.message|] == e.message
  {
    e.message + " (code: " + FormatInt(e.code) + ", http: " + FormatInt(e.httpCode) + ")" + CauseTail(e)
  }

  /** The " -> <cause>" clause, present exactly when there is a cause. */
  function CauseTail(e: CodedError): (t: string)
    ensures t == "" <==> e.err.None?
  {
    if e.err.Some? then " -> " + GoErrorString(e.err.value) else ""
  }

  /** The text after the message: code, status and the cause's tail are each recoverable. */
  lemma ClauseDetermines(c1: int, h1: int, t1: string, c2: int, h2: int, t2: string)
    requires FormatInt(c1) + (", http: " + (FormatInt(h1) + (")" + t1)))
          == FormatInt(c2) + (", http: " + (FormatInt(h2) + (")" + t2)))
    ensures c1 == c2 && h1 == h2 && t1 == t2
  {
    var sep := " http: ";
    assert ", http: " == [','] + sep;
    var rest1 := sep + (FormatInt(h1) + (")" + t1));
    var rest2 := sep + (FormatInt(h2) + (")" + t2));
    assert ", http: " + (FormatInt(h1) + (")" + t1)) == [','] + rest1;
    assert ", http: " + (FormatInt(h2) + (")" + t2)) == [','] + rest2;
    FormatIntHasNo(c1, ',');
    FormatIntHasNo(c2, ',');
    SplitLeading(FormatInt(c1), rest1, FormatInt(c2), rest2, ',');
    FormatIntInjective(c1, c2);
    assert FormatInt(h1) + ([')'] + t1) == rest1[|sep|..];
    assert FormatInt(h2) + ([')'] + t2) == rest2[|sep|..];
    FormatIntHasNo(h1, ')');
    FormatIntHasNo(h2, ')');
    SplitLeading(FormatInt(h1), t1, FormatInt(h2), t2, ')');
    FormatIntInjective(h1, h2);
  }

  /** Regrouping the six pieces of a rendering to the right, kept apart so the solver sees only strings. */
  lemma Regroup(p: string, a: string, b: string, c: string, d: string, t: string)
    ensures p + a + b + c + d + t == p + (a + (b + (c + (d + t))))
  {
  }

  /**
   * For a given message, the rendered text determines the code, the HTTP status,
   * whether there is a cause, and the cause's text.
   */
  lemma CodedErrorStringDetermines(e1: CodedError, e2: CodedError)
    requires e1.message == e2.message
    requires CodedErrorString(e1) == CodedErrorString(e2)
    ensures e1.code == e2.code && e1.httpCode == e2.httpCode
    ensures e1.err.Some? <==> e2.err.Some?
    ensures e1.err.Some? ==> GoErrorString(e1.err.value) == GoErrorString(e2.err.value)
  {
    var p := e1.message + " (code: ";
    var x1 := FormatInt(e1.code) + (", http: " + (FormatInt(e1.httpCode) + (")" + CauseTail(e1))));
    var x2 := FormatInt(e2.code) + (", http: " + (FormatInt(e2.httpCode) + (")" + CauseTail(e2))));
    Regroup(e1.message + " (code: ", FormatInt(e1.code), ", http: ", FormatInt(e1.httpCode), ")", CauseTail(e1));
    Regroup(e2.message + " (code: ", FormatInt(e2.code), ", http: ", FormatInt(e2.httpCode), ")", CauseTail(e2));
    assert x1 == (p + x1)[|p|..] == (p + x2)[|p|..] == x2;
    ClauseDetermines(e1.code, e1.httpCode, CauseTail(e1), e2.code, e2.httpCode, CauseTail(e2));
    if e1.err.Some? && e2.err.Some? {
      assert GoErrorString(e1.err.value) == CauseTail(e1)[4..];
    }
  }

  /** The value an `error` variable holds: a *CodedError or some other error. */
  datatype AnyError = Coded(coded: CodedError) | Plain(plain: GoError)
}
