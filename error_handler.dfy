/**
 * pkg/gin/middleware/error_handler.go: after the rest of the chain has run,
 * the last error recorded on the request decides the response status, the
 * JSON body {success: false, message, code?} and the colour of the log line.
 * The colour escape sequences and constants.Empty are not part of this model:
 * the colour is its class, and the empty code is a parameter.
 */
module ErrorResponder {
  import opened Wrappers
  import opened CodedErrors
  import opened Gin

  datatype Colour = Green | Yellow | Red

  /** The status colour of the log line: yellow for 4xx, red from 500 on, green below 400. */
  function StatusColour(status: int): (c: Colour)
    ensures c == Yellow <==> 400 <= status < 500
    ensures c == Red <==> status >= 500
    ensures c == Green <==> status < 400
  {
    if 400 <= status < 500 then Yellow
    else if status >= 500 then Red
    else Green
  }

  /** One line written by logger.Error; `code` is shown only when it is non-zero. */
  datatype LogEntry = LogEntry(requestMethod: string, path: string, status: int, colour: Colour,
                               code: Option<int>, err: AnyError)

  /** The error log the middleware writes to. */
  class ErrorLog {
    var entries: seq<LogEntry>

    constructor ()
      ensures entries == []
    {
      entries := [];
    }

    method Error(entry: LogEntry)
      modifies this
      ensures entries == old(entries) + [entry]
    {
      entries := entries + [entry];
    }
  }

  /**
   * Status, message and code of the response: those of a coded error, else
   * 500 / "Internal Server Error" / the empty code.
   */
  function ResponseFields(lastErr: AnyError, empty: int): (f: (int, string, int))
    ensures lastErr.Coded? ==> f == (lastErr.coded.httpCode, lastErr.coded.message, lastErr.coded.code)
    ensures lastErr.Plain? ==> f == (StatusInternalServerError, "Internal Server Error", empty)
  {
    if lastErr.Coded? then (lastErr.coded.httpCode, lastErr.coded.message, lastErr.coded.code)
    else (StatusInternalServerError, "Internal Server Error", empty)
  }

  /** The JSON body: success is false, the message is given, and "code" appears exactly when it is non-zero. */
  ghost predicate IsErrorBody(body: JsonObject, message: string, code: int) {
    && body.Keys == (if code != 0 then {"success", "message", "code"} else {"success", "message"})
    && body["success"] == JBool(false)
    && body["message"] == JString(message)
    && (code != 0 ==> body["code"] == JInt(code))
  }

  method ResponseBody(message: string, code: int) returns (resp: JsonObject)
    ensures IsErrorBody(resp, message, code)
  {
    resp := map["success" := JBool(false), "message" := JString(message)];
    if code != 0 {
      resp := resp["code" := JInt(code)];
    }
  }

  /**
   * The handler: c.Next() first, so the rest of the chain records `recorded`;
   * then nothing is written or logged when the request holds no error, and
   * otherwise only the last error counts.
   */
  method ErrorHandler(ctx: Context, log: ErrorLog, empty: int, recorded: seq<AnyError>)
    modifies ctx`continued, ctx`errors, ctx`headersAtNext, ctx`status, ctx`response, log
    ensures ctx.continued
    ensures ctx.errors == old(ctx.errors) + recorded
    ensures ctx.headersAtNext == Some(old(ctx.responseHeaders))
    ensures ctx.errors == [] ==>
      ctx.status == old(ctx.status) && ctx.response == old(ctx.response) && log.entries == old(log.entries)
    ensures ctx.errors != [] ==>
      var last := ctx.errors[|ctx.errors| - 1];
      var (status, message, code) := ResponseFields(last, empty);
      && ctx.status == Some(status)
      && ctx.response.Some? && ctx.response.value.status == status
      && IsErrorBody(ctx.response.value.body, message, code)
      && log.entries == old(log.entries) + [LogEntry(ctx.requestMethod, ctx.path, status, StatusColour(status),
                                                      if code != 0 then Some(code) else None, last)]
  {
    ctx.Next(recorded);
    if |ctx.errors| == 0 {
      return;
    }
    var lastErr := ctx.errors[|ctx.errors| - 1];
    var (status, message, code) := ResponseFields(lastErr, empty);
    var statusColour := StatusColour(status);
    var logCode := if code != 0 then Some(code) else None;
    log.Error(LogEntry(ctx.requestMethod, ctx.path, status, statusColour, logCode, lastErr));
    var resp := ResponseBody(message, code);
    ctx.JSON(status, resp);
  }
}
