/**
 * The part of a gin request context that the middleware and the error
 * handlers touch: the request's method, path and headers, the list of errors
 * recorded on it, the response header map, the written status and JSON body,
 * and whether the chain was aborted or continued.
 */
module Gin {
  import opened Wrappers
  import opened CodedErrors

  datatype JsonValue = JBool(b: bool) | JString(s: string) | JInt(i: int)

  type JsonObject = map<string, JsonValue>

  /** A response written with c.JSON: its status and body. */
  datatype JsonResponse = JsonResponse(status: int, body: JsonObject)

  /** c.Header(key, value): an empty value deletes the header, any other value sets it. */
  function SetHeader(h: map<string, string>, key: string, value: string): (r: map<string, string>)
    ensures value == "" ==> key !in r
    ensures value != "" ==> key in r && r[key] == value
    ensures forall k :: k != key ==> (k in r <==> k in h) && (k in r ==> r[k] == h[k])
  {
    if value == "" then h - {key} else h[key := value]
  }

  class Context {
    const requestMethod: string
    const path: string
    const requestHeaders: map<string, string>

    /** c.Errors: every error recorded with c.Error, oldest first. */
    var errors: seq<AnyError>
    var responseHeaders: map<string, string>
    /** The status written, if any. */
    var status: Option<int>
    /** The JSON response written, if any. */
    var response: Option<JsonResponse>
    var aborted: bool
    /** Whether c.Next() handed control to the rest of the chain. */
    var continued: bool
    /** The response headers as they stood when c.Next() handed over; the rest of the chain sends these. */
    ghost var headersAtNext: Option<map<string, string>>
    /** The response headers as they stood when c.AbortWithStatus wrote the response out. */
    ghost var headersAtAbort: Option<map<string, string>>

    constructor (requestMethod: string, path: string, requestHeaders: map<string, string>, errors: seq<AnyError>)
      ensures this.requestMethod == requestMethod && this.path == path && this.requestHeaders == requestHeaders
      ensures this.errors == errors && responseHeaders == map[]
      ensures status == None && response == None && !aborted && !continued && headersAtNext == None
      ensures headersAtAbort == None
    {
      this.requestMethod := requestMethod;
      this.path := path;
      this.requestHeaders := requestHeaders;
      this.errors := errors;
      responseHeaders := map[];
      status := None;
      response := None;
      aborted := false;
      continued := false;
      headersAtNext := None;
      headersAtAbort := None;
    }

    /** c.GetHeader: the request header's value, or "" when it is absent. */
    function GetHeader(key: string): string {
      if key in requestHeaders then requestHeaders[key] else ""
    }

    /** c.Error: records an error on the request. */
    method Error(e: AnyError)
      modifies this`errors
      ensures errors == old(errors) + [e]
    {
      errors := errors + [e];
    }

    /** c.Header. */
    method Header(key: string, value: string)
      modifies this`responseHeaders
      ensures responseHeaders == SetHeader(old(responseHeaders), key, value)
    {
      responseHeaders := SetHeader(responseHeaders, key, value);
    }

    /** c.Writer.Header().Del. */
    method DeleteHeader(key: string)
      modifies this`responseHeaders
      ensures responseHeaders == old(responseHeaders) - {key}
    {
      responseHeaders := responseHeaders - {key};
    }

    /** c.AbortWithStatus: writes the status and the headers out now, and stops the chain. */
    method AbortWithStatus(code: int)
      modifies this`status, this`aborted, this`headersAtAbort
      ensures status == Some(code) && aborted
      ensures headersAtAbort == Some(responseHeaders)
    {
      headersAtAbort := Some(responseHeaders);
      status := Some(code);
      aborted := true;
    }

    /** c.JSON: writes the status and the body. */
    method JSON(code: int, body: JsonObject)
      modifies this`status, this`response
      ensures status == Some(code) && response == Some(JsonResponse(code, body))
    {
      status := Some(code);
      response := Some(JsonResponse(code, body));
    }

    /**
     * c.Next: the rest of the chain runs. The handlers after this one only ever
     * add to c.Errors; `recorded` is what they add, oldest first.
     */
    method Next(recorded: seq<AnyError>)
      modifies this`continued, this`errors, this`headersAtNext
      ensures continued
      ensures errors == old(errors) + recorded
      ensures headersAtNext == Some(responseHeaders)
    {
      continued := true;
      headersAtNext := Some(responseHeaders);
      errors := errors + recorded;
    }
  }
}
