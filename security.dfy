/**
 * pkg/gin/middleware/security.go: the SecurityHeaders middleware sets ten
 * fixed hardening headers, answers CORS for the first allowed origin that is
 * "*" or the request's Origin, stops a preflight OPTIONS request with 204, and
 * otherwise removes the Server header and lets the chain continue.
 */
module Security {
  import opened Wrappers
  import opened GoStrings
  import opened Gin
  import CodedErrors

  datatype Config = Config(allowedOrigins: seq<string>, allowedMethods: seq<string>, allowedHeaders: seq<string>)

  /** DefaultConfig: any origin, the six usual methods and three request headers. */
  function DefaultConfig(): Config {
    Config(["*"],
           ["GET", "POST", "PUT", "PATCH", "DELETE", "OPTIONS"],
           ["Origin", "Content-Type", "Authorization"])
  }

  /** The configuration the handler uses: a nil one is replaced by the default. */
  function EffectiveConfig(cfg: Option<Config>): (c: Config)
    ensures cfg.Some? ==> c == cfg.value
    ensures cfg.None? ==> c.allowedOrigins == ["*"]
    ensures cfg.None? ==> c.allowedMethods == ["GET", "POST", "PUT", "PATCH", "DELETE", "OPTIONS"]
    ensures cfg.None? ==> c.allowedHeaders == ["Origin", "Content-Type", "Authorization"]
  {
    if cfg.None? then DefaultConfig() else cfg.value
  }

  /** The hardening headers, in the order they are set. */
  const HardeningHeaders: seq<(string, string)> := [
    ("X-Content-Type-Options", "nosniff"),
    ("X-Frame-Options", "DENY"),
    ("X-XSS-Protection", "1; mode=block"),
    ("Referrer-Policy", "no-referrer"),
    ("Content-Security-Policy", "default-src 'self'; img-src 'self' data:; script-src 'self'; style-src 'self' 'unsafe-inline'; font-src 'self'; connect-src 'self'"),
    ("Strict-Transport-Security", "max-age=63072000; includeSubDomains; preload"),
    ("Cross-Origin-Opener-Policy", "same-origin"),
    ("Cross-Origin-Embedder-Policy", "require-corp"),
    ("Cache-Control", "no-store, no-cache, must-revalidate, private"),
    ("Expect-CT", "max-age=86400, enforce")
  ]

  const AllowOrigin := "Access-Control-Allow-Origin"
  const AllowMethods := "Access-Control-Allow-Methods"
  const AllowHeaders := "Access-Control-Allow-Headers"
  const AllowCredentials := "Access-Control-Allow-Credentials"

  /** The headers after c.Header(key, value) for each pair in turn. */
  function ApplyHeaders(h: map<string, string>, pairs: seq<(string, string)>): map<string, string>
    decreases |pairs|
  {
    if pairs == [] then h
    else SetHeader(ApplyHeaders(h, pairs[..|pairs| - 1]), pairs[|pairs| - 1].0, pairs[|pairs| - 1].1)
  }

  ghost predicate DistinctKeys(pairs: seq<(string, string)>) {
    forall i, j :: 0 <= i < j < |pairs| ==> pairs[i].0 != pairs[j].0
  }

  ghost predicate IsKey(pairs: seq<(string, string)>, k: string) {
    exists i :: 0 <= i < |pairs| && pairs[i].0 == k
  }

  /**
   * Setting pairs with distinct keys and non-empty values leaves every key at
   * its value and every other header as it was.
   */
  lemma {:induction false} ApplyHeadersSets(h: map<string, string>, pairs: seq<(string, string)>)
    requires DistinctKeys(pairs)
    requires forall i :: 0 <= i < |pairs| ==> pairs[i].1 != ""
    ensures forall i :: 0 <= i < |pairs| ==>
      pairs[i].0 in ApplyHeaders(h, pairs) && ApplyHeaders(h, pairs)[pairs[i].0] == pairs[i].1
    ensures forall k :: !IsKey(pairs, k) ==>
      (k in ApplyHeaders(h, pairs) <==> k in h) && (k in h ==> ApplyHeaders(h, pairs)[k] == h[k])
    decreases |pairs|
  {
    if pairs != [] {
      var init := pairs[..|pairs| - 1];
      var last := pairs[|pairs| - 1];
      assert forall i :: 0 <= i < |init| ==> init[i] == pairs[i];
      ApplyHeadersSets(h, init);
      assert pairs[|pairs| - 1].0 == last.0;
    }
  }

  /** The hardening table has ten distinct header names, each with a non-empty value. */
  lemma HardeningTableWellFormed()
    ensures |HardeningHeaders| == 10
    ensures DistinctKeys(HardeningHeaders)
    ensures forall i :: 0 <= i < |HardeningHeaders| ==> HardeningHeaders[i].1 != ""
  {
  }

  /** A configured origin admits the request when it is "*" or equal to the request's Origin. */
  predicate Matches(allowed: string, origin: string) {
    allowed == "*" || allowed == origin
  }

  /** The index of the first admitting entry of the list, if any. */
  function FirstMatch(origins: seq<string>, origin: string): (r: Option<nat>)
    ensures r.Some? ==> r.value < |origins| && Matches(origins[r.value], origin)
    ensures r.Some? ==> forall j :: 0 <= j < r.value ==> !Matches(origins[j], origin)
    ensures r.None? <==> forall j :: 0 <= j < |origins| ==> !Matches(origins[j], origin)
    decreases |origins|
  {
    if origins == [] then None
    else if Matches(origins[0], origin) then Some(0)
    else match FirstMatch(origins[1..], origin)
      case None => None
      case Some(i) => Some(i + 1)
  }

  /** The response headers after the CORS loop. */
  function Cors(h: map<string, string>, cfg: Config, origin: string): map<string, string> {
    match FirstMatch(cfg.allowedOrigins, origin)
    case None => h
    case Some(i) =>
      var h1 := SetHeader(h, AllowOrigin, cfg.allowedOrigins[i]);
      var h2 := SetHeader(h1, AllowMethods, Join(cfg.allowedMethods, ", "));
      var h3 := SetHeader(h2, AllowHeaders, Join(cfg.allowedHeaders, ", "));
      SetHeader(h3, AllowCredentials, "true")
  }

  ghost predicate IsCorsKey(k: string) {
    k == AllowOrigin || k == AllowMethods || k == AllowHeaders || k == AllowCredentials
  }

  /**
   * No admitting entry: the headers are left alone. Otherwise the first
   * admitting entry is echoed verbatim, Allow-Methods and Allow-Headers are
   * the lists joined by ", ", Allow-Credentials is "true", and no other header
   * changes. An empty value removes its header instead.
   */
  lemma CorsHeaders(h: map<string, string>, cfg: Config, origin: string)
    ensures FirstMatch(cfg.allowedOrigins, origin).None? ==> Cors(h, cfg, origin) == h
    ensures FirstMatch(cfg.allowedOrigins, origin).Some? ==>
      var o := cfg.allowedOrigins[FirstMatch(cfg.allowedOrigins, origin).value];
      var r := Cors(h, cfg, origin);
      && (o != "" ==> AllowOrigin in r && r[AllowOrigin] == o)
      && (o == "" ==> AllowOrigin !in r)
      && (Join(cfg.allowedMethods, ", ") != "" ==> AllowMethods in r && r[AllowMethods] == Join(cfg.allowedMethods, ", "))
      && (Join(cfg.allowedMethods, ", ") == "" ==> AllowMethods !in r)
      && (Join(cfg.allowedHeaders, ", ") != "" ==> AllowHeaders in r && r[AllowHeaders] == Join(cfg.allowedHeaders, ", "))
      && (Join(cfg.allowedHeaders, ", ") == "" ==> AllowHeaders !in r)
      && AllowCredentials in r && r[AllowCredentials] == "true"
    ensures forall k :: !IsCorsKey(k) ==>
      (k in Cors(h, cfg, origin) <==> k in h) && (k in h ==> Cors(h, cfg, origin)[k] == h[k])
  {
  }

  /** With the default configuration every request origin is admitted and "*" is echoed. */
  lemma DefaultAdmitsEveryOrigin(h: map<string, string>, origin: string)
    ensures FirstMatch(DefaultConfig().allowedOrigins, origin) == Some(0)
    ensures AllowOrigin in Cors(h, DefaultConfig(), origin) && Cors(h, DefaultConfig(), origin)[AllowOrigin] == "*"
  {
  }

  /** The response headers the middleware leaves for a request with this method and Origin. */
  function SecuredHeaders(h: map<string, string>, cfg: Config, requestMethod: string, origin: string): map<string, string> {
    var corsed := Cors(ApplyHeaders(h, HardeningHeaders), cfg, origin);
    if requestMethod == "OPTIONS" then corsed else corsed - {"Server"}
  }

  /** No hardening header is a CORS header or the Server header. */
  lemma HardeningKeysApart()
    ensures forall i :: 0 <= i < |HardeningHeaders| ==>
      !IsCorsKey(HardeningHeaders[i].0) && HardeningHeaders[i].0 != "Server"
  {
    forall i | 0 <= i < |HardeningHeaders|
      ensures !IsCorsKey(HardeningHeaders[i].0) && HardeningHeaders[i].0 != "Server"
    {
      assert i in {0, 1, 2, 3, 4, 5, 6, 7, 8, 9};
    }
  }

  /** CORS and the Server removal leave every other header as hardening left it. */
  lemma SecuredKeepsOthers(h: map<string, string>, cfg: Config, requestMethod: string, origin: string, k: string)
    requires !IsCorsKey(k) && k != "Server"
    ensures var a, r := ApplyHeaders(h, HardeningHeaders), SecuredHeaders(h, cfg, requestMethod, origin);
      (k in r <==> k in a) && (k in a ==> r[k] == a[k])
  {
    CorsHeaders(ApplyHeaders(h, HardeningHeaders), cfg, origin);
  }

  /** The hardening headers hold their fixed values whatever the method, the origin and the configuration. */
  lemma HardeningAlwaysSet(h: map<string, string>, cfg: Config, requestMethod: string, origin: string)
    ensures forall i :: 0 <= i < |HardeningHeaders| ==>
      var r := SecuredHeaders(h, cfg, requestMethod, origin);
      HardeningHeaders[i].0 in r && r[HardeningHeaders[i].0] == HardeningHeaders[i].1
  {
    HardeningTableWellFormed();
    ApplyHeadersSets(h, HardeningHeaders);
    HardeningKeysApart();
    forall i | 0 <= i < |HardeningHeaders|
      ensures var r := SecuredHeaders(h, cfg, requestMethod, origin);
        HardeningHeaders[i].0 in r && r[HardeningHeaders[i].0] == HardeningHeaders[i].1
    {
      SecuredKeepsOthers(h, cfg, requestMethod, origin, HardeningHeaders[i].0);
    }
  }

  /** The Server header survives only a preflight request. */
  lemma ServerHeaderRemoved(h: map<string, string>, cfg: Config, requestMethod: string, origin: string)
    ensures requestMethod != "OPTIONS" ==> "Server" !in SecuredHeaders(h, cfg, requestMethod, origin)
    ensures requestMethod == "OPTIONS" && "Server" in h ==>
      "Server" in SecuredHeaders(h, cfg, requestMethod, origin)
      && SecuredHeaders(h, cfg, requestMethod, origin)["Server"] == h["Server"]
  {
    if requestMethod == "OPTIONS" {
      var a := ApplyHeaders(h, HardeningHeaders);
      assert ("Server" in a <==> "Server" in h) && ("Server" in h ==> a["Server"] == h["Server"]) by {
        HardeningKeysApart();
        HardeningTableWellFormed();
        ApplyHeadersSets(h, HardeningHeaders);
      }
      CorsHeaders(a, cfg, origin);
    }
  }

  /** The ten hardening c.Header calls, made in the order the table lists them. */
  method HardenHeaders(ctx: Context)
    modifies ctx`responseHeaders
    ensures ctx.responseHeaders == ApplyHeaders(old(ctx.responseHeaders), HardeningHeaders)
  {
    for i := 0 to |HardeningHeaders|
      invariant ctx.responseHeaders == ApplyHeaders(old(ctx.responseHeaders), HardeningHeaders[..i])
    {
      ctx.Header(HardeningHeaders[i].0, HardeningHeaders[i].1);
      ApplyHeadersStep(old(ctx.responseHeaders), HardeningHeaders, i);
    }
    assert HardeningHeaders[..|HardeningHeaders|] == HardeningHeaders;
  }

  /** The CORS loop: the first admitting origin sets the four CORS headers, then the loop stops. */
  method AllowCors(ctx: Context, c: Config, origin: string)
    modifies ctx`responseHeaders
    ensures ctx.responseHeaders == Cors(old(ctx.responseHeaders), c, origin)
  {
    ghost var hardened := ctx.responseHeaders;
    var i := 0;
    while i < |c.allowedOrigins|
      invariant 0 <= i <= |c.allowedOrigins|
      invariant forall j :: 0 <= j < i ==> !Matches(c.allowedOrigins[j], origin)
      invariant ctx.responseHeaders == hardened
    {
      var o := c.allowedOrigins[i];
      if o == "*" || o == origin {
        assert FirstMatch(c.allowedOrigins, origin) == Some(i);
        ctx.Header(AllowOrigin, o);
        ctx.Header(AllowMethods, Join(c.allowedMethods, ", "));
        ctx.Header(AllowHeaders, Join(c.allowedHeaders, ", "));
        ctx.Header(AllowCredentials, "true");
        break;
      }
      i := i + 1;
    }
  }

  /**
   * The handler SecurityHeaders(cfg) returns, run on one request: the headers
   * become SecuredHeaders; a preflight request is aborted with 204, every
   * header already in place when the response is written, and the chain does
   * not continue; any other request continues with its status untouched,
   * every header already in place when c.Next() hands over, and the rest of
   * the chain records `recorded`.
   */
  method SecurityHeaders(cfg: Option<Config>, ctx: Context, recorded: seq<CodedErrors.AnyError>)
    modifies ctx`responseHeaders, ctx`status, ctx`aborted, ctx`continued, ctx`errors, ctx`headersAtNext, ctx`headersAtAbort
    ensures ctx.responseHeaders ==
      SecuredHeaders(old(ctx.responseHeaders), EffectiveConfig(cfg), ctx.requestMethod, ctx.GetHeader("Origin"))
    ensures ctx.requestMethod == "OPTIONS" ==>
      ctx.status == Some(204) && ctx.aborted && ctx.continued == old(ctx.continued) && ctx.errors == old(ctx.errors)
      && ctx.headersAtNext == old(ctx.headersAtNext)
      && ctx.headersAtAbort ==
           Some(SecuredHeaders(old(ctx.responseHeaders), EffectiveConfig(cfg), ctx.requestMethod, ctx.GetHeader("Origin")))
    ensures ctx.requestMethod != "OPTIONS" ==>
      ctx.status == old(ctx.status) && ctx.aborted == old(ctx.aborted) && ctx.continued
      && ctx.errors == old(ctx.errors) + recorded && ctx.headersAtAbort == old(ctx.headersAtAbort)
      && ctx.headersAtNext ==
           Some(SecuredHeaders(old(ctx.responseHeaders), EffectiveConfig(cfg), ctx.requestMethod, ctx.GetHeader("Origin")))
  {
    var c := if cfg.None? then DefaultConfig() else cfg.value;
    HardenHeaders(ctx);
    var origin := ctx.GetHeader("Origin");
    AllowCors(ctx, c, origin);

    if ctx.requestMethod == "OPTIONS" {
      ctx.AbortWithStatus(204);
      return;
    }
    ctx.DeleteHeader("Server");
    ctx.Next(recorded);
  }

  /** One more c.Header call extends the applied prefix of a table by one pair. */
  lemma ApplyHeadersStep(h: map<string, string>, pairs: seq<(string, string)>, n: nat)
    requires n < |pairs|
    ensures ApplyHeaders(h, pairs[..n + 1]) == SetHeader(ApplyHeaders(h, pairs[..n]), pairs[n].0, pairs[n].1)
  {
    assert pairs[..n + 1][..n] == pairs[..n];
  }
}
