/** pkg/middlewares: the two built-in per-service steps (request tagging and
    method admission) and the CORS wrapper around the whole gateway. */
module Middlewares {
  import opened Http
  import opened GatewayErrors
  import opened Config
  import opened Strings

  /** The header name of constants.RequestIDHeader (pkg/constants is not part
      of this model; all that matters here is that it is not "error"). */
  const RequestIdHeader := "X-Request-Id"

  /** The two headers agree on every key other than `key`. */
  ghost predicate SameExcept(h1: Header, h2: Header, key: string) {
    forall k :: k != key ==> (k in h1 <==> k in h2) && Get(h1, k) == Get(h2, k)
  }

  // ---------------------------------------------------------------------------
  // default.go

  datatype Middleware = Tagging | MethodCheck

  /** DefaultMiddlewares: tagging first, then method admission. */
  const DefaultMiddlewares: seq<Middleware> := [Tagging, MethodCheck]

  /** RequestTaggingMiddleware: the same id under RequestIdHeader in the
      request headers and in the response headers, and nothing else. */
  function Tagged(e: Exchange, id: string): (e': Exchange)
    ensures Get(e'.requestHeader, RequestIdHeader) == id
    ensures Get(e'.responseHeader, RequestIdHeader) == id
    ensures SameExcept(e.requestHeader, e'.requestHeader, RequestIdHeader)
    ensures SameExcept(e.responseHeader, e'.responseHeader, RequestIdHeader)
    ensures e'.verb == e.verb && e'.path == e.path
    ensures e'.statuses == e.statuses && e'.body == e.body
  {
    e.(requestHeader := e.requestHeader[RequestIdHeader := id],
       responseHeader := e.responseHeader[RequestIdHeader := id])
  }

  /** CheckIfMethodAllowed: a method in the list (exact match) changes
      nothing; any other method is answered 403 "Method not allowed". */
  function MethodAdmitted(e: Exchange, methods: seq<string>): (e': Exchange)
    ensures e.verb in methods ==> e' == e
    ensures e.verb !in methods ==>
      && e'.statuses == e.statuses + [403]
      && Get(e'.requestHeader, ErrorKey) == "Method not allowed"
      && SameExcept(e.requestHeader, e'.requestHeader, ErrorKey)
    ensures e'.verb == e.verb && e'.path == e.path
    ensures e'.responseHeader == e.responseHeader && e'.body == e.body
  {
    if e.verb in methods then e
    else Written(e, Error(403, "Method not allowed"))
  }

  function Apply(m: Middleware, e: Exchange, methods: seq<string>, id: string): Exchange {
    match m
    case Tagging => Tagged(e, id)
    case MethodCheck => MethodAdmitted(e, methods)
  }

  /** applyMiddlewares: every step of the list in order, with no early exit. */
  function RunAll(ms: seq<Middleware>, e: Exchange, methods: seq<string>, id: string): (e': Exchange)
    ensures e'.verb == e.verb && e'.path == e.path && e'.body == e.body
    ensures e.statuses <= e'.statuses
    decreases |ms|
  {
    if |ms| == 0 then e
    else Apply(ms[|ms| - 1], RunAll(ms[..|ms| - 1], e, methods, id), methods, id)
  }

  /** The default pipeline tags every request, rejected or not, and leaves an
      "error" request header exactly when the client sent one or the method is
      not allowed; it writes 403 exactly when the method is not allowed. */
  lemma DefaultPipeline(e: Exchange, methods: seq<string>, id: string)
    ensures var e' := RunAll(DefaultMiddlewares, e, methods, id);
      && Get(e'.requestHeader, RequestIdHeader) == id
      && Get(e'.responseHeader, RequestIdHeader) == id
      && (Get(e'.requestHeader, ErrorKey) != "" <==> Get(e.requestHeader, ErrorKey) != "" || e.verb !in methods)
      && e'.statuses == e.statuses + (if e.verb in methods then [] else [403])
      && e'.verb == e.verb && e'.path == e.path && e'.body == e.body
  {
    var ms := DefaultMiddlewares;
    assert ms[..1][..0] == [];
    assert ms[..1] == [Tagging];
    var t := Tagged(e, id);
    assert RunAll(ms[..1], e, methods, id) == t;
    assert RunAll(ms, e, methods, id) == MethodAdmitted(t, methods);
    assert Get(t.requestHeader, ErrorKey) == Get(e.requestHeader, ErrorKey);
  }

  method RequestTaggingMiddleware(w: Writer, r: Request, id: string)
    modifies w, r
    ensures View(r, w) == Tagged(old(View(r, w)), id)
  {
    r.header := r.header[RequestIdHeader := id];
    w.header := w.header[RequestIdHeader := id];
  }

  method CheckIfMethodAllowed(service: ServiceConfig, w: Writer, r: Request)
    modifies w, r
    ensures View(r, w) == MethodAdmitted(old(View(r, w)), service.methods)
  {
    if r.verb !in service.methods {
      Write(Error(403, "Method not allowed"), w, r);
    }
  }

  /** Runs one step of a backend's middleware list. */
  method Run(m: Middleware, service: ServiceConfig, w: Writer, r: Request, id: string)
    modifies w, r
    ensures View(r, w) == Apply(m, old(View(r, w)), service.methods, id)
  {
    match m
    case Tagging => RequestTaggingMiddleware(w, r, id);
    case MethodCheck => CheckIfMethodAllowed(service, w, r);
  }

  // ---------------------------------------------------------------------------
  // main.go: CORS

  const AllowOriginHeader := "Access-Control-Allow-Origin"
  const AllowMethodsHeader := "Access-Control-Allow-Methods"
  const AllowHeadersHeader := "Access-Control-Allow-Headers"
  const AllowedHeaderList := "Content-Type, Authorization"
  const OptionsMethod := "OPTIONS"

  /** The origin loop: every allowed origin equal to the request's origin
      sets Access-Control-Allow-Origin to it. */
  function OriginAllowed(h: Header, origins: seq<string>, origin: string): (h': Header)
    ensures origin in origins ==> AllowOriginHeader in h' && h'[AllowOriginHeader] == origin
    ensures origin !in origins ==> h' == h
    ensures SameExcept(h, h', AllowOriginHeader)
    decreases |origins|
  {
    if |origins| == 0 then h
    else
      var h1 := OriginAllowed(h, origins[..|origins| - 1], origin);
      assert origins == origins[..|origins| - 1] + [origins[|origins| - 1]];
      if origins[|origins| - 1] == origin then h1[AllowOriginHeader := origin] else h1
  }

  /** The response headers CORSMiddleware sets. */
  function CorsHeaders(e: Exchange, cors: CorsConfig): Exchange {
    var h := OriginAllowed(e.responseHeader, cors.allowedOrigins, Get(e.requestHeader, "Origin"));
    e.(responseHeader := h[AllowMethodsHeader := Join(cors.allowedMethods, ",")]
                          [AllowHeadersHeader := AllowedHeaderList])
  }

  /** One pass of the CORS handler: the exchange afterwards, and whether the
      wrapped handler is called. */
  function CorsServed(e: Exchange, cors: CorsConfig): (res: (Exchange, bool))
    ensures var (e', callsNext) := res;
      var origin := Get(e.requestHeader, "Origin");
      && (origin in cors.allowedOrigins ==> Get(e'.responseHeader, AllowOriginHeader) == origin)
      && (origin !in cors.allowedOrigins ==>
            && (AllowOriginHeader in e'.responseHeader <==> AllowOriginHeader in e.responseHeader)
            && Get(e'.responseHeader, AllowOriginHeader) == Get(e.responseHeader, AllowOriginHeader))
      && Get(e'.responseHeader, AllowMethodsHeader) == Join(cors.allowedMethods, ",")
      && Get(e'.responseHeader, AllowHeadersHeader) == AllowedHeaderList
      && (forall k :: k != AllowOriginHeader && k != AllowMethodsHeader && k != AllowHeadersHeader ==>
            Get(e'.responseHeader, k) == Get(e.responseHeader, k))
      && e'.verb == e.verb && e'.path == e.path && e'.requestHeader == e.requestHeader
      && e'.body == e.body
      && (callsNext <==> e.verb != OptionsMethod)
      && e'.statuses == e.statuses + (if e.verb == OptionsMethod then [204] else [])
  {
    var e1 := CorsHeaders(e, cors);
    if e.verb == OptionsMethod then (e1.(statuses := e1.statuses + [204]), false)
    else (e1, true)
  }

  /** The allow-methods header decodes back to the configured list when no
      method name contains a comma. */
  lemma AllowMethodsRoundTrip(e: Exchange, cors: CorsConfig)
    requires |cors.allowedMethods| >= 1
    requires forall i :: 0 <= i < |cors.allowedMethods| ==> ',' !in cors.allowedMethods[i]
    ensures Split(Get(CorsServed(e, cors).0.responseHeader, AllowMethodsHeader), ',') == cors.allowedMethods
  {
    SplitJoin(cors.allowedMethods, ',');
  }

  /** The handler CORSMiddleware wraps; it records the exchange as it stood
      at each call. */
  class Handler {
    var calls: seq<Exchange>

    constructor ()
      ensures calls == []
    {
      calls := [];
    }

    method ServeHTTP(w: Writer, r: Request)
      modifies this
      ensures calls == old(calls) + [View(r, w)]
    {
      calls := calls + [View(r, w)];
    }
  }

  /** The handler CORSMiddleware returns, serving one request. */
  method CORSMiddleware(cors: CorsConfig, next: Handler, w: Writer, r: Request)
    modifies w, next
    ensures View(r, w) == CorsServed(old(View(r, w)), cors).0
    ensures next.calls == old(next.calls) + (if CorsServed(old(View(r, w)), cors).1 then [View(r, w)] else [])
  {
    var origin := Get(r.header, "Origin");
    for i := 0 to |cors.allowedOrigins|
      invariant w.header == OriginAllowed(old(w.header), cors.allowedOrigins[..i], origin)
      invariant w.statuses == old(w.statuses) && w.body == old(w.body)
      invariant next.calls == old(next.calls)
    {
      assert cors.allowedOrigins[..i + 1][..i] == cors.allowedOrigins[..i];
      var o := cors.allowedOrigins[i];
      if o == origin {
        w.header := w.header[AllowOriginHeader := o];
      }
    }
    assert cors.allowedOrigins[..|cors.allowedOrigins|] == cors.allowedOrigins;
    w.header := w.header[AllowMethodsHeader := Join(cors.allowedMethods, ",")];
    w.header := w.header[AllowHeadersHeader := AllowedHeaderList];

    if r.verb == OptionsMethod {
      w.WriteHeader(204);
      return;
    }
    next.ServeHTTP(w, r);
  }
}
