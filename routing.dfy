/** The expression-only parts of pkg/gateway/gateway.go: extracting the
    service key from a path, stripping it, and the decision HandleRequest
    takes for one request. */
module Routing {
  import opened Wrappers
  import opened Strings
  import opened Http
  import opened GatewayErrors
  import opened Config
  import opened Balancer
  import opened Middlewares

  // ---------------------------------------------------------------------------
  // getServicePaths

  /** The length of the leading run of s that holds no '/'. */
  function SegmentLength(s: string): (k: nat)
    ensures k <= |s|
    ensures forall i :: 0 <= i < k ==> s[i] != '/'
    ensures k < |s| ==> s[k] == '/'
    decreases |s|
  {
    if |s| == 0 || s[0] == '/' then 0 else 1 + SegmentLength(s[1..])
  }

  /** regexp `(\/[^/]+)(\/)` replaced by "$1|" everywhere: scanning from the
      left, each '/' followed by a non-empty run of non-'/' characters and a
      further '/' keeps the first '/' and the run, and the closing '/' becomes
      '|'; the scan then resumes after the replaced '/'. */
  function MarkSegments(s: string): (r: string)
    ensures |r| == |s|
    decreases |s|
  {
    if |s| == 0 then ""
    else if s[0] == '/' && 0 < SegmentLength(s[1..]) < |s| - 1 then
      var k := SegmentLength(s[1..]);
      s[..k + 1] + "|" + MarkSegments(s[k + 2..])
    else
      [s[0]] + MarkSegments(s[1..])
  }

  /** The replacement only ever turns a '/' into '|'. */
  lemma {:induction false} MarkSegmentsMarksOnlySlashes(s: string)
    ensures forall i :: 0 <= i < |s| ==>
      MarkSegments(s)[i] == s[i] || (s[i] == '/' && MarkSegments(s)[i] == '|')
    decreases |s|
  {
    if |s| > 0 {
      var r := MarkSegments(s);
      if s[0] == '/' && 0 < SegmentLength(s[1..]) < |s| - 1 {
        var k := SegmentLength(s[1..]);
        var tail := MarkSegments(s[k + 2..]);
        MarkSegmentsMarksOnlySlashes(s[k + 2..]);
        assert r == s[..k + 1] + "|" + tail;
        forall i | 0 <= i < |s| ensures r[i] == s[i] || (s[i] == '/' && r[i] == '|') {
          if i >= k + 2 {
            assert r[i] == tail[i - (k + 2)] && s[i] == s[k + 2..][i - (k + 2)];
          } else if i == k + 1 {
            assert s[i] == s[1..][k];
          }
        }
      } else {
        var tail := MarkSegments(s[1..]);
        MarkSegmentsMarksOnlySlashes(s[1..]);
        assert r == [s[0]] + tail;
        forall i | 0 <= i < |s| ensures r[i] == s[i] || (s[i] == '/' && r[i] == '|') {
          if i >= 1 {
            assert r[i] == tail[i - 1] && s[i] == s[1..][i - 1];
          }
        }
      }
    }
  }

  /** getServicePaths: the marked path split at '|'. */
  function ServicePaths(path: string): (parts: seq<string>)
    ensures |parts| >= 1
  {
    Split(MarkSegments(path), '|')
  }

  /** The service key HandleRequest looks up: the first element of
      getServicePaths, which always exists. It is a prefix of the path, cut
      where the regex marked the end of the first segment or at the end. */
  function ServiceKey(path: string): (key: string)
    ensures |key| <= |path| && path[..|key|] == key
    ensures '|' !in key
  {
    var r := MarkSegments(path);
    var key := Split(r, '|')[0];
    SplitFirstPiece(r, '|');
    MarkSegmentsMarksOnlySlashes(path);
    assert forall i :: 0 <= i < |key| ==> key[i] == r[i] && r[i] != '|';
    key
  }

  lemma {:induction false} SegmentLengthOfSlashFree(a: string, b: string)
    requires '/' !in a
    ensures SegmentLength(a + b) == |a| + SegmentLength(b)
    decreases |a|
  {
    if |a| > 0 {
      assert (a + b)[1..] == a[1..] + b;
      assert '/' !in a[1..];
      SegmentLengthOfSlashFree(a[1..], b);
    } else {
      assert a + b == b;
    }
  }

  lemma {:induction false} MarkSegmentsOfSlashFree(s: string)
    requires '/' !in s
    ensures MarkSegments(s) == s
    decreases |s|
  {
    if |s| > 0 {
      assert '/' !in s[1..];
      MarkSegmentsOfSlashFree(s[1..]);
      assert [s[0]] + s[1..] == s;
    }
  }

  /** A path "/" + s + "/" + rest, with s a non-empty segment free of '/' and
      '|', yields "/" + s, leading slash kept, followed by the pieces of rest. */
  lemma ServicePathsOfNestedPath(s: string, rest: string)
    requires s != [] && '/' !in s && '|' !in s
    ensures ServicePaths("/" + s + "/" + rest) == ["/" + s] + Split(MarkSegments(rest), '|')
    ensures ServiceKey("/" + s + "/" + rest) == "/" + s
  {
    var p := "/" + s + "/" + rest;
    assert p[1..] == s + ("/" + rest);
    SegmentLengthOfSlashFree(s, "/" + rest);
    assert SegmentLength(p[1..]) == |s|;
    assert p[..|s| + 1] == "/" + s;
    assert p[|s| + 2..] == rest;
    assert MarkSegments(p) == ("/" + s) + "|" + MarkSegments(rest);
    assert '|' !in "/" + s;
    SplitAtFirstSeparator("/" + s, MarkSegments(rest), '|');
  }

  /** A path "/" + s with no further '/' (and no '|') is a single element. */
  lemma ServicePathsOfSingleSegment(s: string)
    requires '/' !in s && '|' !in s
    ensures ServicePaths("/" + s) == ["/" + s]
  {
    var p := "/" + s;
    assert p[1..] == s;
    SegmentLengthOfSlashFree(s, "");
    assert s + "" == s;
    MarkSegmentsOfSlashFree(s);
    assert MarkSegments(p) == p;
    assert '|' !in p;
    SplitWithoutSeparator(p, '|');
  }

  /** "/orders/123" resolves the key "/orders" (with its leading slash). */
  lemma OrdersExample(path: string, s: string, rest: string)
    requires s == "orders" && rest == "123" && path == "/" + s + "/" + rest
    ensures path == "/orders/123"
    ensures ServicePaths(path) == ["/orders", "123"]
  {
    assert '/' !in s && '|' !in s && '/' !in rest && '|' !in rest;
    ServicePathsOfNestedPath(s, rest);
    MarkSegmentsOfSlashFree(rest);
    SplitWithoutSeparator(rest, '|');
    assert "/" + s == "/orders";
  }

  // ---------------------------------------------------------------------------
  // Path stripping

  /** The StripPath rewrite as written: trim "/" + key and make sure the
      result begins with '/'. */
  function StrippedPath(path: string, key: string): (r: string)
    ensures |r| > 0 && r[0] == '/'
  {
    var t := TrimPrefix(path, "/" + key);
    if HasPrefix(t, "/") then t else "/" + t
  }

  /** The forwarded path: stripped when the service asks for it, else untouched. */
  function ForwardedPath(path: string, key: string, strip: bool): (r: string)
    ensures strip ==> |r| > 0 && r[0] == '/'
    ensures !strip ==> r == path
  {
    if strip then StrippedPath(path, key) else path
  }

  /** Because the key already starts with '/', the trimmed prefix is "//" + s
      and an ordinary path is forwarded unchanged. */
  lemma StrippedPathKeepsOrdinaryPath(s: string, rest: string)
    requires s != [] && s[0] != '/'
    ensures StrippedPath("/" + s + "/" + rest, "/" + s) == "/" + s + "/" + rest
  {
    var p := "/" + s + "/" + rest;
    var prefix := "/" + ("/" + s);
    assert !HasPrefix(p, prefix) by {
      assert p[1] == s[0] && prefix[1] == '/';
    }
    assert p[..1] == "/";
  }

  /** The rewrite as evidently intended: trim the key itself. */
  function StrippedPathIntended(path: string, key: string): (r: string)
    ensures |r| > 0 && r[0] == '/'
  {
    var t := TrimPrefix(path, key);
    if HasPrefix(t, "/") then t else "/" + t
  }

  lemma StrippedPathIntendedRemovesKey(s: string, rest: string)
    ensures StrippedPathIntended("/" + s + "/" + rest, "/" + s) == "/" + rest
    ensures StrippedPathIntended("/" + s, "/" + s) == "/"
  {
    var p := "/" + s + "/" + rest;
    assert p[..|s| + 1] == "/" + s;
    assert p[|s| + 1..] == "/" + rest;
    assert ("/" + rest)[..1] == "/";
    var q := "/" + s;
    assert q[..|q|] == q;
    assert q[|q|..] == "";
  }

  // ---------------------------------------------------------------------------
  // The decision HandleRequest takes

  /** The state of the looked-up backend that the decision depends on: the
      health flags of its servers, its balancer's counter and algorithm, its
      configuration and its middleware list. */
  datatype BackendState = BackendState(
    health: seq<bool>,
    counter: nat,
    algorithm: string,
    cfg: ServiceConfig,
    middlewares: seq<Middleware>)

  /** How a request ends. S names the chosen upstream: a list index in the
      decision, the server itself in the gateway. */
  datatype Verdict<S> =
    | ServiceNotFound
    | NoHealthyServer
    | Panicked
    | Rejected
    | Proxied(upstream: S, path: string)

  datatype Decision = Decision(verdict: Verdict<nat>, exchange: Exchange, selection: Option<Selection>)

  const ServiceNotAvailable := Error(400, "Service not available")
  const NoHealthyServerFound := Error(400, "No healthy server found")

  /** The steps after upstream i is picked: strip the path when configured,
      run the middlewares, then drop the request if it carries an "error"
      header (removing that header) or proxy it to i. */
  function Forwarded(e: Exchange, cfg: ServiceConfig, middlewares: seq<Middleware>, i: nat, id: string)
    : (res: (Verdict<nat>, Exchange))
    ensures res.0.Rejected? || res.0 == Proxied(i, res.1.path)
    ensures res.0.Rejected? ==> ErrorKey !in res.1.requestHeader
  {
    var e1 := e.(path := ForwardedPath(e.path, ServiceKey(e.path), cfg.stripPath));
    var e2 := RunAll(middlewares, e1, cfg.methods, id);
    if Get(e2.requestHeader, ErrorKey) != "" then
      (Rejected, e2.(requestHeader := e2.requestHeader - {ErrorKey}))
    else
      (Proxied(i, e2.path), e2)
  }

  /** HandleRequest on exchange e, where `backend` is what the registry holds
      under the service key of e.path (None when nothing). */
  function Dispatch(e: Exchange, backend: Option<BackendState>, id: string, draw: nat): (d: Decision)
    ensures d.selection.Some? <==> backend.Some?
    ensures backend.Some? ==>
      d.selection.value == SelectSpec(backend.value.algorithm, backend.value.health, backend.value.counter, draw)
  {
    match backend
    case None => Decision(ServiceNotFound, Written(e, ServiceNotAvailable), None)
    case Some(b) =>
      var sel := SelectSpec(b.algorithm, b.health, b.counter, draw);
      match sel.pick
      case DrawPanic => Decision(Panicked, e, Some(sel))
      case NoneHealthy => Decision(NoHealthyServer, Written(e, NoHealthyServerFound), Some(sel))
      case Unimplemented => Decision(NoHealthyServer, Written(e, NoHealthyServerFound), Some(sel))
      case Picked(i) =>
        var (v, e') := Forwarded(e, b.cfg, b.middlewares, i, id);
        Decision(v, e', Some(sel))
  }

  /** Routing failures stop the chain: an unknown key is answered 400
      "Service not available" before any balancer is consulted; a balancer
      error is answered 400 "No healthy server found"; neither proxies. */
  lemma RoutingFailures(e: Exchange, backend: Option<BackendState>, id: string, draw: nat)
    ensures var d := Dispatch(e, backend, id, draw);
      && (backend.None? ==>
            && d.verdict == ServiceNotFound && d.selection == None
            && d.exchange.statuses == e.statuses + [400]
            && Get(d.exchange.requestHeader, ErrorKey) == "Service not available")
      && (backend.Some? && !d.selection.value.pick.Picked? && !d.selection.value.pick.DrawPanic? ==>
            && d.verdict == NoHealthyServer
            && d.exchange.statuses == e.statuses + [400]
            && Get(d.exchange.requestHeader, ErrorKey) == "No healthy server found")
      && (d.verdict.ServiceNotFound? || d.verdict.NoHealthyServer? ==>
            d.exchange.statuses == e.statuses + [400] && d.exchange.path == e.path)
  {
  }

  /** With the default middlewares, a request is proxied exactly when an
      upstream was picked, the client sent no "error" header and the method is
      allowed; a proxied request goes to a healthy upstream on the forwarded
      path and carries the request id. */
  lemma ProxiedExactly(e: Exchange, b: BackendState, id: string, draw: nat)
    requires b.middlewares == DefaultMiddlewares
    ensures var d := Dispatch(e, Some(b), id, draw);
      var sel := SelectSpec(b.algorithm, b.health, b.counter, draw);
      && (d.verdict.Proxied? <==>
            sel.pick.Picked? && Get(e.requestHeader, ErrorKey) == "" && e.verb in b.cfg.methods)
      && (d.verdict.Proxied? ==>
            && d.verdict.upstream == sel.pick.index
            && d.verdict.upstream < |b.health| && b.health[d.verdict.upstream]
            && d.verdict.path == ForwardedPath(e.path, ServiceKey(e.path), b.cfg.stripPath)
            && Get(d.exchange.requestHeader, RequestIdHeader) == id
            && d.exchange.statuses == e.statuses)
  {
    var sel := SelectSpec(b.algorithm, b.health, b.counter, draw);
    if sel.pick.Picked? {
      var e1 := e.(path := ForwardedPath(e.path, ServiceKey(e.path), b.cfg.stripPath));
      DefaultPipeline(e1, b.cfg.methods, id);
    }
  }

  /** Selection happens before the middlewares: a request rejected by them
      has already advanced the balancer's counter, and the selection does not
      depend on the request's method. The rejected request keeps its request
      id, and its "error" header is removed. */
  lemma SelectionPrecedesMiddlewares(e: Exchange, b: BackendState, id: string, draw: nat, verb: string)
    requires b.middlewares == DefaultMiddlewares
    ensures var d := Dispatch(e, Some(b), id, draw);
      && (d.verdict.Rejected? ==>
            && d.selection.value.pick.Picked?
            && d.selection.value.counter > b.counter
            && ErrorKey !in d.exchange.requestHeader
            && Get(d.exchange.requestHeader, RequestIdHeader) == id
            && d.exchange.statuses == e.statuses + (if e.verb in b.cfg.methods then [] else [403]))
      && Dispatch(e.(verb := verb), Some(b), id, draw).selection == d.selection
  {
    var sel := SelectSpec(b.algorithm, b.health, b.counter, draw);
    if sel.pick.Picked? {
      var e1 := e.(path := ForwardedPath(e.path, ServiceKey(e.path), b.cfg.stripPath));
      DefaultPipeline(e1, b.cfg.methods, id);
    }
  }
}
