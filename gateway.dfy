/** pkg/gateway/gateway.go: the registry of backends keyed by service path,
    request handling, and the admin handlers that edit a backend's server
    list. */
module GatewayCore {
  import opened Wrappers
  import opened Strings
  import opened Http
  import opened GatewayErrors
  import opened Config
  import opened Upstreams
  import opened Balancer
  import opened Middlewares
  import opened Routing

  /** One registered service: its servers, its middleware list, its own
      balancer and its configuration entry. */
  datatype Backend = Backend(
    servers: seq<Server>,
    middlewares: seq<Middleware>,
    lb: LoadBalancer,
    cfg: ServiceConfig)

  /** What HandleRequest's decision depends on, read from the heap. */
  function Snapshot(b: Backend): (st: BackendState)
    reads b.lb, b.servers
    ensures |st.health| == |b.servers|
  {
    BackendState(Healths(b.servers), b.lb.current, b.lb.algorithm, b.cfg, b.middlewares)
  }

  /** The verdict with the chosen index replaced by the server at it. */
  function Lift(v: Verdict<nat>, list: seq<Server>): Verdict<Server>
    requires v.Proxied? ==> v.upstream < |list|
  {
    match v
    case ServiceNotFound => ServiceNotFound
    case NoHealthyServer => NoHealthyServer
    case Panicked => Panicked
    case Rejected => Rejected
    case Proxied(i, path) => Proxied(list[i], path)
  }

  // ---------------------------------------------------------------------------
  // Building the registry

  /** The entry each service path ends up with when New stores the services
      in order: a later entry for the same path replaces an earlier one. */
  function ConfigIndex(services: seq<ServiceConfig>): (m: map<string, ServiceConfig>)
    ensures forall i :: 0 <= i < |services| ==> services[i].path in m
    ensures forall p :: p in m ==> m[p].path == p
    decreases |services|
  {
    if |services| == 0 then map[]
    else
      var init := services[..|services| - 1];
      var last := services[|services| - 1];
      var m := ConfigIndex(init)[last.path := last];
      assert forall i :: 0 <= i < |services| - 1 ==> services[i] == init[i];
      m
  }

  /** The last entry configured for a path is the one registered. */
  lemma {:induction false} ConfigIndexLastWins(services: seq<ServiceConfig>, i: nat)
    requires i < |services|
    requires forall j :: i < j < |services| ==> services[j].path != services[i].path
    ensures ConfigIndex(services)[services[i].path] == services[i]
    decreases |services|
  {
    if i < |services| - 1 {
      var init := services[..|services| - 1];
      assert init[i] == services[i];
      ConfigIndexLastWins(init, i);
    }
  }

  /** A backend as New builds it from configuration entry c: that entry, the
      default middlewares, a balancer for the gateway-wide algorithm, and one
      server per upstream URL in configuration order. */
  predicate Configured(b: Backend, c: ServiceConfig, algorithm: string) {
    && b.cfg == c
    && b.middlewares == DefaultMiddlewares
    && b.lb.algorithm == algorithm
    && Urls(b.servers) == c.upstreams
  }

  /** The state New leaves a backend registered under `path` in: its
      balancer's counter at 0 and each server's flag the result of its own
      probe. */
  predicate Initial(b: Backend, path: string, probe: (string, nat) -> Probe)
    reads b.lb, b.servers
  {
    && b.lb.current == 0
    && forall j :: 0 <= j < |b.servers| ==> b.servers[j].healthy == ProbeSucceeded(probe(path, j))
  }

  /** The body of New's loop: one server per upstream URL, each probed once,
      and a fresh balancer at counter 0. `probe(c.path, j)` is what the probe
      of upstream j of the service at c.path came back with. */
  method NewBackend(c: ServiceConfig, algorithm: string, probe: (string, nat) -> Probe) returns (b: Backend)
    ensures Configured(b, c, algorithm)
    ensures Initial(b, c.path, probe)
    ensures fresh(b.lb)
  {
    var list: seq<Server> := [];
    for j := 0 to |c.upstreams|
      invariant |list| == j
      invariant forall k :: 0 <= k < j ==>
        list[k].url.text == c.upstreams[k]
        && list[k].healthy == ProbeSucceeded(probe(c.path, k))
    {
      var s := new Server(c.upstreams[j], probe(c.path, j));
      list := list + [s];
    }
    var lb := new LoadBalancer(algorithm);
    b := Backend(list, DefaultMiddlewares, lb, c);
  }

  // ---------------------------------------------------------------------------
  // Server lists

  /** The URL strings listServers reports, in order. */
  function Urls(list: seq<Server>): (r: seq<string>)
    ensures |r| == |list|
    ensures forall i :: 0 <= i < |list| ==> r[i] == list[i].url.text
  {
    seq(|list|, i requires 0 <= i < |list| => list[i].url.text)
  }

  /** The first position whose URL string is `url`, or |list| when none. */
  function FirstWithUrlText(list: seq<Server>, url: string): (i: nat)
    ensures i <= |list|
    ensures i < |list| ==> list[i].url.text == url
    ensures forall j :: 0 <= j < i ==> list[j].url.text != url
    decreases |list|
  {
    if |list| == 0 then 0
    else if list[0].url.text == url then 0
    else 1 + FirstWithUrlText(list[1..], url)
  }

  /** The first match is the one a left-to-right scan stops at. */
  lemma {:induction false} FirstWithUrlTextAt(list: seq<Server>, url: string, i: nat)
    requires i <= |list|
    requires i < |list| ==> list[i].url.text == url
    requires forall j :: 0 <= j < i ==> list[j].url.text != url
    ensures FirstWithUrlText(list, url) == i
    decreases |list|
  {
    if |list| > 0 && i > 0 {
      FirstWithUrlTextAt(list[1..], url, i - 1);
    }
  }

  /** The same for the match on the URL object. */
  lemma {:induction false} FirstWithUrlAt(list: seq<Server>, u: Url, i: nat)
    requires i <= |list|
    requires i < |list| ==> list[i].url == u
    requires forall j :: 0 <= j < i ==> list[j].url != u
    ensures FirstWithUrl(list, u) == i
    decreases |list|
  {
    if |list| > 0 && i > 0 {
      FirstWithUrlAt(list[1..], u, i - 1);
    }
  }

  /** The first position holding the very URL object `u`, or |list| when none. */
  function FirstWithUrl(list: seq<Server>, u: Url): (i: nat)
    ensures i <= |list|
    ensures i < |list| ==> list[i].url == u
    ensures forall j :: 0 <= j < i ==> list[j].url != u
    decreases |list|
  {
    if |list| == 0 then 0
    else if list[0].url == u then 0
    else 1 + FirstWithUrl(list[1..], u)
  }

  /** Deleting the first match removes exactly one occurrence of the URL from
      the listing and keeps the rest in order; when the URL occurred once it
      is no longer listed. */
  lemma DeleteRemovesOneOccurrence(list: seq<Server>, url: string)
    requires FirstWithUrlText(list, url) < |list|
    ensures var i := FirstWithUrlText(list, url);
      var rest := list[..i] + list[i + 1..];
      && Urls(rest) == Urls(list)[..i] + Urls(list)[i + 1..]
      && multiset(Urls(rest))[url] == multiset(Urls(list))[url] - 1
      && (multiset(Urls(list))[url] == 1 ==> url !in Urls(rest))
  {
    var i := FirstWithUrlText(list, url);
    var u := Urls(list);
    assert u == u[..i] + [u[i]] + u[i + 1..];
    assert u[i] == url;
    var rest := list[..i] + list[i + 1..];
    assert Urls(rest) == u[..i] + u[i + 1..];
    assert multiset(u) == multiset(u[..i]) + multiset{url} + multiset(u[i + 1..]);
    if multiset(u)[url] == 1 {
      assert multiset(Urls(rest))[url] == 0;
    }
  }

  /** Updating matches on the URL object itself, so the replacement has the
      same URL and the listing does not change. */
  lemma UpdateKeepsListing(list: seq<Server>, s: Server)
    requires FirstWithUrl(list, s.url) < |list|
    ensures Urls(list[FirstWithUrl(list, s.url) := s]) == Urls(list)
  {
    var i := FirstWithUrl(list, s.url);
    assert list[i].url == s.url;
  }

  /** Adding a server lists its URL after the existing ones. */
  lemma AddThenList(list: seq<Server>, s: Server)
    ensures Urls(list + [s]) == Urls(list) + [s.url.text]
    ensures |Urls(list + [s])| == |Urls(list)| + 1
  {
    assert (list + [s])[|list|] == s;
  }

  /** Each registered entry is the last configuration entry for its path. */
  lemma {:induction false} ConfigIndexEntryIsLast(services: seq<ServiceConfig>, p: string) returns (i: nat)
    requires p in ConfigIndex(services)
    ensures i < |services| && ConfigIndex(services)[p] == services[i]
    ensures forall j :: i < j < |services| ==> services[j].path != p
    decreases |services|
  {
    var init := services[..|services| - 1];
    var last := services[|services| - 1];
    if last.path == p {
      i := |services| - 1;
    } else {
      i := ConfigIndexEntryIsLast(init, p);
      assert services[i] == init[i];
      forall j | i < j < |services| ensures services[j].path != p {
        if j < |services| - 1 {
          assert services[j] == init[j];
        }
      }
    }
  }

  /** The step from i services to i + 1: the (i + 1)-th entry replaces any
      earlier entry for its path. */
  lemma ConfigIndexSnoc(services: seq<ServiceConfig>, i: nat)
    requires i < |services|
    ensures ConfigIndex(services[..i + 1]) == ConfigIndex(services[..i])[services[i].path := services[i]]
  {
    assert services[..i + 1][..i] == services[..i];
  }

  /** Registering backend b, built from c, under c's path keeps every
      registered backend built from its entry. */
  lemma ConfiguredStep(m: map<string, Backend>, index: map<string, ServiceConfig>,
                       c: ServiceConfig, b: Backend, algorithm: string)
    requires forall p :: p in m <==> p in index
    requires forall p :: p in m ==> Configured(m[p], index[p], algorithm)
    requires Configured(b, c, algorithm)
    ensures var m', index' := m[c.path := b], index[c.path := c];
      && (forall p :: p in m' <==> p in index')
      && (forall p :: p in m' ==> Configured(m'[p], index'[p], algorithm))
  {
  }

  /** Registering a backend whose balancer is not yet registered keeps the
      registered balancers pairwise distinct. */
  lemma DistinctStep(m: map<string, Backend>, lbs: set<LoadBalancer>, key: string, b: Backend)
    requires forall p, q :: p in m && q in m && p != q ==> m[p].lb != m[q].lb
    requires forall p :: p in m ==> m[p].lb in lbs
    requires b.lb !in lbs
    ensures var m' := m[key := b];
      && (forall p, q :: p in m' && q in m' && p != q ==> m'[p].lb != m'[q].lb)
      && (forall p :: p in m' ==> m'[p].lb in lbs + {b.lb})
  {
  }

  /** Registering a backend in its initial state keeps every registered
      backend in its initial state. */
  lemma InitialStep(m: map<string, Backend>, key: string, b: Backend, probe: (string, nat) -> Probe)
    requires forall p :: p in m ==> Initial(m[p], p, probe)
    requires Initial(b, key, probe)
    ensures var m' := m[key := b]; forall p :: p in m' ==> Initial(m'[p], p, probe)
  {
  }

  /** New's loop over the configured services: each path gets a backend
      built from its last configuration entry, each with its own balancer. */
  method NewRegistry(cfg: Config, probe: (string, nat) -> Probe) returns (m: map<string, Backend>)
    ensures forall p :: p in m <==> p in ConfigIndex(cfg.services)
    ensures forall p :: p in m ==> Configured(m[p], ConfigIndex(cfg.services)[p], cfg.algorithm)
    ensures forall p, q :: p in m && q in m && p != q ==> m[p].lb != m[q].lb
    ensures forall p :: p in m ==> Initial(m[p], p, probe)
  {
    m := map[];
    ghost var index: map<string, ServiceConfig> := map[];
    ghost var lbs: set<LoadBalancer> := {};
    for i := 0 to |cfg.services|
      invariant index == ConfigIndex(cfg.services[..i])
      invariant forall p :: p in m <==> p in index
      invariant forall p :: p in m ==> Configured(m[p], index[p], cfg.algorithm)
      invariant forall p :: p in m ==> m[p].lb in lbs
      invariant forall p, q :: p in m && q in m && p != q ==> m[p].lb != m[q].lb
      invariant forall p :: p in m ==> Initial(m[p], p, probe)
    {
      var c := cfg.services[i];
      var b := NewBackend(c, cfg.algorithm, probe);
      assert b.lb !in lbs;
      DistinctStep(m, lbs, c.path, b);
      ConfigIndexSnoc(cfg.services, i);
      ConfiguredStep(m, index, c, b, cfg.algorithm);
      InitialStep(m, c.path, b, probe);
      m := m[c.path := b];
      index := index[c.path := c];
      lbs := lbs + {b.lb};
    }
    assert cfg.services[..|cfg.services|] == cfg.services;
  }

  class Gateway {
    var servers: map<string, Backend>
    const cfg: Config

    /** Every backend has its own balancer and the default middlewares. */
    ghost predicate Valid()
      reads this
    {
      && (forall p, q :: p in servers && q in servers && p != q ==> servers[p].lb != servers[q].lb)
      && (forall p :: p in servers ==> servers[p].middlewares == DefaultMiddlewares)
    }

    ghost function Balancers(): set<LoadBalancer>
      reads this
    {
      set p | p in servers :: servers[p].lb
    }

    /** New: one backend per configured service, keyed by its path. */
    constructor (cfg: Config, probe: (string, nat) -> Probe)
      ensures this.cfg == cfg && Valid()
      ensures forall p :: p in servers <==> p in ConfigIndex(cfg.services)
      ensures forall p :: p in servers ==> Configured(servers[p], ConfigIndex(cfg.services)[p], cfg.algorithm)
      ensures forall p :: p in servers ==> Initial(servers[p], p, probe)
    {
      var m := NewRegistry(cfg, probe);
      servers := m;
      this.cfg := cfg;
    }

    /** applyMiddlewares: every middleware of the backend, in order. */
    method ApplyMiddlewares(b: Backend, w: Writer, r: Request, id: string)
      modifies w, r
      ensures View(r, w) == RunAll(b.middlewares, old(View(r, w)), b.cfg.methods, id)
    {
      for i := 0 to |b.middlewares|
        invariant View(r, w) == RunAll(b.middlewares[..i], old(View(r, w)), b.cfg.methods, id)
      {
        assert b.middlewares[..i + 1][..i] == b.middlewares[..i];
        Run(b.middlewares[i], b.cfg, w, r, id);
      }
      assert b.middlewares[..|b.middlewares|] == b.middlewares;
    }

    /** HandleRequest: the request and response end as Dispatch says, the
        looked-up balancer's counter takes the selection's value, and no
        other balancer moves. */
    method HandleRequest(w: Writer, r: Request, id: string, draw: nat) returns (verdict: Verdict<Server>)
      requires Valid()
      modifies w, r, Balancers()
      ensures
        var key := ServiceKey(old(r.path));
        var found := key in servers;
        var d := Dispatch(old(View(r, w)), if found then Some(old(Snapshot(servers[key]))) else None, id, draw);
        && View(r, w) == d.exchange
        && verdict == Lift(d.verdict, if found then servers[key].servers else [])
        && (found ==> servers[key].lb.current == d.selection.value.counter)
      ensures forall p :: p in servers && p != ServiceKey(old(r.path)) ==>
        servers[p].lb.current == old(servers[p].lb.current)
    {
      var urlSplit := ServicePaths(r.path);
      var key := urlSplit[0];
      if key !in servers {
        GatewayErrors.Write(ServiceNotAvailable, w, r);
        return ServiceNotFound;
      }
      verdict := Serve(servers[key], key, w, r, id, draw);
    }

    /** HandleRequest once the key is found: select an upstream with the
        backend's balancer, answer a selection failure with 400, or forward. */
    method Serve(b: Backend, key: string, w: Writer, r: Request, id: string, draw: nat)
      returns (verdict: Verdict<Server>)
      requires key == ServiceKey(r.path)
      modifies w, r, b.lb
      ensures
        var d := Dispatch(old(View(r, w)), Some(old(Snapshot(b))), id, draw);
        && View(r, w) == d.exchange
        && verdict == Lift(d.verdict, b.servers)
        && b.lb.current == d.selection.value.counter
    {
      ghost var e0 := View(r, w);
      ghost var st := Snapshot(b);
      ghost var sel := SelectSpec(st.algorithm, st.health, st.counter, draw);
      var chosen := b.lb.GetNextServer(b.servers, draw);
      assert Healths(b.servers) == st.health;
      assert chosen == ServerOf(b.servers, sel.pick) && b.lb.current == sel.counter;
      match chosen {
        case IntnPanic =>
          return Panicked;
        case NoServerHealthy =>
          GatewayErrors.Write(NoHealthyServerFound, w, r);
          return NoHealthyServer;
        case UnimplementedAlgorithm =>
          GatewayErrors.Write(NoHealthyServerFound, w, r);
          return NoHealthyServer;
        case Chosen(server) =>
          assert sel.pick.Picked? && server == b.servers[sel.pick.index];
          verdict := Forward(b, key, server, sel.pick.index, w, r, id);
      }
    }

    /** The rest of HandleRequest once `server`, at index i of the backend's
        list, is picked: the path rewrite, the middlewares and the "error"
        header test, as `Forwarded` states. */
    method Forward(b: Backend, key: string, server: Server, ghost i: nat, w: Writer, r: Request, id: string)
      returns (verdict: Verdict<Server>)
      requires key == ServiceKey(r.path)
      requires i < |b.servers| && b.servers[i] == server
      modifies w, r
      ensures var res := Forwarded(old(View(r, w)), b.cfg, b.middlewares, i, id);
        View(r, w) == res.1 && verdict == Lift(res.0, b.servers)
    {
      ghost var e0 := View(r, w);
      if b.cfg.stripPath {
        var trimmed := TrimPrefix(r.path, "/" + key);
        if !HasPrefix(trimmed, "/") {
          trimmed := "/" + trimmed;
        }
        r.path := trimmed;
      }
      assert View(r, w) == e0.(path := ForwardedPath(e0.path, key, b.cfg.stripPath));
      ApplyMiddlewares(b, w, r, id);
      if Get(r.header, ErrorKey) != "" {
        r.header := r.header - {ErrorKey};
        return Rejected;
      }
      return Proxied(server, r.path);
    }

    /** addServer: appends the decoded server to the backend's list (201),
        or reports the unknown path (404) or an undecodable body (400).
        Binding fills no unexported field, so a decoded server is never
        healthy, and nothing probes it later. */
    method AddServer(path: string, decoded: Option<Server>) returns (status: int, message: string)
      requires Valid()
      requires decoded.Some? ==> !decoded.value.healthy
      modifies this
      ensures Valid()
      ensures decoded.None? ==> status == 400 && message == "Invalid request body" && servers == old(servers)
      ensures decoded.Some? && path !in old(servers) ==>
        status == 404 && message == "Service path not found" && servers == old(servers)
      ensures decoded.Some? && path in old(servers) ==>
        && status == 201 && message == "Server added"
        && servers == old(servers)[path := old(servers)[path].(servers := old(servers)[path].servers + [decoded.value])]
    {
      if decoded.None? {
        return 400, "Invalid request body";
      }
      if path in servers {
        var b := servers[path];
        b := b.(servers := b.servers + [decoded.value]);
        servers := servers[path := b];
        return 201, "Server added";
      }
      return 404, "Service path not found";
    }

    /** deleteServer: removes the first server whose URL string equals url
        (200), or reports missing parameters (400), an unknown path or an
        unknown server (404). */
    method DeleteServer(path: string, url: string) returns (status: int, message: string)
      requires Valid()
      modifies this
      ensures Valid()
      ensures path == "" || url == "" ==>
        status == 400 && message == "Missing path or server URL" && servers == old(servers)
      ensures path != "" && url != "" && path !in old(servers) ==>
        status == 404 && message == "Service path not found" && servers == old(servers)
      ensures path != "" && url != "" && path in old(servers) ==>
        var list := old(servers)[path].servers;
        var i := FirstWithUrlText(list, url);
        if i < |list| then
          && status == 200 && message == "Server deleted"
          && servers == old(servers)[path := old(servers)[path].(servers := list[..i] + list[i + 1..])]
        else
          status == 404 && message == "Server not found" && servers == old(servers)
    {
      if path == "" || url == "" {
        return 400, "Missing path or server URL";
      }
      if path in servers {
        var b := servers[path];
        for i := 0 to |b.servers|
          invariant forall j :: 0 <= j < i ==> b.servers[j].url.text != url
          invariant servers == old(servers)
        {
          if b.servers[i].GetURL().text == url {
            FirstWithUrlTextAt(b.servers, url, i);
            b := b.(servers := b.servers[..i] + b.servers[i + 1..]);
            servers := servers[path := b];
            return 200, "Server deleted";
          }
        }
        FirstWithUrlTextAt(b.servers, url, |b.servers|);
        return 404, "Server not found";
      }
      return 404, "Service path not found";
    }

    /** updateServer: replaces the first server holding the same URL object
        as the decoded one (200), or reports an undecodable body or a missing
        path (400), an unknown path or no such server (404). As in addServer,
        a decoded server is never healthy. */
    method UpdateServer(path: string, decoded: Option<Server>) returns (status: int, message: string)
      requires Valid()
      requires decoded.Some? ==> !decoded.value.healthy
      modifies this
      ensures Valid()
      ensures decoded.None? ==> status == 400 && message == "Invalid request body" && servers == old(servers)
      ensures decoded.Some? && path == "" ==> status == 400 && message == "Missing path" && servers == old(servers)
      ensures decoded.Some? && path != "" && path !in old(servers) ==>
        status == 404 && message == "Service path not found" && servers == old(servers)
      ensures decoded.Some? && path != "" && path in old(servers) ==>
        var list := old(servers)[path].servers;
        var i := FirstWithUrl(list, decoded.value.url);
        if i < |list| then
          && status == 200 && message == "Server updated"
          && servers == old(servers)[path := old(servers)[path].(servers := list[i := decoded.value])]
        else
          status == 404 && message == "Server not found" && servers == old(servers)
    {
      if decoded.None? {
        return 400, "Invalid request body";
      }
      var updated := decoded.value;
      if path == "" {
        return 400, "Missing path";
      }
      if path in servers {
        var b := servers[path];
        for i := 0 to |b.servers|
          invariant forall j :: 0 <= j < i ==> b.servers[j].url != updated.url
          invariant servers == old(servers)
        {
          if b.servers[i].GetURL() == updated.GetURL() {
            FirstWithUrlAt(b.servers, updated.url, i);
            b := b.(servers := b.servers[i := updated]);
            servers := servers[path := b];
            return 200, "Server updated";
          }
        }
        FirstWithUrlAt(b.servers, updated.url, |b.servers|);
        return 404, "Server not found";
      }
      return 404, "Service path not found";
    }

    /** listServers: the URL strings of the backend's servers in order (200),
        or a missing path (400) or an unknown one (404). */
    method ListServers(path: string) returns (status: int, urls: seq<string>)
      ensures path == "" ==> status == 400 && urls == []
      ensures path != "" && path !in servers ==> status == 404 && urls == []
      ensures path != "" && path in servers ==> status == 200 && urls == Urls(servers[path].servers)
    {
      if path == "" {
        return 400, [];
      }
      if path in servers {
        var list := servers[path].servers;
        var out := new string[|list|];
        for i := 0 to |list|
          invariant forall j :: 0 <= j < i ==> out[j] == list[j].url.text
        {
          out[i] := list[i].GetURL().text;
        }
        return 200, out[..];
      }
      return 404, [];
    }
  }
}
