/** pkg/server: one upstream instance, its URL and its health flag. */
module Upstreams {

  /** A parsed URL (*url.URL). Two servers built from the same text hold two
      distinct URL objects: identity is by reference, `text` is what String() gives. */
  class Url {
    const text: string

    constructor (text: string)
      ensures this.text == text
    {
      this.text := text;
    }
  }

  /** What a liveness probe (http.Head) came back with. */
  datatype Probe = Failed | Responded(status: int)

  /** A probe counts as healthy exactly when it produced a response whose
      status lies in [200, 400). */
  predicate ProbeSucceeded(p: Probe) {
    p.Responded? && 200 <= p.status < 400
  }

  class Server {
    const url: Url
    var healthy: bool

    /** server.New: parses the URL and runs one probe before returning. */
    constructor (text: string, probe: Probe)
      ensures url.text == text && fresh(url)
      ensures healthy == ProbeSucceeded(probe)
    {
      url := new Url(text);
      healthy := false;
      new;
      HealthCheck(probe);
    }

    method SetHealth(val: bool)
      modifies this
      ensures healthy == val
    {
      healthy := val;
    }

    /** The flag as the constructor's probe, SetHealth or HealthCheck last
        left it. */
    function GetHealth(): (h: bool)
      reads this
      ensures h == healthy
    {
      healthy
    }

    /** The URL object parsed once at construction. */
    function GetURL(): (u: Url)
      ensures u == url
    {
      url
    }

    /** One round of healthCheck, given what the probe returned. */
    method HealthCheck(probe: Probe)
      modifies this
      ensures healthy <==> probe.Responded? && 200 <= probe.status < 400
    {
      if probe.Failed? {
        healthy := false;
      }
      if probe.Responded? && probe.status >= 200 && probe.status < 400 {
        healthy := true;
      } else {
        healthy := false;
      }
    }
  }

  /** The health flags of a server list, in list order. */
  function Healths(servers: seq<Server>): (hs: seq<bool>)
    reads servers
    ensures |hs| == |servers|
    ensures forall i :: 0 <= i < |servers| ==> hs[i] == servers[i].healthy
  {
    seq(|servers|, i reads servers requires 0 <= i < |servers| => servers[i].GetHealth())
  }
}
