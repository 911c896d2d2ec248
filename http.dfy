/** The parts of net/http the gateway touches: a request whose path and
    headers are changed in place, and the response writer it writes to. */
module Http {

  newtype byte = x: int | 0 <= x < 256

  /** A header map with one value per key (http.Header with Set/Get/Del). */
  type Header = map<string, string>

  /** http.Header.Get: the value under key, or "" when there is none. */
  function Get(h: Header, key: string): (v: string)
    ensures key in h ==> v == h[key]
    ensures key !in h ==> v == ""
    ensures v != "" ==> key in h
  {
    if key in h then h[key] else ""
  }

  /** An inbound request (*http.Request): its method (verb), its URL path and its headers. */
  class Request {
    var verb: string
    var path: string
    var header: Header

    constructor (verb: string, path: string, header: Header)
      ensures this.verb == verb && this.path == path && this.header == header
    {
      this.verb := verb;
      this.path := path;
      this.header := header;
    }
  }

  /** The http.ResponseWriter a request is answered through: its header map,
      the status codes passed to WriteHeader in call order, and the bytes written. */
  class Writer {
    var header: Header
    var statuses: seq<int>
    var body: seq<byte>

    constructor ()
      ensures header == map[] && statuses == [] && body == []
    {
      header, statuses, body := map[], [], [];
    }

    method WriteHeader(code: int)
      modifies this
      ensures statuses == old(statuses) + [code]
      ensures header == old(header) && body == old(body)
    {
      statuses := statuses + [code];
    }

    method Write(b: seq<byte>) returns (n: nat)
      modifies this
      ensures body == old(body) + b && n == |b|
      ensures header == old(header) && statuses == old(statuses)
    {
      body := body + b;
      n := |b|;
    }
  }

  /** What one exchange looks like at a given moment: the request's method,
      path and headers together with the response's headers, status log and body. */
  datatype Exchange = Exchange(
    verb: string,
    path: string,
    requestHeader: Header,
    responseHeader: Header,
    statuses: seq<int>,
    body: seq<byte>)

  function View(r: Request, w: Writer): Exchange
    reads r, w
  {
    Exchange(r.verb, r.path, r.header, w.header, w.statuses, w.body)
  }
}

/** pkg/gateway-errors: writing an error answers the client with the error's
    status and marks the request with the header "error" set to the message. */
module GatewayErrors {
  import opened Http

  const ErrorKey := "error"

  datatype Error = Error(httpStatusCode: int, message: string)

  /** The observable effect of gatewayerrors.Write on an exchange. */
  function Written(e: Exchange, err: Error): (e': Exchange)
    ensures e'.statuses == e.statuses + [err.httpStatusCode]
    ensures Get(e'.requestHeader, ErrorKey) == err.message
    ensures forall k :: k != ErrorKey ==> Get(e'.requestHeader, k) == Get(e.requestHeader, k)
    ensures e'.verb == e.verb && e'.path == e.path
    ensures e'.responseHeader == e.responseHeader && e'.body == e.body
  {
    e.(statuses := e.statuses + [err.httpStatusCode],
       requestHeader := e.requestHeader[ErrorKey := err.message])
  }

  method Write(err: Error, w: Writer, r: Request)
    modifies w, r
    ensures View(r, w) == Written(old(View(r, w)), err)
  {
    w.WriteHeader(err.httpStatusCode);
    r.header := r.header[ErrorKey := err.message];
  }
}
