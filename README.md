# A verified model of the gateway's request path

This project models the core of VarthanV/gateway, a small HTTP reverse-proxy
gateway written in Go, in Dafny. It covers these parts:

- **The registry.** This is the map from service path to backend. Each backend
  holds an ordered list of upstream servers, its own load balancer, its
  middleware list and its configuration entry.
- **Request dispatch.** This extracts the service key from the path and looks
  the key up. It then picks an upstream, strips the path if the service asks
  for it, runs the middlewares, tests the `error` side-channel header and
  proxies.
- **The admin handlers.** These add, delete, update and list the servers of a
  backend.
- **The round-robin and random load balancers.**
- **The upstream health flag.**
- **The built-in middlewares.** These are request tagging, method admission and
  the CORS wrapper.
- **The response recorder.**

The modules follow the Go packages:

- `Strings` holds `strings.Split`, `Join`, `HasPrefix` and `TrimPrefix`.
- `Http` holds requests, response writers and the `Exchange` snapshot of both.
- `GatewayErrors` is `pkg/gateway-errors`.
- `Upstreams` is `pkg/server`.
- `Balancer` is `pkg/loadbalancer`.
- `RoundRobinFairness` proves how consecutive round-robin calls share out the
  servers when only some of them are healthy.
- `Middlewares` is `pkg/middlewares`.
- `Recorder` is `pkg/responsewriter`.
- `Config` holds the per-service configuration record.
- `Routing` holds the expression-only parts of `pkg/gateway`: the service-key
  regex, path stripping, and `Dispatch`, the decision for one request.
- `GatewayCore` holds the `Gateway` class, which owns the registry.

Code that changes state in place is modelled as a class whose methods are
proved against pure functions:

- the balancer's counter;
- the health flag;
- request and response headers;
- the recorder's buffer;
- the registry map.

Three parameters stand in for sources the model cannot see:

- **Probe results.** A health probe is a `Probe` value: `Failed`, or
  `Responded(status)`. When the gateway is built, `probe(path, j)` is the
  result of the probe of upstream j of the service at `path`. Each server
  gets its own result, even when two servers share a URL.
- **Random draws.** `rand.Intn(k)` is a natural number `draw`, taken modulo `k`.
- **Request ids.** `uuid.NewString()` is a string parameter `id`.

The model follows the code where a plain description of the gateway differs
from it:

- The service key of `/orders/123` is `/orders`, with its slash, and not
  `orders`.
- A random pick draws from the first n-1 servers only.
- StripPath leaves an ordinary path unchanged.
- An unknown algorithm name is reported on every request, not when the
  gateway is built.

The second and third are recorded as findings below.

## Model

| member | source | states |
|---|---|---|
| Strings.Split | pkg/gateway/gateway.go:158 | `strings.Split` with a one-character separator: it always returns at least one element, and no element contains the separator |
| Strings.SplitFirstPiece | pkg/gateway/gateway.go:158 | the first piece of a split is the input up to its first separator, or the whole input when there is none |
| Strings.Join | pkg/middlewares/main.go:31 | no pieces give ""; otherwise the result starts with the first piece, and its length is the pieces' total length plus one separator between each two neighbours |
| Strings.HasPrefix | pkg/gateway/gateway.go:134 | true exactly when s is the prefix followed by the rest of s |
| Strings.TrimPrefix | pkg/gateway/gateway.go:133 | removes the prefix exactly when the string starts with it (the prefix followed by the result gives back the input), otherwise returns the input |
| Strings.SplitAtFirstSeparator | pkg/gateway/gateway.go:158 | splitting `a + sep + b` with no separator in `a` gives `a` followed by the pieces of `b` |
| Strings.SplitJoin | pkg/middlewares/main.go:31 | splitting a comma-joined list whose items hold no comma gives back the list |
| Strings.JoinSplit | pkg/gateway/gateway.go:158 | joining the pieces of a split with the separator gives back the string |
| Http.Get | pkg/gateway/gateway.go:143 | the value stored under the key, or "" when the key is absent; a non-empty result means the header is present |
| GatewayErrors.Written | pkg/gateway-errors/error.go:21-30 | writing an error appends its status to the response, sets the request header `error` to its message, and leaves every other header, the method, the path and the body alone |
| GatewayErrors.Write | pkg/gateway-errors/error.go:21-30 | the request and response afterwards are `Written` of those before |
| Upstreams.Server.constructor | pkg/server/server.go:18-36 | the URL is the given text, and the initial health is the result of the one probe made before returning |
| Upstreams.Server.GetHealth | pkg/server/server.go:42-44 | returns the stored flag, as the probe at construction, `SetHealth` or `HealthCheck` last left it |
| Upstreams.Server.GetURL | pkg/server/server.go:46-48 | returns the URL object parsed at construction; `updateServer` compares this object, not its text |
| Upstreams.Server.SetHealth | pkg/server/server.go:38-40 | the flag holds the stored value, so `GetHealth` returns the last value stored |
| Upstreams.Server.HealthCheck | pkg/server/server.go:54-71 | healthy exactly when the probe got a response with 200 <= status < 400; a failed probe or any other status stores false; nothing but the flag changes |
| Upstreams.Healths | pkg/loadbalancer/loadbalancer.go:44 | the flags `GetHealth` reads, one per server and in list order |
| Balancer.Candidate | pkg/loadbalancer/loadbalancer.go:41 | the index round-robin looks at on attempt j from counter c is always in range for a non-empty list |
| Balancer.CandidateHit | pkg/loadbalancer/loadbalancer.go:40-43 | every index of the list is looked at by one of the n attempts of a scan |
| Balancer.CandidatesDistinct | pkg/loadbalancer/loadbalancer.go:40-43 | the n attempts of one scan look at n different indices |
| Balancer.Skipped | pkg/loadbalancer/loadbalancer.go:40-46 | the number of unhealthy candidates the scan passes before the first healthy one, or n when all n are unhealthy |
| Balancer.RoundRobinSpec | pkg/loadbalancer/loadbalancer.go:39-51 | round-robin returns only healthy, in-range servers or fails, and raises the counter by at most n |
| Balancer.RoundRobinAttempts | pkg/loadbalancer/loadbalancer.go:40-49 | on success the counter rises by k+1, the pick is `(c0 + k) mod n`, and every earlier candidate is unhealthy; on failure the counter rises by exactly n (0 on an empty list, which is never indexed) |
| Balancer.RoundRobinFailsIffNoneHealthy | pkg/loadbalancer/loadbalancer.go:40-49 | round-robin fails if and only if every server is unhealthy |
| Balancer.Rounds | pkg/loadbalancer/loadbalancer.go:39-51 | the picks of m consecutive round-robin calls, each starting from the counter the previous one left |
| Balancer.AllHealthyRoundsAt | pkg/loadbalancer/loadbalancer.go:41-45 | with all servers healthy, call t picks candidate t of the first call's counter |
| Balancer.AllHealthyRoundRobinVisitsEachOnce | pkg/loadbalancer/loadbalancer.go:41-45 | with all n servers healthy, n consecutive calls return every server, and no server twice |
| RoundRobinFairness.WindowCount | pkg/loadbalancer/loadbalancer.go:40-43 | any n consecutive counter values look at every server once, so exactly as many of them name a healthy server as there are healthy servers |
| RoundRobinFairness.PickAt | pkg/loadbalancer/loadbalancer.go:40-49 | with at least one healthy server, every call picks: it advances the counter by 1 to n steps, picks the server at the last value it passed, and passes exactly one healthy candidate |
| RoundRobinFairness.CallsCount | pkg/loadbalancer/loadbalancer.go:39-51 | t calls advance the counter by at least t and pass exactly t healthy candidates |
| RoundRobinFairness.HealthyCallsSpanAtMostN | pkg/loadbalancer/loadbalancer.go:39-51 | h consecutive calls, with h the number of healthy servers, advance the counter by at most n |
| RoundRobinFairness.RoundsAt | pkg/loadbalancer/loadbalancer.go:39-51 | call t of a run of calls starts from the counter that the t earlier calls left |
| RoundRobinFairness.RoundsSplit | pkg/loadbalancer/loadbalancer.go:39-51 | k + m consecutive calls are k calls followed by m calls from the counter those left |
| RoundRobinFairness.RoundRobinCounterAfterPick | pkg/loadbalancer/loadbalancer.go:40-49 | a call that picks index p leaves a counter equal to p + 1 modulo n |
| RoundRobinFairness.RoundRobinMod | pkg/loadbalancer/loadbalancer.go:40-49 | a call's pick depends only on the counter modulo n |
| RoundRobinFairness.AfterPickFollows | pkg/loadbalancer/loadbalancer.go:40-49 | after a call picks p, the next call picks what a call from counter p + 1 picks |
| RoundRobinFairness.NextRoundFollowsPick | pkg/loadbalancer/loadbalancer.go:39-51 | in a run of calls, the call after a pick at p picks the first healthy server cyclically after p |
| RoundRobinFairness.HealthyPicked | pkg/loadbalancer/loadbalancer.go:39-51 | every healthy server is picked by one of h consecutive calls |
| RoundRobinFairness.PicksDistinct | pkg/loadbalancer/loadbalancer.go:39-51 | no two of h consecutive calls pick the same server |
| RoundRobinFairness.RoundRobinVisitsEachHealthyOnce | pkg/loadbalancer/loadbalancer.go:39-51 | from any counter, h consecutive calls pick only healthy servers, pick every healthy server, and pick none twice |
| RoundRobinFairness.RoundRobinFairShare | pkg/loadbalancer/loadbalancer.go:39-51 | over k times h consecutive calls, each healthy server is picked exactly k times and an unhealthy one never |
| RoundRobinFairness.RoundsOnlyHealthy | pkg/loadbalancer/loadbalancer.go:39-51 | with at least one healthy server, every call of any run picks a healthy, in-range server |
| RoundRobinFairness.ShareWithTail | pkg/loadbalancer/loadbalancer.go:39-51 | calls that pick only healthy servers, appended to a block, leave an unhealthy server's count at 0 and never lower a healthy one's |
| RoundRobinFairness.RoundRobinAtLeastFloor | pkg/loadbalancer/loadbalancer.go:39-51 | over any N consecutive calls, each healthy server is picked at least N / h times (rounded down) and an unhealthy one never |
| Balancer.FirstHealthy | pkg/loadbalancer/loadbalancer.go:64-68 | the fallback scan finds the first healthy server in list order, or none when all are unhealthy |
| Balancer.DrawnIndex | pkg/loadbalancer/loadbalancer.go:54 | the drawn index is at most n-2, so the last server is never drawn |
| Balancer.RandomSpec | pkg/loadbalancer/loadbalancer.go:53-72 | random panics exactly when n <= 1, leaving the counter unchanged; otherwise it raises the counter by exactly 1 and returns only healthy servers; it never reports an unknown algorithm |
| Balancer.RandomChoice | pkg/loadbalancer/loadbalancer.go:54-70 | the drawn server is returned when healthy; a fallback pick has only unhealthy servers before it; failure happens if and only if no server is healthy |
| Balancer.SelectSpec | pkg/loadbalancer/loadbalancer.go:27-37 | an unknown algorithm name, and only such a name, gives an error with the counter unchanged; any pick is healthy and advances the counter |
| Balancer.LoadBalancer.constructor | pkg/loadbalancer/loadbalancer.go:23-25 | a new balancer has the given algorithm and counter 0 |
| Balancer.LoadBalancer.GetNextServer | pkg/loadbalancer/loadbalancer.go:27-37 | the server returned and the new counter are those `SelectSpec` gives for the current health flags |
| Balancer.LoadBalancer.RoundRobin | pkg/loadbalancer/loadbalancer.go:39-51 | the scanning loop returns the server and leaves the counter that `RoundRobinSpec` gives |
| Balancer.LoadBalancer.Random | pkg/loadbalancer/loadbalancer.go:53-72 | the draw and fallback loop return the server and leave the counter that `RandomSpec` gives |
| Balancer.WrapInt32 | pkg/loadbalancer/loadbalancer.go:43 | `atomic.Int32.Add` wraps into the int32 range and is the identity inside it |
| Balancer.GoRem | pkg/loadbalancer/loadbalancer.go:41 | Go's `%` matches the mathematical remainder on non-negative operands and is non-positive on negative ones |
| Balancer.Int32CounterWrapsToNegativeIndex | pkg/loadbalancer/loadbalancer.go:41-43 | after 2^31 attempts the counter is -2^31, and the index for three servers is -2 |
| Balancer.RandomIntendedSpec | pkg/loadbalancer/loadbalancer.go:54 | drawing from all n servers returns only healthy servers and never panics |
| Balancer.RandomAsWrittenPanicsOnSingleServer | pkg/loadbalancer/loadbalancer.go:54-60 | as written, one healthy server panics, and of two servers the first is always drawn |
| Balancer.RandomIntendedReachesEveryServer | pkg/loadbalancer/loadbalancer.go:54-60 | as intended, every healthy server can be drawn, and a single healthy server is always returned |
| Middlewares.Tagged | pkg/middlewares/default.go:16-23 | the same id is stored under the request-id header in both request and response headers; no other header, status or body changes |
| Middlewares.MethodAdmitted | pkg/middlewares/default.go:25-33 | a listed method (exact match) changes nothing; any other method, and every method when the list is empty, gets 403 and request header `error` = "Method not allowed" |
| Middlewares.RunAll | pkg/gateway/gateway.go:88-92 | the middlewares applied in list order with no early exit; whatever the list, they never change the method, the path or the body, and only append statuses |
| Middlewares.DefaultPipeline | pkg/middlewares/default.go:35-37 | tagging runs before admission, so a rejected request still carries its id; an `error` header is present exactly when the client sent one or the method is not allowed; 403 is written exactly when the method is not allowed |
| Middlewares.RequestTaggingMiddleware | pkg/middlewares/default.go:16-23 | the request and response afterwards are `Tagged` of those before |
| Middlewares.CheckIfMethodAllowed | pkg/middlewares/default.go:25-33 | the request and response afterwards are `MethodAdmitted` of those before |
| Middlewares.Run | pkg/gateway/gateway.go:90 | running one middleware of the list has the effect of that middleware |
| Middlewares.OriginAllowed | pkg/middlewares/main.go:25-29 | the allow-origin header is set to the request's origin if and only if the origin is listed, and every other header stays the same |
| Middlewares.CorsServed | pkg/middlewares/main.go:20-42 | sets allow-origin iff the origin is listed; allow-methods is always the comma-joined list; allow-headers is always "Content-Type, Authorization"; OPTIONS gets 204 and no call to `next`; any other method calls `next`; the request is never changed |
| Middlewares.AllowMethodsRoundTrip | pkg/middlewares/main.go:31 | the allow-methods header decodes back to the configured list |
| Middlewares.Handler.ServeHTTP | pkg/middlewares/main.go:40 | the wrapped handler sees the exchange as it stands at the call |
| Middlewares.CORSMiddleware | pkg/middlewares/main.go:20-42 | the origin loop and header writes give `CorsServed`'s exchange, and `next` is called once, after all headers are set, exactly when the method is not OPTIONS |
| Recorder.ResponseRecorder.constructor | pkg/responsewriter/responsewriter.go:24-30 | a new recorder has an empty body and status 200 |
| Recorder.ResponseRecorder.Write | pkg/responsewriter/responsewriter.go:14-17 | the buffer grows by exactly b, so after writes b1..bk it holds b1 ++ ... ++ bk; exactly b is forwarded; the wrapped writer's count is returned; the status is unchanged |
| Recorder.ResponseRecorder.WriteHeader | pkg/responsewriter/responsewriter.go:19-22 | the status is recorded (the last call wins) and forwarded; the body is unchanged |
| Routing.SegmentLength | pkg/gateway/gateway.go:154 | the `[^/]+` run: the longest prefix with no '/' |
| Routing.MarkSegments | pkg/gateway/gateway.go:154-155 | the regex replacement keeps the length of the path |
| Routing.MarkSegmentsMarksOnlySlashes | pkg/gateway/gateway.go:154-155 | every character of the replaced path is the original one, except that some '/' become the vertical bar marker; nothing else is changed |
| Routing.MarkSegmentsOfSlashFree | pkg/gateway/gateway.go:154-155 | the regex leaves a string with no '/' unchanged |
| Routing.ServicePaths | pkg/gateway/gateway.go:153-160 | at least one element, so the "Invalid path" branch of HandleRequest cannot be taken |
| Routing.ServiceKey | pkg/gateway/gateway.go:97-114 | the key `urlSplit[0]` is a prefix of the request path and holds no vertical bar |
| Routing.ServicePathsOfNestedPath | pkg/gateway/gateway.go:153-160 | for "/" + s + "/" + rest, with s non-empty and free of '/' and of the vertical bar, the first element (the key) is "/" + s, leading slash kept |
| Routing.ServicePathsOfSingleSegment | pkg/gateway/gateway.go:153-160 | "/" + s with no further '/' yields the single element "/" + s |
| Routing.OrdersExample | pkg/gateway/gateway.go:153-160 | "/orders/123" yields ["/orders", "123"] |
| Routing.StrippedPath | pkg/gateway/gateway.go:131-138 | the stripped path always starts with '/' |
| Routing.ForwardedPath | pkg/gateway/gateway.go:131-138 | with StripPath on, the forwarded path starts with '/'; with it off, the path is untouched |
| Routing.StrippedPathKeepsOrdinaryPath | pkg/gateway/gateway.go:133 | because the key already begins with '/', an ordinary path "/s/rest" is forwarded unchanged |
| Routing.StrippedPathIntended | pkg/gateway/gateway.go:133 | trimming the key itself still yields a path starting with '/' |
| Routing.StrippedPathIntendedRemovesKey | pkg/gateway/gateway.go:133-136 | trimming the key turns "/s/rest" into "/rest" and "/s" into "/" |
| Routing.Forwarded | pkg/gateway/gateway.go:131-149 | once an upstream is picked, the request is either rejected, with its `error` header removed, or proxied to that upstream on the path as it stands after stripping and the middlewares |
| Routing.Dispatch | pkg/gateway/gateway.go:94-151 | the balancer is consulted if and only if the key is registered, and then with that backend's flags, counter and algorithm |
| Routing.RoutingFailures | pkg/gateway/gateway.go:114-129 | an unknown key gives 400 "Service not available" before any balancer call; a balancer error gives 400 "No healthy server found"; neither proxies or changes the path |
| Routing.ProxiedExactly | pkg/gateway/gateway.go:140-149 | with the default middlewares, a request is proxied iff a server was picked, the client sent no `error` header and the method is allowed; it then goes to a healthy server on the forwarded path, carrying the request id |
| Routing.SelectionPrecedesMiddlewares | pkg/gateway/gateway.go:123-147 | selection does not depend on the method; a rejected request has already advanced the counter, keeps its id, loses its `error` header, and has 403 written only if its method is not allowed |
| GatewayCore.ConfigIndex | pkg/gateway/gateway.go:61-73 | every configured path is registered, and every registered entry is stored under its own path |
| GatewayCore.ConfigIndexEntryIsLast | pkg/gateway/gateway.go:61-73 | every registered entry is a configuration entry for its path, and no later entry has that path |
| GatewayCore.ConfigIndexLastWins | pkg/gateway/gateway.go:72 | when a path is configured more than once, the last entry is the one registered |
| GatewayCore.NewBackend | pkg/gateway/gateway.go:62-71 | the entry kept; one server per upstream URL, in configuration order; each server's health is the result of its own probe; a fresh balancer with the gateway-wide algorithm and counter 0; the default middlewares |
| GatewayCore.NewRegistry | pkg/gateway/gateway.go:61-73 | the registry holds exactly the configured paths; each backend keeps the last entry for its path, the default middlewares, the gateway-wide algorithm and one server per upstream URL; every balancer starts at counter 0, and each server's health is the result of its own probe; no two backends share a balancer |
| GatewayCore.Urls | pkg/gateway/gateway.go:297-302 | one URL string per server, in list order |
| GatewayCore.FirstWithUrlText | pkg/gateway/gateway.go:248-249 | the first server whose URL string equals the given one, or none |
| GatewayCore.FirstWithUrl | pkg/gateway/gateway.go:276-277 | the first server holding the very same URL object, or none |
| GatewayCore.FirstWithUrlTextAt | pkg/gateway/gateway.go:248-249 | the loop's stopping point characterises the first match: an index with no match before it, and a match at it or the end of the list, is that first match |
| GatewayCore.FirstWithUrlAt | pkg/gateway/gateway.go:276-277 | the same characterisation for the match on the URL object itself |
| GatewayCore.DeleteRemovesOneOccurrence | pkg/gateway/gateway.go:248-251 | deleting removes exactly one occurrence of the URL and keeps the others in order; a URL listed once is no longer listed |
| GatewayCore.UpdateKeepsListing | pkg/gateway/gateway.go:276-279 | since the match is on the URL object itself, an update never changes what `listServers` reports |
| GatewayCore.AddThenList | pkg/gateway/gateway.go:229-236 | after an add, the listing gains exactly one entry, the new URL, at the end |
| GatewayCore.Gateway.constructor | pkg/gateway/gateway.go:38-86 | the configuration is kept; the registry holds exactly the configured paths, each backend built from the last entry for its path; every backend has its own balancer, starting at counter 0, and the default middlewares; each server's health is the result of its own probe |
| GatewayCore.Gateway.ApplyMiddlewares | pkg/gateway/gateway.go:88-92 | every middleware runs in list order with no early exit: the exchange afterwards is `RunAll` of the one before |
| GatewayCore.Gateway.HandleRequest | pkg/gateway/gateway.go:94-151 | request, response, outcome and the looked-up balancer's counter are as `Dispatch` gives for the state before; no other balancer moves |
| GatewayCore.Gateway.Serve | pkg/gateway/gateway.go:123-149 | for a registered key, the request, response, outcome and counter are those `Dispatch` gives for the backend's state before the call |
| GatewayCore.Gateway.Forward | pkg/gateway/gateway.go:131-149 | the path rewrite, the middlewares and the `error` header test leave the request and response that `Forwarded` gives, and proxy to the picked server unless rejected |
| GatewayCore.Gateway.AddServer | pkg/gateway/gateway.go:221-237 | the decoded server is an unhealthy zero value; an undecodable body gives 400; an unknown path gives 404 with nothing changed (an empty path is not rejected); otherwise 201, the server is appended, and nothing else changes |
| GatewayCore.Gateway.DeleteServer | pkg/gateway/gateway.go:239-260 | a missing path or URL gives 400; an unknown path or URL gives 404 with nothing changed; otherwise 200, only the first server with that URL string is removed, and the rest keep their order |
| GatewayCore.Gateway.UpdateServer | pkg/gateway/gateway.go:262-288 | the decoded server is an unhealthy zero value; an undecodable body or missing path gives 400; an unknown path or no server with that URL object gives 404 with nothing changed; otherwise 200, and only that server is replaced in place |
| GatewayCore.Gateway.ListServers | pkg/gateway/gateway.go:290-306 | a missing path gives 400, an unknown one 404; otherwise 200 with the URL strings in list order |

## Left out

- The audit logger is not modelled: its goroutine, its semaphore of 100, its channel, and the JSON log lines appended to a file. This is concurrency and file I/O.
- Proxying through `httputil.ReverseProxy` is not modelled. `HandleRequest` ends with the verdict `Proxied(server, path)`.
- The probe and the 5-second ticker that repeats it are network I/O on a goroutine. Each probe result is a parameter.
- `atomic.Int32` and `atomic.Bool` are modelled as plain fields. Calls are sequential, so races between concurrent requests are not captured.
- `rand.Intn` and `uuid.NewString` are replaced by the parameters `draw` and `id`.
- `GatewayErrors.Write` does not append the error's JSON body and does not model the marshal-failure path, which writes 500. JSON encoding is a library call, and marshalling this struct cannot fail.
- `listLogs` is not modelled. It reads a file.
- Gin routing and JSON binding are not modelled. A body that binds is given as an already-built `Server`, and one that does not bind is `None`. Binding fills no unexported field, so the bound server is a zero `server.Server`: it is unhealthy, and since `server.New` never runs for it, nothing ever probes it. `AddServer` and `UpdateServer` require the decoded server to be unhealthy. Because the balancers only pick healthy servers, such a server is never picked.
- The zero server's URL is nil, and the model gives it a `Url` object instead. The next three lines say what this leaves out.
- GatewayCore.Gateway.ListServers: once a server added or replaced through the admin API is in the list, `srv.GetURL().String()` dereferences its nil URL and panics. The model reports a URL text for it.
- GatewayCore.Gateway.DeleteServer: the same nil dereference panics when the scan reaches such a server before a match. The model compares its URL text.
- GatewayCore.Gateway.UpdateServer: the decoded server's nil URL equals no configured server's URL, only the nil URL of a server added or replaced earlier. The model compares URL objects, so a decoded server holding a configured server's object can replace that server.
- The `rateLimiters` map is not modelled. It is created but never read.
- `JWTMiddleware` is not modelled. It is an empty stub.
- Configuration loading (`pkg/config/config.go`, TOML) is not modelled. `url.Parse` is not modelled either: a URL is its text, and a parse failure, which leaves the URL nil, is not represented.
- HTTP header names are not canonicalised, and each header holds one value. The name of the request-id header comes from `pkg/constants`, which is not part of this model. Here it is "X-Request-Id". All that matters is that it differs from "error".
- A response writer records every `WriteHeader` call in order. The net/http rule that only the first status reaches the client is not modelled.
- The "Invalid path" branch of `HandleRequest` is not modelled. `Routing.ServicePaths` proves it cannot be taken.
- Recorder.ResponseRecorder.Write: the wrapped writer's error return is not modelled. The model's writer always accepts all of b, so a short write with an error cannot occur.
- Balancer.RoundRobinSpec: the counter is a natural number. The int32 wrap-around is modelled separately and recorded as a finding.
- GatewayCore.Gateway.constructor assumes that each loop iteration has its own `c`, as from Go 1.22 on. Under earlier Go versions every backend would share the last configuration entry.
- The gateway-wide algorithm name is not checked when the gateway is built. As in the code, an unknown name fails each request with "No healthy server found".

## Findings

The operational members follow the code as written for the `Intn(n-1)` draw and the `"/" + key` prefix, so `Dispatch`, `LoadBalancer.Random` and `Gateway.HandleRequest` keep those two behaviours. The round-robin counter is the exception. The operational members use a natural-number counter, which is the corrected behaviour, and only `Int32CounterWrapsToNegativeIndex` models the int32 wrap-around. The corrected definitions are proved alongside the as-written ones.

| source | as written | input that shows it | evidently intended | confidence | as-written member | corrected member |
|---|---|---|---|---|---|---|
| pkg/loadbalancer/loadbalancer.go:41-43 | the round-robin counter is an `atomic.Int32` taken modulo n with Go's truncating `%` | after 2^31 attempts the counter wraps to -2^31, and with 3 servers the index is -2, so `servers[idx]` panics | the index stays in [0, n): the counter never goes negative, as a natural-number counter guarantees (`RoundRobinAttempts` proves the pick is `(c0 + k) mod n`) | not executed | Balancer.Int32CounterWrapsToNegativeIndex | Balancer.RoundRobinSpec |
| pkg/loadbalancer/loadbalancer.go:54 | `rand.Intn(len(servers) - 1)` | one healthy server: `Intn(0)` panics; with two servers the second is never drawn | `rand.Intn(len(servers))`, guarded against an empty list (where `Intn(0)` would still panic): any server can be drawn, and a single healthy server is always returned (`RandomIntendedReachesEveryServer`) | not executed | Balancer.RandomAsWrittenPanicsOnSingleServer | Balancer.RandomIntendedSpec |
| pkg/gateway/gateway.go:133 | `strings.TrimPrefix(path, "/" + urlSplit[0])`, although the key already starts with '/' | StripPath on and path "/orders/123": the prefix "//orders" never matches, and "/orders/123" is forwarded | trim the key itself, forwarding "/123" (`StrippedPathIntendedRemovesKey`) | not executed | Routing.StrippedPathKeepsOrdinaryPath | Routing.StrippedPathIntended |
