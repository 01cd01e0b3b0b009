/**
  * server/server.go as a function: the router a configuration describes and the answer a freshly
  * built server gives. The server class and the concurrent server are both proved against it.
  */
module HttpSpec {
  import opened Prelude
  import opened Templates

  // ----- configuration (config/config.go) ---------------------------------------------------

  datatype ResponseConfig = ResponseConfig(status: int, body: string, headers: map<string, string>)

  datatype EndpointConfig = EndpointConfig(path: string, verb: string, response: ResponseConfig)

  /** The parts of `config.Config` the HTTP server reads. */
  datatype Config = Config(host: string, port: string, endpoints: seq<EndpointConfig>)

  // ----- the world around the server --------------------------------------------------------

  /** A JSON value: strings apart, because parameters are merged in as strings. */
  datatype Json = JString(s: string) | JOther(text: string)

  /** The library behaviour the server relies on, as deterministic parameters: `matches` is a route
      pattern against a url path with the captured variables, `canon` the canonical header key,
      `json` a body as a JSON object, `stamp` the printed UTC time, `dbUp` whether the pool exists. */
  datatype World = World(
    engine: Engine,
    matches: (string, string) -> Option<map<string, string>>,
    canon: string -> string,
    json: string -> Option<map<string, Json>>,
    stamp: nat -> string,
    dbUp: bool)

  datatype Request = Request(verb: string, path: string, body: string)

  /** What a request leaves for the saving goroutine. */
  datatype SaveJob = SaveJob(url: string, data: map<string, Json>, params: map<string, string>)

  /** What the handler hands to the `http.ResponseWriter`. */
  datatype Reply =
    | NotFound
    | MethodNotAllowed
    | TooLarge
    | Metrics
    | Snmp(operation: string)
    | Page(status: int, headers: map<string, string>, body: string)

  /** The reply, and the record handed to the saving goroutine if there is one. */
  datatype Outcome = Outcome(reply: Reply, save: Option<SaveJob>)

  // ----- routes -----------------------------------------------------------------------------

  datatype Route = EndpointRoute(verb: string, endpoint: EndpointConfig) | MetricsRoute

  type Router = seq<Route>

  function Upper(c: char): char {
    if 'a' <= c <= 'z' then (c as int - 32) as char else c
  }

  function ToUpper(s: string): string {
    seq(|s|, i requires 0 <= i < |s| => Upper(s[i]))
  }

  /** `strings.ToUpper` on ASCII: each small letter becomes the capital at its place in the alphabet, and
      every other character stays. */
  lemma UpperCases(s: string, i: nat)
    requires i < |s|
    ensures |ToUpper(s)| == |s|
    ensures forall k :: 0 <= k < 26 && s[i] == LOWER[k] ==> ToUpper(s)[i] == UPPER[k]
    ensures s[i] !in LOWER ==> ToUpper(s)[i] == s[i]
  {
    if 'a' <= s[i] <= 'z' {
      assert LOWER[s[i] as int - 'a' as int] == s[i];
    }
  }

  function RouteFor(e: EndpointConfig): Route { EndpointRoute(ToUpper(e.verb), e) }

  function EndpointRoutes(endpoints: seq<EndpointConfig>): Router {
    seq(|endpoints|, i requires 0 <= i < |endpoints| => RouteFor(endpoints[i]))
  }

  /** A completely built router: every endpoint in order, then `/metrics`. */
  function BuildRouter(cfg: Config): Router { EndpointRoutes(cfg.endpoints) + [MetricsRoute] }

  datatype Target = Endpoint(e: EndpointConfig, vars: map<string, string>) | MetricsPage | NoRoute(wrongMethod: bool)

  /** First match in registration order; a path that matched under another method only is remembered. */
  function Find(w: World, routes: Router, req: Request, wrongMethod: bool): Target {
    if routes == [] then NoRoute(wrongMethod)
    else
      var (pattern, verb) := match routes[0] {
        case EndpointRoute(m, e) => (e.path, m)
        case MetricsRoute => ("/metrics", "GET")
      };
      match w.matches(pattern, req.path)
      case None => Find(w, routes[1..], req, wrongMethod)
      case Some(vars) =>
        if verb != req.verb then Find(w, routes[1..], req, true)
        else if routes[0].MetricsRoute? then MetricsPage
        else Endpoint(routes[0].endpoint, vars)
  }

  predicate PathFits(w: World, route: Route, req: Request) {
    w.matches(if route.EndpointRoute? then route.endpoint.path else "/metrics", req.path).Some?
  }

  predicate Fits(w: World, route: Route, req: Request) {
    PathFits(w, route, req) && (if route.EndpointRoute? then route.verb else "GET") == req.verb
  }

  /** Route `i` is the first that fits the request in path and method. */
  ghost predicate FirstFit(w: World, routes: Router, req: Request, i: nat) {
    i < |routes| && Fits(w, routes[i], req) && forall j :: 0 <= j < i ==> !Fits(w, routes[j], req)
  }

  /** Dispatch specified: the first fitting route answers; with none, the method is wrong exactly when
      some path fitted. */
  lemma {:induction false} FindIsFirstFit(w: World, routes: Router, req: Request, seen: bool)
    ensures match Find(w, routes, req, seen) {
      case Endpoint(e, vars) =>
        exists i: nat :: FirstFit(w, routes, req, i) && routes[i].EndpointRoute? && routes[i].endpoint == e
                         && w.matches(e.path, req.path) == Some(vars)
      case MetricsPage =>
        exists i: nat :: FirstFit(w, routes, req, i) && routes[i].MetricsRoute?
      case NoRoute(wrongMethod) =>
        && (forall i :: 0 <= i < |routes| ==> !Fits(w, routes[i], req))
        && (wrongMethod <==> seen || exists i :: 0 <= i < |routes| && PathFits(w, routes[i], req))
    }
  {
    if routes == [] {
    } else {
      var rest := routes[1..];
      if Fits(w, routes[0], req) {
        assert FirstFit(w, routes, req, 0);
      } else {
        var more := seen || PathFits(w, routes[0], req);
        FindIsFirstFit(w, rest, req, more);
        assert Find(w, routes, req, seen) == Find(w, rest, req, more);
        assert forall i :: 0 <= i < |rest| ==> rest[i] == routes[i + 1];
        if !Find(w, rest, req, more).NoRoute? {
          var i: nat :| FirstFit(w, rest, req, i);
          assert FirstFit(w, routes, req, i + 1);
        }
      }
    }
  }

  /** A route registered later yields to those before it: it answers only what no earlier route fits, and
      otherwise counts at most towards a wrong method. */
  lemma {:induction false} LaterRouteYields(w: World, routes: Router, route: Route, req: Request, seen: bool)
    ensures Find(w, routes + [route], req, seen) ==
            match Find(w, routes, req, seen) {
              case NoRoute(wrongMethod) =>
                if Fits(w, route, req) then Find(w, [route], req, seen)
                else NoRoute(wrongMethod || PathFits(w, route, req))
              case found => found
            }
  {
    if routes == [] {
      assert routes + [route] == [route] && [route][1..] == [];
    } else {
      assert (routes + [route])[1..] == routes[1..] + [route];
      LaterRouteYields(w, routes[1..], route, req, seen || PathFits(w, routes[0], req));
      assert [route][1..] == [];
    }
  }

  /** No endpoint answers GET on the path of the request. */
  ghost predicate MetricsUnshadowed(w: World, cfg: Config, req: Request) {
    forall i :: 0 <= i < |cfg.endpoints| ==>
      !(ToUpper(cfg.endpoints[i].verb) == "GET" && w.matches(cfg.endpoints[i].path, req.path).Some?)
  }

  /** Endpoints are registered before the metrics page, so one of them can shadow it: exactly those that
      answer GET on its path do. */
  lemma MetricsReachableIff(w: World, cfg: Config, req: Request)
    requires req.verb == "GET" && w.matches("/metrics", req.path).Some?
    ensures Find(w, BuildRouter(cfg), req, false) == MetricsPage <==> MetricsUnshadowed(w, cfg, req)
    ensures forall order, now :: Serve(w, cfg, req, order, now).reply == Metrics <==> MetricsUnshadowed(w, cfg, req)
  {
    var routes, n := BuildRouter(cfg), |cfg.endpoints|;
    FindIsFirstFit(w, routes, req, false);
    assert forall i :: 0 <= i < n ==> routes[i] == RouteFor(cfg.endpoints[i]);
    assert routes[n] == MetricsRoute && Fits(w, routes[n], req);
    if Find(w, routes, req, false) == MetricsPage {
      var i: nat :| FirstFit(w, routes, req, i) && routes[i].MetricsRoute?;
      assert i == n;
      forall j | 0 <= j < n
        ensures !(ToUpper(cfg.endpoints[j].verb) == "GET" && w.matches(cfg.endpoints[j].path, req.path).Some?)
      {
        assert !Fits(w, routes[j], req);
      }
    } else {
      var i: nat :| FirstFit(w, routes, req, i) && routes[i].EndpointRoute?;
      assert Fits(w, routes[i], req);
    }
  }

  // ----- the endpoint handler ---------------------------------------------------------------

  const MAX_BODY := 10 * 1024 * 1024

  /** The answer of the handler when it does not get as far as the configured response. */
  function EarlyReply(e: EndpointConfig, req: Request): Option<Reply> {
    if |req.body| > MAX_BODY then Some(TooLarge)
    else if req.verb == "POST" && e.path == "/api/snmp/get" then Some(Snmp("get"))
    else if req.verb == "POST" && e.path == "/api/snmp/walk" then Some(Snmp("walk"))
    else None
  }

  function SaveFor(w: World, e: EndpointConfig, vars: map<string, string>, req: Request): Option<SaveJob> {
    if req.verb != "POST" || req.body == "" || !w.dbUp then None
    else match w.json(req.body)
      case None => None
      case Some(data) => Some(SaveJob(e.path, data, vars))
  }

  /** `w.Header().Set` for each configured header, in the order the map iteration happens to take. */
  function SetHeaders(canon: string -> string, headers: map<string, string>, order: seq<string>): map<string, string> {
    if order == [] then map[]
    else
      var last := order[|order| - 1];
      var before := SetHeaders(canon, headers, order[..|order| - 1]);
      if last in headers then before[canon(last) := headers[last]] else before
  }

  function PageFor(w: World, e: EndpointConfig, order: seq<string>, body: string): Reply {
    Page(e.response.status, SetHeaders(w.canon, e.response.headers, order), body)
  }

  /** What a fresh server for `cfg` answers to `req` at time `now`; `order` is the header iteration
      order of this request. */
  function Serve(w: World, cfg: Config, req: Request, order: seq<string>, now: nat): Outcome {
    match Find(w, BuildRouter(cfg), req, false)
    case NoRoute(wrongMethod) => Outcome(if wrongMethod then MethodNotAllowed else NotFound, None)
    case MetricsPage => Outcome(Metrics, None)
    case Endpoint(e, vars) =>
      match EarlyReply(e, req)
      case Some(reply) => Outcome(reply, None)
      case None =>
        var text := RenderBody(w.engine, e.response.body, vars, w.stamp(now));
        Outcome(PageFor(w, e, order, text), SaveFor(w, e, vars, req))
  }

  predicate EndpointFits(w: World, e: EndpointConfig, req: Request) {
    ToUpper(e.verb) == req.verb && w.matches(e.path, req.path).Some?
  }

  /** The first configured endpoint that fits the request in path and method is the one at `i`. */
  ghost predicate Answers(w: World, cfg: Config, req: Request, i: nat) {
    && i < |cfg.endpoints|
    && EndpointFits(w, cfg.endpoints[i], req)
    && forall j :: 0 <= j < i ==> !EndpointFits(w, cfg.endpoints[j], req)
  }

  predicate IsSnmp(e: EndpointConfig, req: Request, operation: string) {
    req.verb == "POST" && (operation == "get" || operation == "walk") && e.path == "/api/snmp/" + operation
  }

  lemma FindAnswers(w: World, cfg: Config, req: Request)
    ensures forall i: nat :: Answers(w, cfg, req, i) ==>
              Find(w, BuildRouter(cfg), req, false) ==
              Endpoint(cfg.endpoints[i], w.matches(cfg.endpoints[i].path, req.path).value)
    ensures Find(w, BuildRouter(cfg), req, false).Endpoint? ==> exists i: nat :: Answers(w, cfg, req, i)
  {
    var routes, n := BuildRouter(cfg), |cfg.endpoints|;
    FindIsFirstFit(w, routes, req, false);
    assert forall i :: 0 <= i < n ==>
                         && routes[i] == RouteFor(cfg.endpoints[i])
                         && (Fits(w, routes[i], req) <==> EndpointFits(w, cfg.endpoints[i], req));
    forall i: nat | Answers(w, cfg, req, i)
      ensures var e := cfg.endpoints[i];
              Find(w, routes, req, false) == Endpoint(e, w.matches(e.path, req.path).value)
    {
      assert FirstFit(w, routes, req, i);
    }
    if Find(w, routes, req, false).Endpoint? {
      var i: nat :| FirstFit(w, routes, req, i) && routes[i].EndpointRoute?;
      assert Answers(w, cfg, req, i);
    }
  }

  /** No endpoint fits in path and method. */
  lemma NoneAnswers(w: World, cfg: Config, req: Request)
    ensures (forall i: nat :: !Answers(w, cfg, req, i)) ==>
              forall i :: 0 <= i < |cfg.endpoints| ==> !EndpointFits(w, cfg.endpoints[i], req)
  {
    if i :| 0 <= i < |cfg.endpoints| && EndpointFits(w, cfg.endpoints[i], req) {
      var k := FirstFitting(w, cfg, req, i);
    }
  }

  lemma {:induction false} FirstFitting(w: World, cfg: Config, req: Request, i: nat) returns (k: nat)
    requires i < |cfg.endpoints| && EndpointFits(w, cfg.endpoints[i], req)
    ensures Answers(w, cfg, req, k)
    decreases i
  {
    if j: nat :| j < i && EndpointFits(w, cfg.endpoints[j], req) {
      k := FirstFitting(w, cfg, req, j);
    } else {
      k := i;
    }
  }

  /** The path of some configured endpoint matches, whatever its method. */
  ghost predicate SomePathFits(w: World, cfg: Config, req: Request) {
    exists i :: 0 <= i < |cfg.endpoints| && w.matches(cfg.endpoints[i].path, req.path).Some?
  }

  lemma FindOtherwise(w: World, cfg: Config, req: Request)
    ensures (forall i: nat :: !Answers(w, cfg, req, i)) ==>
              var metricsPath := w.matches("/metrics", req.path).Some?;
              Find(w, BuildRouter(cfg), req, false) ==
              if req.verb == "GET" && metricsPath then MetricsPage
              else NoRoute(metricsPath || SomePathFits(w, cfg, req))
  {
    var routes, n := BuildRouter(cfg), |cfg.endpoints|;
    FindIsFirstFit(w, routes, req, false);
    NoneAnswers(w, cfg, req);
    FindAnswers(w, cfg, req);
    assert routes[n] == MetricsRoute && |routes| == n + 1;
    assert forall i :: 0 <= i < n ==>
                         && routes[i] == RouteFor(cfg.endpoints[i])
                         && (PathFits(w, routes[i], req) <==> w.matches(cfg.endpoints[i].path, req.path).Some?);
    assert Fits(w, routes[n], req) <==> req.verb == "GET" && w.matches("/metrics", req.path).Some?;
    assert PathFits(w, routes[n], req) <==> w.matches("/metrics", req.path).Some?;
  }

  /** The handler end to end, by configured endpoint rather than by route. The first endpoint that fits
      decides: an oversized body is refused, an SNMP operation is taken over, anything else gets that
      endpoint's status, headers and rendered body, and is saved exactly when it is a POST of a JSON
      object with a database up. If no endpoint fits, nothing is saved: a GET of the metrics path gets the
      metrics page, any other request whose path fits something the wrong-method answer, and the rest is
      not found. */
  lemma HandlerOutcome(w: World, cfg: Config, req: Request, order: seq<string>, now: nat)
    ensures forall i: nat :: Answers(w, cfg, req, i) ==>
              var e, out := cfg.endpoints[i], Serve(w, cfg, req, order, now);
              var vars := w.matches(e.path, req.path).value;
              && (|req.body| > MAX_BODY ==> out == Outcome(TooLarge, None))
              && (forall op :: |req.body| <= MAX_BODY && IsSnmp(e, req, op) ==> out == Outcome(Snmp(op), None))
              && (|req.body| <= MAX_BODY && !IsSnmp(e, req, "get") && !IsSnmp(e, req, "walk") ==>
                  && out.reply == Page(e.response.status, SetHeaders(w.canon, e.response.headers, order),
                                       RenderBody(w.engine, e.response.body, vars, w.stamp(now)))
                  && (out.save.Some? <==> req.verb == "POST" && req.body != "" && w.json(req.body).Some? && w.dbUp)
                  && (out.save.Some? ==> out.save.value == SaveJob(e.path, w.json(req.body).value, vars)))
    ensures (forall i: nat :: !Answers(w, cfg, req, i)) ==>
              var out := Serve(w, cfg, req, order, now);
              var metricsPath := w.matches("/metrics", req.path).Some?;
              && out.save.None?
              && (out.reply == Metrics <==> req.verb == "GET" && metricsPath)
              && (out.reply == MethodNotAllowed <==>
                    && !(req.verb == "GET" && metricsPath)
                    && (metricsPath || SomePathFits(w, cfg, req)))
              && (out.reply == Metrics || out.reply == MethodNotAllowed || out.reply == NotFound)
  {
    FindAnswers(w, cfg, req);
    FindOtherwise(w, cfg, req);
    assert "/api/snmp/" + "get" == "/api/snmp/get" && "/api/snmp/" + "walk" == "/api/snmp/walk";
    forall i: nat, op | Answers(w, cfg, req, i) && |req.body| <= MAX_BODY && IsSnmp(cfg.endpoints[i], req, op)
      ensures Serve(w, cfg, req, order, now) == Outcome(Snmp(op), None)
    {
      assert ("/api/snmp/" + op)[10] == op[0];
    }
  }

  // ----- header order -----------------------------------------------------------------------

  /** No two configured headers with different values share a canonical key. */
  ghost predicate HeadersAgree(canon: string -> string, headers: map<string, string>) {
    forall a, b :: a in headers && b in headers && canon(a) == canon(b) ==> headers[a] == headers[b]
  }

  function LastWith(canon: string -> string, order: seq<string>, c: string): (i: Option<nat>)
    ensures i.Some? ==> i.value < |order| && canon(order[i.value]) == c
    ensures i.None? ==> forall j :: 0 <= j < |order| ==> canon(order[j]) != c
  {
    if order == [] then None
    else if canon(order[|order| - 1]) == c then Some(|order| - 1)
    else LastWith(canon, order[..|order| - 1], c)
  }

  /** Each canonical key gets the value of the last header in the order that maps to it. */
  lemma {:induction false} LastHeaderWins(canon: string -> string, headers: map<string, string>, order: seq<string>,
                                          c: string)
    requires forall k :: k in order ==> k in headers
    ensures var r, last := SetHeaders(canon, headers, order), LastWith(canon, order, c);
            (c in r <==> last.Some?) && (c in r ==> r[c] == headers[order[last.value]])
  {
    if order == [] {
    } else {
      LastHeaderWins(canon, headers, order[..|order| - 1], c);
    }
  }

  /** Some order visits `last` last. */
  lemma {:induction false} OrderEndingIn(keys: set<string>, last: string) returns (order: seq<string>)
    requires last in keys
    ensures IsOrder(order, keys) && order[|order| - 1] == last
    decreases |keys|
  {
    var rest := keys - {last};
    if rest == {} {
      order := [last];
    } else {
      var k :| k in rest;
      var init := OrderEndingIn(rest, k);
      order := init + [last];
      assert forall x :: x in order <==> x in init || x == last;
    }
  }

  /** The headers of a response are independent of the iteration order exactly when the configured
      headers agree up to canonicalisation. */
  lemma HeaderOrderIrrelevantIff(canon: string -> string, headers: map<string, string>)
    ensures HeadersAgree(canon, headers) <==>
            forall o1, o2 :: IsOrder(o1, headers.Keys) && IsOrder(o2, headers.Keys) ==>
              SetHeaders(canon, headers, o1) == SetHeaders(canon, headers, o2)
  {
    if HeadersAgree(canon, headers) {
      forall o1, o2 | IsOrder(o1, headers.Keys) && IsOrder(o2, headers.Keys)
        ensures SetHeaders(canon, headers, o1) == SetHeaders(canon, headers, o2)
      {
        AgreeingHeaders(canon, headers, o1, o2);
      }
    } else {
      var a, b :| a in headers && b in headers && canon(a) == canon(b) && headers[a] != headers[b];
      var o1 := OrderEndingIn(headers.Keys, a);
      var o2 := OrderEndingIn(headers.Keys, b);
      assert SetHeaders(canon, headers, o1)[canon(a)] == headers[a];
      assert SetHeaders(canon, headers, o2)[canon(a)] == headers[b];
    }
  }

  lemma AgreeingHeaders(canon: string -> string, headers: map<string, string>, o1: seq<string>, o2: seq<string>)
    requires HeadersAgree(canon, headers) && IsOrder(o1, headers.Keys) && IsOrder(o2, headers.Keys)
    ensures SetHeaders(canon, headers, o1) == SetHeaders(canon, headers, o2)
  {
    var r1, r2 := SetHeaders(canon, headers, o1), SetHeaders(canon, headers, o2);
    forall c ensures (c in r1 <==> c in r2) && (c in r1 ==> r1[c] == r2[c]) {
      LastHeaderWins(canon, headers, o1, c);
      LastHeaderWins(canon, headers, o2, c);
      if c in r1 {
        assert o1[LastWith(canon, o1, c).value] in o2;
      }
      if c in r2 {
        assert o2[LastWith(canon, o2, c).value] in o1;
      }
    }
  }

  /** If the request gets a configured page, `order` lists that endpoint's headers. */
  ghost predicate Orderly(w: World, cfg: Config, req: Request, order: seq<string>) {
    match Find(w, BuildRouter(cfg), req, false)
    case Endpoint(e, _) => EarlyReply(e, req).None? ==> IsOrder(order, e.response.headers.Keys)
    case _ => true
  }

  /** The headers of the endpoint that answers agree up to canonicalisation. */
  ghost predicate Unambiguous(w: World, cfg: Config, req: Request) {
    match Find(w, BuildRouter(cfg), req, false)
    case Endpoint(e, _) => HeadersAgree(w.canon, e.response.headers)
    case _ => true
  }

  /** With unambiguous headers the whole answer is independent of the iteration order. */
  lemma AnswerOrderIrrelevant(w: World, cfg: Config, req: Request, o1: seq<string>, o2: seq<string>, now: nat)
    requires Unambiguous(w, cfg, req) && Orderly(w, cfg, req, o1) && Orderly(w, cfg, req, o2)
    ensures Serve(w, cfg, req, o1, now) == Serve(w, cfg, req, o2, now)
  {
    match Find(w, BuildRouter(cfg), req, false) {
      case Endpoint(e, _) =>
        if EarlyReply(e, req).None? {
          AgreeingHeaders(w.canon, e.response.headers, o1, o2);
        }
      case _ =>
    }
  }
}
