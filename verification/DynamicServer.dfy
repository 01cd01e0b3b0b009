/** server/server.go, one goroutine at a time: the server object with its mutable router and cache. */
module DynamicServer {
  import opened Prelude
  import opened Numerals
  import opened Templates
  import opened HttpSpec

  /** A `mux.Router`: routes are appended in place, and the server's handler may alias it. */
  class MuxRouter {
    var routes: Router

    constructor ()
      ensures routes == []
    {
      routes := [];
    }

    method Handle(route: Route)
      modifies this
      ensures routes == old(routes) + [route]
    {
      routes := routes + [route];
    }
  }

  /** Every cached template is the parse of the body it is stored under. */
  ghost predicate CacheCoherent(engine: Engine, templates: map<string, Template>) {
    forall body :: body in templates ==> Parse(engine, body) == Some(templates[body])
  }

  class DynamicServer {
    var config: Config
    var router: MuxRouter
    var handler: MuxRouter
    var addr: string
    var templates: map<string, Template>

    ghost predicate Valid(engine: Engine)
      reads this, handler
    {
      && handler == router
      && handler.routes == BuildRouter(config)
      && CacheCoherent(engine, templates)
    }

    constructor (cfg: Config, ghost engine: Engine)
      ensures Valid(engine) && fresh(handler)
      ensures config == cfg && addr == cfg.host + ":" + cfg.port && templates == map[]
    {
      config := cfg;
      templates := map[];
      var r := new MuxRouter();
      router, handler := r, r;
      addr := cfg.host + ":" + cfg.port;
      new;
      SetupRoutes();
    }

    /** Register every configured endpoint, then the metrics page, on the current router. */
    method SetupRoutes()
      requires router.routes == []
      modifies router
      ensures router.routes == BuildRouter(config)
    {
      var i := 0;
      while i < |config.endpoints|
        invariant 0 <= i <= |config.endpoints|
        invariant router.routes == EndpointRoutes(config.endpoints[..i])
      {
        AddRoute(config.endpoints[i]);
        assert config.endpoints[..i + 1] == config.endpoints[..i] + [config.endpoints[i]];
        i := i + 1;
      }
      assert config.endpoints[..i] == config.endpoints;
      router.Handle(MetricsRoute);
    }

    method AddRoute(endpoint: EndpointConfig)
      modifies router
      ensures router.routes == old(router.routes) + [RouteFor(endpoint)]
    {
      router.Handle(EndpointRoute(ToUpper(endpoint.verb), endpoint));
    }

    /** The cached rendering agrees with the uncached one; the cache stays coherent and holds the template
        from then on. */
    method ProcessTemplate(engine: Engine, body: string, vars: map<string, string>, stamp: string)
      returns (text: string)
      requires CacheCoherent(engine, templates)
      modifies this`templates
      ensures text == RenderBody(engine, body, vars, stamp)
      ensures CacheCoherent(engine, templates)
      ensures templates == if HasOpen(body) && Parse(engine, body).Some?
                           then old(templates)[body := Parse(engine, body).value] else old(templates)
    {
      if !HasOpen(body) {
        return body;
      }
      var tmpl;
      if body in templates {
        tmpl := templates[body];
      } else {
        var parsed := Parse(engine, body);
        if parsed.None? {
          return body;
        }
        tmpl := parsed.value;
        templates := templates[body := tmpl];
      }
      var data := FillData(vars, stamp);
      match Execute(engine, tmpl, data) {
        case None => return body;
        case Some(out) => return out;
      }
    }

    /** The header loop, taking the map's entries in the given order. */
    method WriteHeaders(canon: string -> string, headers: map<string, string>, order: seq<string>)
      returns (written: map<string, string>)
      ensures written == SetHeaders(canon, headers, order)
    {
      written := map[];
      var i := 0;
      while i < |order|
        invariant 0 <= i <= |order|
        invariant written == SetHeaders(canon, headers, order[..i])
      {
        assert order[..i + 1][..i] == order[..i];
        if order[i] in headers {
          written := written[canon(order[i]) := headers[order[i]]];
        }
        i := i + 1;
      }
      assert order[..i] == order;
    }

    /** Answer one request. `order` is the order in which this request iterates the header map. */
    method ServeHTTP(w: World, req: Request, order: seq<string>, now: nat) returns (out: Outcome)
      requires Valid(w.engine)
      modifies this`templates
      ensures Valid(w.engine)
      ensures out == Serve(w, config, req, order, now)
    {
      match Find(w, handler.routes, req, false) {
        case NoRoute(wrongMethod) => out := Outcome(if wrongMethod then MethodNotAllowed else NotFound, None);
        case MetricsPage => out := Outcome(Metrics, None);
        case Endpoint(e, vars) =>
          match EarlyReply(e, req) {
            case Some(reply) => out := Outcome(reply, None);
            case None =>
              var save := SaveFor(w, e, vars, req);
              var text := ProcessTemplate(w.engine, e.response.body, vars, w.stamp(now));
              var headers := WriteHeaders(w.canon, e.response.headers, order);
              out := Outcome(Page(e.response.status, headers, text), save);
          }
      }
    }

    /** Build a whole new router for the new configuration, publish it, and empty the cache. The old
        router is left as it was, and the listening address does not change. */
    method Reload(newConfig: Config)
      modifies this
      ensures config == newConfig && addr == old(addr) && templates == map[]
      ensures handler == router && fresh(handler) && handler.routes == BuildRouter(newConfig)
    {
      config := newConfig;
      var newRouter := new MuxRouter();
      router := newRouter;
      SetupRoutes();
      handler := router;
      templates := map[];
    }
  }

  // ----- whole histories --------------------------------------------------------------------

  datatype Op = Ask(req: Request, order: seq<string>, now: nat) | Reconfigure(cfg: Config)

  /** The configuration in force after a history that starts from `first`. */
  function ConfigAfter(first: Config, ops: seq<Op>): Config {
    if ops == [] then first
    else match ops[|ops| - 1]
      case Reconfigure(cfg) => cfg
      case Ask(_, _, _) => ConfigAfter(first, ops[..|ops| - 1])
  }

  /** History independence: run any mix of requests and reloads. Every answer is the one a fresh
      server for the configuration then in force gives at that time, while the address stays put. */
  method Replay(server: DynamicServer, w: World, ops: seq<Op>) returns (outs: seq<Option<Outcome>>)
    requires server.Valid(w.engine)
    modifies server
    ensures server.Valid(w.engine) && server.addr == old(server.addr)
    ensures server.config == ConfigAfter(old(server.config), ops)
    ensures |outs| == |ops|
    ensures forall i :: 0 <= i < |ops| ==>
              outs[i] == match ops[i] {
                case Reconfigure(_) => None
                case Ask(req, order, now) =>
                  Some(Serve(w, ConfigAfter(old(server.config), ops[..i]), req, order, now))
              }
  {
    outs := [];
    var i := 0;
    while i < |ops|
      invariant 0 <= i <= |ops| && |outs| == i
      invariant server.Valid(w.engine) && server.addr == old(server.addr)
      invariant server.handler == old(server.handler) || fresh(server.handler)
      invariant server.config == ConfigAfter(old(server.config), ops[..i])
      invariant forall j :: 0 <= j < i ==>
                  outs[j] == match ops[j] {
                    case Reconfigure(_) => None
                    case Ask(req, order, now) =>
                      Some(Serve(w, ConfigAfter(old(server.config), ops[..j]), req, order, now))
                  }
    {
      assert ops[..i + 1][..i] == ops[..i];
      match ops[i] {
        case Reconfigure(cfg) =>
          server.Reload(cfg);
          outs := outs + [None];
        case Ask(req, order, now) =>
          var out := server.ServeHTTP(w, req, order, now);
          outs := outs + [Some(out)];
      }
      i := i + 1;
    }
    assert ops[..i] == ops;
  }

  /** The same request put to a server with a past and to a fresh one for the configuration then in
      force: both answer as `Serve` says, and alike even if they iterate the headers differently, as
      long as the headers agree up to canonicalisation. */
  method FreshServerAnswersAlike(server: DynamicServer, w: World, ops: seq<Op>, req: Request,
                                 o1: seq<string>, o2: seq<string>, now: nat)
    returns (aged: Outcome, new_: Outcome)
    requires server.Valid(w.engine)
    modifies server
    ensures aged == Serve(w, ConfigAfter(old(server.config), ops), req, o1, now)
    ensures new_ == Serve(w, ConfigAfter(old(server.config), ops), req, o2, now)
    ensures var cfg := ConfigAfter(old(server.config), ops);
            Unambiguous(w, cfg, req) && Orderly(w, cfg, req, o1) && Orderly(w, cfg, req, o2) ==> aged == new_
  {
    var _ := Replay(server, w, ops);
    aged := server.ServeHTTP(w, req, o1, now);
    var other := new DynamicServer(server.config, w.engine);
    new_ := other.ServeHTTP(w, req, o2, now);
    if Unambiguous(w, server.config, req) && Orderly(w, server.config, req, o1) && Orderly(w, server.config, req, o2) {
      AnswerOrderIrrelevant(w, server.config, req, o1, o2, now);
    }
  }
}
