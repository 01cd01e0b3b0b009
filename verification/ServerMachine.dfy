/**
  * server/server.go with any number of request goroutines and reloads interleaving. A reload takes
  * one step per registered route; a request takes separate steps to read the handler, match, look
  * the template up, parse it, store it and execute it. Each step is atomic, as the locks and
  * pointer-sized accesses make it; a reload waiting for `configMux` has done nothing yet, so only
  * the one holding the lock appears in the state.
  */
module ServerMachine {
  import opened Prelude
  import opened Templates
  import opened HttpSpec
  import DS = DynamicServer
  import Runs

  /** A request that reached a configured response: what its goroutine has in hand. */
  datatype Context = Context(
    req: Request, order: seq<string>, router: nat, since: nat,
    endpoint: EndpointConfig, vars: map<string, string>)

  datatype Phase =
    | Looking                      // about to read the cache
    | Parsing                      // missed
    | Storing(parsed: Template)    // parsed, about to insert
    | Executing(found: Template)   // has a template, about to read the clock and execute

  datatype Thread =
    | Dispatched(req: Request, router: nat, since: nat)
    | Rendering(ctx: Context, phase: Phase)
    | Finished(req: Request, order: seq<string>, router: nat, since: nat, at: nat, out: Outcome)
  {
    function Router(): nat { if Rendering? then ctx.router else router }
    function Since(): nat { if Rendering? then ctx.since else since }
    function Asked(): Request { if Rendering? then ctx.req else req }
  }

  /** How far the reload holding `configMux` has come. */
  datatype Reload = Adding(done: nat) | Built | Published

  /** Routers live on a heap and are named by their index; `cfgs` records what each was built from.
      `router` and `handler` are the fields `ds.router` and `server.Handler`. */
  datatype State = State(
    now: nat,
    routers: seq<Router>, cfgs: seq<Config>,
    router: nat, handler: nat,
    templates: map<string, Template>,
    reload: Option<Reload>,
    threads: map<nat, Thread>)

  datatype Action =
    | Tick(dt: nat)
    | Dispatch(id: nat, req: Request)
    | Match(id: nat, order: seq<string>)
    | Advance(id: nat)
    | BeginReload(cfg: Config)
    | StepReload

  function Init(cfg: Config): State {
    State(0, [BuildRouter(cfg)], [cfg], 0, 0, map[], None, map[])
  }

  function Finish(s: State, id: nat, ctx: Context, w: World, body: string): State {
    var out := Outcome(PageFor(w, ctx.endpoint, ctx.order, body), SaveFor(w, ctx.endpoint, ctx.vars, ctx.req));
    s.(threads := s.threads[id := Finished(ctx.req, ctx.order, ctx.router, ctx.since, s.now, out)])
  }

  /** The goroutine has read `server.Handler`; now it runs the router it read. */
  function MatchStep(w: World, s: State, id: nat, t: Thread, order: seq<string>): Option<State>
    requires t.Dispatched? && t.router < |s.routers|
  {
    var done := (reply: Reply) =>
      Some(s.(threads := s.threads[id := Finished(t.req, order, t.router, t.since, s.now, Outcome(reply, None))]));
    match Find(w, s.routers[t.router], t.req, false)
    case NoRoute(wrongMethod) => done(if wrongMethod then MethodNotAllowed else NotFound)
    case MetricsPage => done(Metrics)
    case Endpoint(e, vars) =>
      match EarlyReply(e, t.req)
      case Some(reply) => done(reply)
      case None =>
        if !IsOrder(order, e.response.headers.Keys) then None
        else
          var ctx := Context(t.req, order, t.router, t.since, e, vars);
          if HasOpen(e.response.body) then Some(s.(threads := s.threads[id := Rendering(ctx, Looking)]))
          else Some(Finish(s, id, ctx, w, e.response.body))
  }

  /** One step of `processTemplate`. */
  function RenderStep(w: World, s: State, id: nat, ctx: Context, phase: Phase): State {
    var body := ctx.endpoint.response.body;
    match phase
    case Looking =>
      var next := if body in s.templates then Executing(s.templates[body]) else Parsing;
      s.(threads := s.threads[id := Rendering(ctx, next)])
    case Parsing =>
      (match Parse(w.engine, body)
       case None => Finish(s, id, ctx, w, body)
       case Some(t) => s.(threads := s.threads[id := Rendering(ctx, Storing(t))]))
    case Storing(t) =>
      s.(templates := s.templates[body := t], threads := s.threads[id := Rendering(ctx, Executing(t))])
    case Executing(t) =>
      var text := Execute(w.engine, t, DataFor(ctx.vars, w.stamp(s.now)));
      Finish(s, id, ctx, w, if text.Some? then text.value else body)
  }

  /** One step of the reload that holds the lock: add a route in place, add the metrics page, publish
      the router as the handler, empty the cache and release the lock. */
  function ReloadStep(s: State, reload: Reload): Option<State>
    requires s.router < |s.routers| && |s.cfgs| == |s.routers|
  {
    var endpoints := s.cfgs[s.router].endpoints;
    match reload
    case Adding(i) =>
      if i < |endpoints| then
        Some(s.(routers := s.routers[s.router := s.routers[s.router] + [RouteFor(endpoints[i])]],
                reload := Some(Adding(i + 1))))
      else
        Some(s.(routers := s.routers[s.router := s.routers[s.router] + [MetricsRoute]], reload := Some(Built)))
    case Built => Some(s.(handler := s.router, reload := Some(Published)))
    case Published => Some(s.(templates := map[], reload := None))
  }

  function Step(w: World, s: State, a: Action): Option<State> {
    match a
    case Tick(dt) => Some(s.(now := s.now + dt))
    case Dispatch(id, req) =>
      if id in s.threads then None
      else Some(s.(threads := s.threads[id := Dispatched(req, s.handler, s.now)]))
    case Match(id, order) =>
      if id in s.threads && s.threads[id].Dispatched? && s.threads[id].router < |s.routers|
      then MatchStep(w, s, id, s.threads[id], order) else None
    case Advance(id) =>
      if id in s.threads && s.threads[id].Rendering?
      then Some(RenderStep(w, s, id, s.threads[id].ctx, s.threads[id].phase)) else None
    case BeginReload(cfg) =>
      if s.reload.Some? then None
      else Some(s.(routers := s.routers + [[]], cfgs := s.cfgs + [cfg], router := |s.routers|,
                   reload := Some(Adding(0))))
    case StepReload =>
      if s.reload.None? || s.router >= |s.routers| || |s.cfgs| != |s.routers| then None
      else ReloadStep(s, s.reload.value)
  }

  function Stepper(w: World): (State, Action) -> Option<State> {
    (s, a) => Step(w, s, a)
  }

  // ----- invariant --------------------------------------------------------------------------

  /** The published routers are complete; the one being built is none of them. */
  ghost predicate RoutersInv(s: State) {
    && |s.routers| == |s.cfgs| > 0
    && s.router == |s.routers| - 1
    && s.handler <= s.router
    && (forall id :: 0 <= id < |s.routers| && (id < s.router || !Unfinished(s)) ==>
          s.routers[id] == BuildRouter(s.cfgs[id]))
    && (s.reload.None? || s.reload == Some(Published) ==> s.handler == s.router)
    && (s.reload.Some? && s.reload.value != Published ==> s.handler == s.router - 1)
    && (Unfinished(s) ==>
        && s.reload.value.done <= |s.cfgs[s.router].endpoints|
        && s.routers[s.router] == EndpointRoutes(s.cfgs[s.router].endpoints[..s.reload.value.done]))
  }

  predicate Unfinished(s: State) { s.reload.Some? && s.reload.value.Adding? }

  /** What a goroutine holds is right for the configuration its router was built from. */
  ghost predicate ThreadInv(w: World, s: State, t: Thread) {
    && t.Router() <= s.handler < |s.cfgs|
    && t.Since() <= s.now
    && match t {
         case Dispatched(_, _, _) => true
         case Rendering(ctx, phase) =>
           var body := ctx.endpoint.response.body;
           && Find(w, BuildRouter(s.cfgs[ctx.router]), ctx.req, false) == Endpoint(ctx.endpoint, ctx.vars)
           && EarlyReply(ctx.endpoint, ctx.req).None?
           && IsOrder(ctx.order, ctx.endpoint.response.headers.Keys)
           && HasOpen(body)
           && (phase.Storing? ==> Parse(w.engine, body) == Some(phase.parsed))
           && (phase.Executing? ==> Parse(w.engine, body) == Some(phase.found))
         case Finished(req, order, router, since, at, out) =>
           && since <= at <= s.now
           && Orderly(w, s.cfgs[router], req, order)
           && out == Serve(w, s.cfgs[router], req, order, at)
       }
  }

  ghost predicate Inv(w: World, s: State) {
    && RoutersInv(s)
    && DS.CacheCoherent(w.engine, s.templates)
    && forall id :: id in s.threads ==> ThreadInv(w, s, s.threads[id])
  }

  // ----- preservation -----------------------------------------------------------------------

  lemma InitInv(w: World, cfg: Config)
    ensures Inv(w, Init(cfg))
  {
  }

  /** Steps other than a thread's own leave what it holds right. */
  lemma ThreadFrame(w: World, s: State, next: State, t: Thread)
    requires ThreadInv(w, s, t)
    requires s.now <= next.now && s.handler <= next.handler < |next.cfgs| && s.cfgs <= next.cfgs
    ensures ThreadInv(w, next, t)
  {
  }

  lemma ReloadStepKeeps(w: World, s: State)
    requires Inv(w, s) && s.reload.Some? && ReloadStep(s, s.reload.value).Some?
    ensures Inv(w, ReloadStep(s, s.reload.value).value)
  {
    var next := ReloadStep(s, s.reload.value).value;
    var endpoints := s.cfgs[s.router].endpoints;
    match s.reload.value {
      case Adding(i) =>
        if i < |endpoints| {
          assert endpoints[..i + 1] == endpoints[..i] + [endpoints[i]];
        } else {
          assert endpoints[..i] == endpoints;
        }
      case Built =>
      case Published =>
    }
    forall id | id in next.threads ensures ThreadInv(w, next, next.threads[id]) {
      ThreadFrame(w, s, next, s.threads[id]);
    }
  }

  /** A goroutine's step keeps the invariant if it leaves that goroutine right and the cache coherent. */
  lemma ThreadMoves(w: World, s: State, id: nat, next: State)
    requires Inv(w, s) && id in next.threads
    requires next == s.(threads := s.threads[id := next.threads[id]], templates := next.templates)
    requires DS.CacheCoherent(w.engine, next.templates) && ThreadInv(w, next, next.threads[id])
    ensures Inv(w, next)
  {
    forall other | other in next.threads ensures ThreadInv(w, next, next.threads[other]) {
      if other != id { ThreadFrame(w, s, next, s.threads[other]); }
    }
  }

  lemma OwnMatch(w: World, s: State, id: nat, order: seq<string>)
    requires Inv(w, s) && id in s.threads && s.threads[id].Dispatched? && s.threads[id].router < |s.routers|
    requires MatchStep(w, s, id, s.threads[id], order).Some?
    ensures var next := MatchStep(w, s, id, s.threads[id], order).value;
            && id in next.threads && next == s.(threads := s.threads[id := next.threads[id]])
            && ThreadInv(w, next, next.threads[id])
  {
    var t := s.threads[id];
    assert s.routers[t.router] == BuildRouter(s.cfgs[t.router]);
  }

  lemma MatchStepKeeps(w: World, s: State, id: nat, order: seq<string>)
    requires Inv(w, s) && id in s.threads && s.threads[id].Dispatched? && s.threads[id].router < |s.routers|
    requires MatchStep(w, s, id, s.threads[id], order).Some?
    ensures Inv(w, MatchStep(w, s, id, s.threads[id], order).value)
  {
    OwnMatch(w, s, id, order);
    ThreadMoves(w, s, id, MatchStep(w, s, id, s.threads[id], order).value);
  }

  lemma OwnRender(w: World, s: State, id: nat, ctx: Context, phase: Phase)
    requires DS.CacheCoherent(w.engine, s.templates) && ThreadInv(w, s, Rendering(ctx, phase))
    ensures var next := RenderStep(w, s, id, ctx, phase);
            && id in next.threads
            && next == s.(threads := s.threads[id := next.threads[id]], templates := next.templates)
            && DS.CacheCoherent(w.engine, next.templates)
            && ThreadInv(w, next, next.threads[id])
  {
  }

  lemma RenderStepKeeps(w: World, s: State, id: nat)
    requires Inv(w, s) && id in s.threads && s.threads[id].Rendering?
    ensures Inv(w, RenderStep(w, s, id, s.threads[id].ctx, s.threads[id].phase))
  {
    var t := s.threads[id];
    OwnRender(w, s, id, t.ctx, t.phase);
    ThreadMoves(w, s, id, RenderStep(w, s, id, t.ctx, t.phase));
  }

  lemma StepKeeps(w: World, s: State, a: Action)
    requires Inv(w, s) && Step(w, s, a).Some?
    ensures Inv(w, Step(w, s, a).value)
  {
    var next := Step(w, s, a).value;
    match a {
      case Match(id, order) => MatchStepKeeps(w, s, id, order);
      case Advance(id) => RenderStepKeeps(w, s, id);
      case StepReload => ReloadStepKeeps(w, s);
      case _ =>
        forall id | id in next.threads ensures ThreadInv(w, next, next.threads[id]) {
          if id in s.threads { ThreadFrame(w, s, next, s.threads[id]); }
        }
    }
  }

  /** Every state of every interleaving, from a fresh server. */
  lemma Reachable(w: World, cfg: Config, acts: seq<Action>)
    requires Runs.Run(Stepper(w), Init(cfg), acts).Some?
    ensures Inv(w, Runs.Run(Stepper(w), Init(cfg), acts).value)
  {
    InitInv(w, cfg);
    forall s, a | Inv(w, s) && Stepper(w)(s, a).Some? ensures Inv(w, Stepper(w)(s, a).value) {
      StepKeeps(w, s, a);
    }
    var inv := (s: State) => Inv(w, s);
    assert Runs.Inductive(Stepper(w), inv);
    Runs.Keeps(Stepper(w), inv, Init(cfg), acts);
  }

  // ----- theorems ---------------------------------------------------------------------------

  /** The configurations of the reloads begun in a run, in order. */
  function Begun(acts: seq<Action>): seq<Config> {
    if acts == [] then []
    else (if acts[0].BeginReload? then [acts[0].cfg] else []) + Begun(acts[1..])
  }

  lemma BegunStep(w: World, s: State, a: Action)
    requires Step(w, s, a).Some?
    ensures Step(w, s, a).value.cfgs == s.cfgs + if a.BeginReload? then [a.cfg] else []
  {
    if a.Match? {
      MatchTracks(w, s, a.id, a.order);
    } else if a.Advance? {
      RenderTracks(w, s, a.id);
    }
  }

  lemma {:induction false} BegunAreBuilt(w: World, s: State, acts: seq<Action>)
    requires Runs.Run(Stepper(w), s, acts).Some?
    ensures Runs.Run(Stepper(w), s, acts).value.cfgs == s.cfgs + Begun(acts)
    decreases |acts|
  {
    if acts == [] {
    } else {
      BegunStep(w, s, acts[0]);
      BegunAreBuilt(w, Step(w, s, acts[0]).value, acts[1..]);
      Assoc(s.cfgs, if acts[0].BeginReload? then [acts[0].cfg] else [], Begun(acts[1..]));
    }
  }

  /** Safe publication: `server.Handler` always refers to a completely built router, also while a
      reload has `ds.router` half built; and that router's configuration is the one of the latest
      reload, or the one before it until the latest has published. */
  lemma SafePublication(w: World, cfg: Config, acts: seq<Action>)
    requires Runs.Run(Stepper(w), Init(cfg), acts).Some?
    ensures var s := Runs.Run(Stepper(w), Init(cfg), acts).value;
            && s.handler < |s.routers| == |s.cfgs|
            && s.routers[s.handler] == BuildRouter(s.cfgs[s.handler])
            && s.cfgs == [cfg] + Begun(acts)
            && s.handler == |s.cfgs| - (if s.reload.None? || s.reload == Some(Published) then 1 else 2)
  {
    Reachable(w, cfg, acts);
    BegunAreBuilt(w, Init(cfg), acts);
  }

  /** Cache coherence under interleaving: whatever stores and clears have raced, an entry is the
      parse of its key. */
  lemma CacheAlwaysCoherent(w: World, cfg: Config, acts: seq<Action>)
    requires Runs.Run(Stepper(w), Init(cfg), acts).Some?
    ensures DS.CacheCoherent(w.engine, Runs.Run(Stepper(w), Init(cfg), acts).value.templates)
  {
    Reachable(w, cfg, acts);
  }

  /** Thread `id` still works on the request and the router it was dispatched with. */
  ghost predicate Tracks(w: World, s: State, id: nat, req: Request, router: nat, since: nat, live: Config) {
    && Inv(w, s)
    && id in s.threads
    && s.threads[id].Asked() == req && s.threads[id].Router() == router && s.threads[id].Since() == since
    && router < |s.cfgs| && s.cfgs[router] == live
  }

  /** The central theorem: take any run, dispatch a request, and let everything interleave. When the
      request finishes, its status, headers, body and saved record are those of a fresh server for
      the one configuration that was live at dispatch, rendered without a cache at a clock value
      between dispatch and completion. Every configured header is written, and when the headers agree
      up to canonicalisation the answer is the same for every order of writing them. */
  lemma AnswersAsLiveAtDispatch(w: World, cfg: Config, before: seq<Action>, id: nat, req: Request, after: seq<Action>)
    requires Runs.Run(Stepper(w), Init(cfg), before).Some?
    requires Step(w, Runs.Run(Stepper(w), Init(cfg), before).value, Dispatch(id, req)).Some?
    requires Runs.Run(Stepper(w), Init(cfg), before + [Dispatch(id, req)] + after).Some?
    ensures var start := Runs.Run(Stepper(w), Init(cfg), before).value;
            var end := Runs.Run(Stepper(w), Init(cfg), before + [Dispatch(id, req)] + after).value;
            && start.handler < |start.cfgs| == |start.routers|
            && start.routers[start.handler] == BuildRouter(start.cfgs[start.handler])
            && id in end.threads
            && (end.threads[id].Finished? ==>
                var t := end.threads[id];
                var live := start.cfgs[start.handler];
                && start.now <= t.at <= end.now
                && Orderly(w, live, req, t.order)
                && t.out == Serve(w, live, req, t.order, t.at)
                && (Unambiguous(w, live, req) ==>
                      forall o :: Orderly(w, live, req, o) ==> t.out == Serve(w, live, req, o, t.at)))
  {
    var step := Stepper(w);
    var start := Runs.Run(step, Init(cfg), before).value;
    Reachable(w, cfg, before);
    var s0 := Step(w, start, Dispatch(id, req)).value;
    StepKeeps(w, start, Dispatch(id, req));
    var router, since, live := start.handler, start.now, start.cfgs[start.handler];
    Runs.Compose(step, Init(cfg), before + [Dispatch(id, req)], after);
    Runs.Compose(step, Init(cfg), before, [Dispatch(id, req)]);
    assert Runs.Run(step, s0, []) == Some(s0);
    assert Runs.Run(step, start, [Dispatch(id, req)]) == Some(s0);
    var tracked := (s: State) => Tracks(w, s, id, req, router, since, live);
    forall s, a | tracked(s) && step(s, a).Some? ensures tracked(step(s, a).value) {
      StepKeeps(w, s, a);
      TrackKeeps(w, s, a, id);
    }
    assert Runs.Inductive(step, tracked);
    Runs.Keeps(step, tracked, s0, after);
    var end := Runs.Run(step, s0, after).value;
    if end.threads[id].Finished? {
      AnyOrderWillDo(w, live, req, end.threads[id].order, end.threads[id].at);
    }
  }

  lemma AnyOrderWillDo(w: World, live: Config, req: Request, order: seq<string>, at: nat)
    requires Orderly(w, live, req, order)
    ensures Unambiguous(w, live, req) ==>
              forall o :: Orderly(w, live, req, o) ==> Serve(w, live, req, order, at) == Serve(w, live, req, o, at)
  {
    if Unambiguous(w, live, req) {
      forall o | Orderly(w, live, req, o) ensures Serve(w, live, req, order, at) == Serve(w, live, req, o, at) {
        AnswerOrderIrrelevant(w, live, req, order, o, at);
      }
    }
  }

  /** No step takes a goroutine off its request, its router or its dispatch time, and no step changes
      what an existing router was built from. */
  lemma TrackKeeps(w: World, s: State, a: Action, id: nat)
    requires Inv(w, s) && Step(w, s, a).Some? && id in s.threads
    ensures var next := Step(w, s, a).value;
            && id in next.threads && s.cfgs <= next.cfgs
            && next.threads[id].Asked() == s.threads[id].Asked()
            && next.threads[id].Router() == s.threads[id].Router()
            && next.threads[id].Since() == s.threads[id].Since()
  {
    match a {
      case Match(other, order) => MatchTracks(w, s, other, order);
      case Advance(other) => RenderTracks(w, s, other);
      case StepReload => assert Step(w, s, a).value.threads == s.threads;
      case _ =>
    }
  }

  lemma MatchTracks(w: World, s: State, id: nat, order: seq<string>)
    requires id in s.threads && s.threads[id].Dispatched? && s.threads[id].router < |s.routers|
    requires MatchStep(w, s, id, s.threads[id], order).Some?
    ensures var t, next := s.threads[id], MatchStep(w, s, id, s.threads[id], order).value;
            && next.cfgs == s.cfgs
            && id in next.threads && next.threads == s.threads[id := next.threads[id]]
            && next.threads[id].Asked() == t.Asked()
            && next.threads[id].Router() == t.Router()
            && next.threads[id].Since() == t.Since()
  {
  }

  lemma RenderTracks(w: World, s: State, id: nat)
    requires id in s.threads && s.threads[id].Rendering?
    ensures var t, next := s.threads[id], RenderStep(w, s, id, s.threads[id].ctx, s.threads[id].phase);
            && next.cfgs == s.cfgs
            && id in next.threads && next.threads == s.threads[id := next.threads[id]]
            && next.threads[id].Asked() == t.Asked()
            && next.threads[id].Router() == t.Router()
            && next.threads[id].Since() == t.Since()
  {
  }

  // ----- requests come to an end ------------------------------------------------------------

  function PhasesLeft(phase: Phase): nat {
    match phase
    case Looking => 3
    case Parsing => 2
    case Storing(_) => 1
    case Executing(_) => 0
  }

  /** A rendering can go on to its answer; if the template parses and was not held already, it is in the
      cache by then. */
  lemma {:induction false} RenderingCanFinish(w: World, s: State, id: nat) returns (acts: seq<Action>, end: State)
    requires id in s.threads && s.threads[id].Rendering?
    ensures Runs.Run(Stepper(w), s, acts) == Some(end) && id in end.threads && end.threads[id].Finished?
    ensures var body := s.threads[id].ctx.endpoint.response.body;
            s.threads[id].phase == Looking && Parse(w.engine, body).Some? ==> body in end.templates
    ensures s.threads[id].phase == Parsing && Parse(w.engine, s.threads[id].ctx.endpoint.response.body).Some? ==>
              s.threads[id].ctx.endpoint.response.body in end.templates
    ensures s.threads[id].phase.Storing? ==> s.threads[id].ctx.endpoint.response.body in end.templates
    ensures s.templates.Keys <= end.templates.Keys
    decreases PhasesLeft(s.threads[id].phase)
  {
    var mid := Step(w, s, Advance(id)).value;
    if mid.threads[id].Finished? {
      acts, end := [Advance(id)], mid;
      Runs.Path(Stepper(w), [s, mid], acts);
    } else {
      var rest;
      rest, end := RenderingCanFinish(w, mid, id);
      acts := [Advance(id)] + rest;
      assert acts[1..] == rest;
    }
  }

  /** Every request can be answered: from any reachable state, whatever else is going on, a dispatched
      request has a way to finish. */
  lemma RequestCanFinish(w: World, cfg: Config, acts: seq<Action>, s: State, id: nat)
    returns (more: seq<Action>, end: State)
    requires Runs.Run(Stepper(w), Init(cfg), acts) == Some(s) && id in s.threads
    ensures Runs.Run(Stepper(w), s, more) == Some(end) && id in end.threads && end.threads[id].Finished?
  {
    Reachable(w, cfg, acts);
    assert ThreadInv(w, s, s.threads[id]);
    match s.threads[id] {
      case Finished(_, _, _, _, _, _) => more, end := [], s;
      case Rendering(_, _) => more, end := RenderingCanFinish(w, s, id);
      case Dispatched(req, router, _) =>
        var order := SomeOrder(w, s.routers[router], req);
        var mid := Step(w, s, Match(id, order)).value;
        if mid.threads[id].Finished? {
          more, end := [Match(id, order)], mid;
          Runs.Path(Stepper(w), [s, mid], more);
        } else {
          var rest;
          rest, end := RenderingCanFinish(w, mid, id);
          more := [Match(id, order)] + rest;
          assert more[1..] == rest;
        }
    }
  }

  /** The header map can be visited in some order. */
  lemma SomeOrder(w: World, routes: Router, req: Request) returns (order: seq<string>)
    ensures match Find(w, routes, req, false)
            case Endpoint(e, _) => IsOrder(order, e.response.headers.Keys)
            case _ => true
  {
    order := [];
    match Find(w, routes, req, false) {
      case Endpoint(e, _) =>
        if key :| key in e.response.headers.Keys {
          order := OrderEndingIn(e.response.headers.Keys, key);
        }
      case _ =>
    }
  }

  // ----- every sequence of reloads has a run ------------------------------------------------

  lemma {:induction false} BegunCompose(xs: seq<Action>, ys: seq<Action>)
    ensures Begun(xs + ys) == Begun(xs) + Begun(ys)
  {
    if xs == [] {
      assert xs + ys == ys;
    } else {
      assert (xs + ys)[1..] == xs[1..] + ys;
      BegunCompose(xs[1..], ys);
      Assoc(if xs[0].BeginReload? then [xs[0].cfg] else [], Begun(xs[1..]), Begun(ys));
    }
  }

  function StepsLeft(s: State): nat
    requires RoutersInv(s)
  {
    match s.reload
    case None => 0
    case Some(Published) => 1
    case Some(Built) => 2
    case Some(Adding(i)) => 3 + |s.cfgs[s.router].endpoints| - i
  }

  /** The reload at work can finish; then its router is the handler and the cache is empty. */
  lemma {:induction false} FinishReload(w: World, s: State) returns (acts: seq<Action>, end: State)
    requires Inv(w, s)
    ensures Runs.Run(Stepper(w), s, acts) == Some(end) && Inv(w, end) && end.reload.None? && Begun(acts) == []
    ensures if s.reload.None? then end == s else end.handler == s.router && end.templates == map[]
    decreases StepsLeft(s)
  {
    if s.reload.None? {
      acts, end := [], s;
    } else {
      var next := Step(w, s, StepReload).value;
      StepKeeps(w, s, StepReload);
      var rest;
      rest, end := FinishReload(w, next);
      acts := [StepReload] + rest;
      assert acts[1..] == rest;
    }
  }

  /** Any sequence of configurations can be loaded one after the other. */
  lemma {:induction false} ReloadAll(w: World, first: Config, cfgs: seq<Config>) returns (acts: seq<Action>, end: State)
    ensures Runs.Run(Stepper(w), Init(first), acts) == Some(end) && Inv(w, end) && end.reload.None?
    ensures Begun(acts) == cfgs
    decreases |cfgs|
  {
    if cfgs == [] {
      InitInv(w, first);
      acts, end := [], Init(first);
    } else {
      var last := cfgs[|cfgs| - 1];
      var xs, mid := ReloadAll(w, first, cfgs[..|cfgs| - 1]);
      var begun := Step(w, mid, BeginReload(last)).value;
      StepKeeps(w, mid, BeginReload(last));
      var ys;
      ys, end := FinishReload(w, begun);
      var zs := [BeginReload(last)] + ys;
      assert zs[1..] == ys && Begun(zs) == [last] + [];
      Runs.Compose(Stepper(w), Init(first), xs, zs);
      BegunCompose(xs, zs);
      acts := xs + zs;
    }
  }
}
