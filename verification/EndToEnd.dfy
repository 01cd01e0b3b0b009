/**
  * The watcher and the concurrent server put together: from a write of the configuration file to the
  * answer of a request.
  */
module EndToEnd {
  import opened Prelude
  import opened HttpSpec
  import W = Watcher
  import C = Convergence
  import L = Settling
  import S = ServerMachine
  import Runs

  /** The configuration this step of the watcher's machine hands to server `j`, if it does. */
  function HandedNow(u: W.Setup, s: W.State, a: W.Action, j: nat): seq<Config> {
    if a.Deliver? && a.id in s.reloads && s.reloads[a.id].Fanning? && s.reloads[a.id].next == j
       && s.reloads[a.id].read < |s.loads| && j < |s.servers| && s.servers[j].Live?
    then match u.parse(s.loads[s.reloads[a.id].read].text) { case Some(cfg) => [cfg] case None => [] }
    else []
  }

  /** The configurations a run hands to server `j`, in order: the calls of its `Reload`. */
  function Handed(u: W.Setup, s: W.State, acts: seq<W.Action>, j: nat): seq<Config>
    decreases |acts|
  {
    if acts == [] then []
    else match W.Step(u, s, acts[0])
      case None => []
      case Some(next) => HandedNow(u, s, acts[0], j) + Handed(u, next, acts[1..], j)
  }

  function Last(first: Config, more: seq<Config>): Config {
    if more == [] then first else more[|more| - 1]
  }

  lemma HandedStep(u: W.Setup, s: W.State, a: W.Action, j: nat)
    requires W.Step(u, s, a).Some? && j < |s.servers| && s.servers[j].Live?
    ensures var next := W.Step(u, s, a).value;
            && j < |next.servers| && next.servers[j].Live?
            && next.servers[j].held == Last(s.servers[j].held, HandedNow(u, s, a, j))
  {
  }

  /** A server holds what it was handed last. */
  lemma {:induction false} HeldIsLastHanded(u: W.Setup, s: W.State, acts: seq<W.Action>, end: W.State, j: nat)
    requires Runs.Run(W.Stepper(u), s, acts) == Some(end) && j < |s.servers| && s.servers[j].Live?
    ensures j < |end.servers| && end.servers[j].Live?
    ensures end.servers[j].held == Last(s.servers[j].held, Handed(u, s, acts, j))
    decreases |acts|
  {
    if acts == [] {
    } else {
      HandedStep(u, s, acts[0], j);
      HeldIsLastHanded(u, W.Step(u, s, acts[0]).value, acts[1..], end, j);
    }
  }

  /** The server's own run `own` makes exactly the reloads the watcher's run hands it, in that order, and
      the last of them has finished. */
  predicate Follows(u: W.Setup, w: World, s: W.State, acts: seq<W.Action>, j: nat, own: seq<S.Action>)
    requires j < |s.servers| && s.servers[j].Live?
  {
    var run := Runs.Run(S.Stepper(w), S.Init(s.servers[j].held), own);
    run.Some? && run.value.reload.None? && S.Begun(own) == Handed(u, s, acts, j)
  }

  /** The request with this id, dispatched after `own`, is answered as a fresh server for `cfg` would. */
  ghost predicate AnsweredFrom(w: World, first: Config, own: seq<S.Action>, id: nat, req: Request,
                               after: seq<S.Action>, cfg: Config)
  {
    var run := Runs.Run(S.Stepper(w), S.Init(first), own + [S.Dispatch(id, req)] + after);
    run.Some? ==>
      && id in run.value.threads
      && (run.value.threads[id].Finished? ==>
            var t := run.value.threads[id];
            Orderly(w, cfg, req, t.order) && t.out == Serve(w, cfg, req, t.order, t.at))
  }

  /** Whatever the watcher has done, overlapping reloads or not: a request dispatched at a server is
      answered from the configuration the watcher's machine says the server holds, even if later
      reloads interleave with it. */
  lemma AnsweredAsHeld(u: W.Setup, w: World, file: string, start: seq<W.Server>, acts: seq<W.Action>, s: W.State,
                       j: nat, own: seq<S.Action>, id: nat, req: Request, after: seq<S.Action>)
    requires Runs.Run(W.Stepper(u), W.Init(file, start), acts) == Some(s)
    requires j < |start| && start[j].Live? && Follows(u, w, W.Init(file, start), acts, j, own)
    ensures j < |s.servers| && s.servers[j].Live?
    ensures AnsweredFrom(w, start[j].held, own, id, req, after, s.servers[j].held)
  {
    var first, step := start[j].held, S.Stepper(w);
    HeldIsLastHanded(u, W.Init(file, start), acts, s, j);
    S.SafePublication(w, first, own);
    var mid := Runs.Run(step, S.Init(first), own).value;
    assert mid.cfgs[mid.handler] == s.servers[j].held;
    if Runs.Run(step, S.Init(first), own + [S.Dispatch(id, req)] + after).Some? {
      Runs.Compose(step, S.Init(first), own + [S.Dispatch(id, req)], after);
      Runs.Compose(step, S.Init(first), own, [S.Dispatch(id, req)]);
      assert S.Step(w, mid, S.Dispatch(id, req)).Some?;
      S.AnswersAsLiveAtDispatch(w, first, own, id, req, after);
    }
  }

  /** From the file to the answer: if reloads have not overlapped and `Stop` was not called, then once all
      is quiet every request at every server is answered from the parse of the current file. */
  lemma QuietServesTheFile(u: W.Setup, w: World, file: string, start: seq<W.Server>, acts: seq<W.Action>, s: W.State,
                           j: nat, own: seq<S.Action>, id: nat, req: Request, after: seq<S.Action>)
    requires C.Untouched(start) && Runs.Run(C.SerialStepper(u), W.Init(file, start), acts) == Some(s)
    requires C.Quiet(s) && s.accepted != [] && u.parse(s.file).Some?
    requires j < |start| && start[j].Live? && Follows(u, w, W.Init(file, start), acts, j, own)
    ensures AnsweredFrom(w, start[j].held, own, id, req, after, u.parse(s.file).value)
  {
    Runs.Restrict(C.SerialStepper(u), W.Stepper(u), W.Init(file, start), acts);
    C.Converges(u, file, start, acts, s);
    AnsweredAsHeld(u, w, file, start, acts, s, j, own, id, req, after);
  }

  /** Whatever the watcher does, the server has a run that makes exactly the reloads it is handed; so the
      theorems above are about every run of the watcher. */
  lemma FollowingRunExists(u: W.Setup, w: World, s: W.State, acts: seq<W.Action>, j: nat) returns (own: seq<S.Action>)
    requires j < |s.servers| && s.servers[j].Live?
    ensures Follows(u, w, s, acts, j, own)
  {
    var end;
    own, end := S.ReloadAll(w, s.servers[j].held, Handed(u, s, acts, j));
  }

  /** From the file to the answer with overlapping reloads and files that need not parse: if in some state
      server `j` is settled on `cfg`, then however the watcher's goroutines come to rest with the file left
      alone, every request at `j` is answered from `cfg`. */
  lemma SettledServes(u: W.Setup, w: World, file: string, start: seq<W.Server>, acts: seq<W.Action>, mid: W.State,
                      cfg: Config, more: seq<W.Action>, s: W.State,
                      j: nat, own: seq<S.Action>, id: nat, req: Request, after: seq<S.Action>)
    requires C.Untouched(start) && Runs.Run(W.Stepper(u), W.Init(file, start), acts) == Some(mid)
    requires mid.stopper == W.Idle && j < |mid.servers| && mid.servers[j].Live? && L.Settled(u, mid, j, cfg)
    requires Runs.Run(L.Settler(u), mid, more) == Some(s) && C.Quiet(s)
    requires j < |start| && start[j].Live? && Follows(u, w, W.Init(file, start), acts + more, j, own)
    ensures AnsweredFrom(w, start[j].held, own, id, req, after, cfg)
  {
    L.ConvergesIff(u, file, start, acts, mid, j, cfg);
    assert L.Holds(s, j, cfg);
    Runs.Restrict(L.Settler(u), W.Stepper(u), mid, more);
    Runs.Compose(W.Stepper(u), W.Init(file, start), acts, more);
    AnsweredAsHeld(u, w, file, start, acts + more, s, j, own, id, req, after);
  }
}
