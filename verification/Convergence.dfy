/**
  * What the servers end up holding: convergence of the reload machine over whole runs, what survives
  * when reloads overlap, and the runs on which convergence fails.
  */
module Convergence {
  import opened Prelude
  import opened HttpSpec
  import opened Watcher
  import Runs

  /** Servers as the watcher finds them: nothing loaded yet. */
  predicate Untouched(servers: seq<Server>) {
    forall j :: 0 <= j < |servers| && servers[j].Live? ==> servers[j].from.None?
  }

  /** Something is still on its way from the file to the servers' configuration. */
  ghost predicate Pending(u: Setup, s: State) {
    || (exists i :: 0 <= i < |s.queue| && Accepts(u.path, s.queue[i]))
    || s.loop == InHand || s.loop == Holding
    || s.timers.armed != map[]
    || (exists id :: id in s.reloads && s.reloads[id] == Reading)
  }

  /** No queued event, no event in hand, no armed timer, no running reload, and `Stop` not called. */
  predicate Quiet(s: State) {
    s.queue == [] && s.loop == Waiting && s.timers.armed == map[] && s.reloads == map[] && s.stopper == Idle
  }

  // ----- every run --------------------------------------------------------------------------

  /** Each server holds what it started with or the parse of the load it came from; a load that parsed
      has reached `given` servers, and while that is not all of them its reload is at work. */
  ghost predicate LoadInv(u: Setup, start: seq<Server>, s: State) {
    && |s.servers| == |start|
    && (forall j :: 0 <= j < |start| ==> ServerInv(u, start[j], s.loads, s.servers[j]))
    && (forall k :: 0 <= k < |s.loads| && u.parse(s.loads[k].text).Some? ==> LoadOwned(s, k))
    && (forall id :: id in s.reloads && s.reloads[id].Fanning? ==>
          var k := s.reloads[id].read;
          && k < |s.loads| && s.loads[k].owner == id && s.loads[k].given == s.reloads[id].next <= |start|
          && u.parse(s.loads[k].text).Some?)
  }

  ghost predicate ServerInv(u: Setup, start: Server, loads: seq<Load>, server: Server) {
    && server.Nil? == start.Nil?
    && (server.Live? ==>
          match server.from {
            case None => server.held == start.held
            case Some(k) => k < |loads| && u.parse(loads[k].text) == Some(server.held)
          })
  }

  ghost predicate LoadOwned(s: State, k: nat)
    requires k < |s.loads|
  {
    var load := s.loads[k];
    load.given < |s.servers| ==> load.owner in s.reloads && s.reloads[load.owner] == Fanning(k, load.given)
  }

  /** Unless something is pending, the newest load saw the current file. */
  ghost predicate FreshInv(u: Setup, s: State) {
    s.stopper == Idle ==>
      || Pending(u, s)
      || s.accepted == []
      || (s.loads != [] && s.loads[|s.loads| - 1].text == s.file)
  }

  ghost predicate RunInv(u: Setup, start: seq<Server>, s: State) {
    TimerInv(s) && LoadInv(u, start, s) && FreshInv(u, s)
  }

  /** Pending survives a step that keeps the accepted events in the queue and the readers at work. */
  lemma StillPending(u: Setup, s: State, next: State)
    requires Pending(u, s)
    requires next.loop == s.loop && next.timers == s.timers
    requires forall i :: 0 <= i < |s.queue| && Accepts(u.path, s.queue[i]) ==>
               exists j :: 0 <= j < |next.queue| && Accepts(u.path, next.queue[j])
    requires forall id :: id in s.reloads && s.reloads[id] == Reading ==>
               id in next.reloads && next.reloads[id] == Reading
    ensures Pending(u, next)
  {
  }

  /** Receiving an event either takes an accepted one in hand or leaves those behind it queued. */
  lemma FreshReceive(u: Setup, s: State)
    requires FreshInv(u, s) && Step(u, s, Receive).Some?
    ensures FreshInv(u, Step(u, s, Receive).value)
  {
    var next := Step(u, s, Receive).value;
    assert forall i :: 0 < i < |s.queue| ==> next.queue[i - 1] == s.queue[i];
    if s.stopper == Idle && Pending(u, s) && next.loop != InHand {
      StillPending(u, s, next);
    }
  }

  lemma FreshDeliver(u: Setup, s: State, id: nat)
    requires FreshInv(u, s) && Step(u, s, Deliver(id)).Some?
    ensures FreshInv(u, Step(u, s, Deliver(id)).value)
  {
    var next := Step(u, s, Deliver(id)).value;
    assert |next.loads| == |s.loads| && forall i :: 0 <= i < |s.loads| ==> next.loads[i].text == s.loads[i].text;
    if s.stopper == Idle && Pending(u, s) {
      StillPending(u, s, next);
    }
  }

  lemma FreshQueue(u: Setup, s: State, a: Action)
    requires TimerInv(s) && FreshInv(u, s) && (a.WriteFile? || a.Notice?) && Step(u, s, a).Some?
    ensures FreshInv(u, Step(u, s, a).value)
  {
    var next := Step(u, s, a).value;
    if s.stopper == Idle {
      assert forall i :: 0 <= i < |s.queue| ==> next.queue[i] == s.queue[i];
      if a.WriteFile? {
        assert Accepts(u.path, next.queue[|s.queue|]);
      } else if Pending(u, s) {
        StillPending(u, s, next);
      }
    }
  }

  lemma FreshStep(u: Setup, s: State, a: Action)
    requires TimerInv(s) && FreshInv(u, s) && Step(u, s, a).Some?
    ensures FreshInv(u, Step(u, s, a).value)
  {
    var next := Step(u, s, a).value;
    match a {
      case WriteFile(_, _) => FreshQueue(u, s, a);
      case Notice(_) => FreshQueue(u, s, a);
      case Receive => FreshReceive(u, s);
      case Deliver(id) => FreshDeliver(u, s, id);
      case Expire(id) => assert next.reloads[id] == Reading;
      case Arm => assert s.timers.next in next.timers.armed;
      case Advance(_) => if s.stopper == Idle && Pending(u, s) { StillPending(u, s, next); }
      case _ =>
    }
  }

  lemma ReadKeeps(u: Setup, start: seq<Server>, s: State, id: nat)
    requires LoadInv(u, start, s) && Step(u, s, Read(id)).Some?
    ensures LoadInv(u, start, Step(u, s, Read(id)).value)
  {
    var next := Step(u, s, Read(id)).value;
    assert forall k :: 0 <= k < |s.loads| ==> next.loads[k] == s.loads[k];
    forall k | 0 <= k < |next.loads| && u.parse(next.loads[k].text).Some? ensures LoadOwned(next, k) {
      if k < |s.loads| { assert LoadOwned(s, k); }
    }
    forall j | 0 <= j < |start| ensures ServerInv(u, start[j], next.loads, next.servers[j]) {
      assert ServerInv(u, start[j], s.loads, s.servers[j]);
    }
  }

  lemma DeliverKeeps(u: Setup, start: seq<Server>, s: State, id: nat)
    requires LoadInv(u, start, s) && Step(u, s, Deliver(id)).Some?
    ensures LoadInv(u, start, Step(u, s, Deliver(id)).value)
  {
    var next := Step(u, s, Deliver(id)).value;
    var k := s.reloads[id].read;
    forall l | 0 <= l < |next.loads| && u.parse(next.loads[l].text).Some? ensures LoadOwned(next, l) {
      assert LoadOwned(s, l);
    }
    forall j | 0 <= j < |start| ensures ServerInv(u, start[j], next.loads, next.servers[j]) {
      assert ServerInv(u, start[j], s.loads, s.servers[j]);
    }
  }

  lemma RunStep(u: Setup, start: seq<Server>, s: State, a: Action)
    requires RunInv(u, start, s) && Step(u, s, a).Some?
    ensures RunInv(u, start, Step(u, s, a).value)
  {
    TimerStep(u, s, a);
    FreshStep(u, s, a);
    var next := Step(u, s, a).value;
    match a {
      case Read(id) => ReadKeeps(u, start, s, id);
      case Deliver(id) => DeliverKeeps(u, start, s, id);
      case _ => LoadFrame(u, start, s, next);
    }
  }

  /** Steps that touch neither servers nor loads, and at most start a reload. */
  lemma LoadFrame(u: Setup, start: seq<Server>, s: State, next: State)
    requires LoadInv(u, start, s) && next.servers == s.servers && next.loads == s.loads
    requires forall id :: id in s.reloads ==> id in next.reloads && next.reloads[id] == s.reloads[id]
    requires forall id :: id in next.reloads && id !in s.reloads ==> next.reloads[id] == Reading
    ensures LoadInv(u, start, next)
  {
    forall k | 0 <= k < |next.loads| && u.parse(next.loads[k].text).Some? ensures LoadOwned(next, k) {
      assert LoadOwned(s, k);
    }
  }

  lemma RunReachable(u: Setup, file: string, start: seq<Server>, acts: seq<Action>)
    requires Untouched(start) && Runs.Run(Stepper(u), Init(file, start), acts).Some?
    ensures RunInv(u, start, Runs.Run(Stepper(u), Init(file, start), acts).value)
  {
    var inv := (s: State) => RunInv(u, start, s);
    forall s, a | inv(s) && Stepper(u)(s, a).Some? ensures inv(Stepper(u)(s, a).value) {
      RunStep(u, start, s, a);
    }
    assert Runs.Inductive(Stepper(u), inv);
    Runs.Keeps(Stepper(u), inv, Init(file, start), acts);
  }

  /** Whatever overlaps: when all is quiet the newest load saw the current file, and every load that
      parsed, the newest included, has been handed to every server. */
  lemma EveryServerIsHandedTheFile(u: Setup, file: string, start: seq<Server>, acts: seq<Action>, s: State)
    requires Untouched(start) && Runs.Run(Stepper(u), Init(file, start), acts) == Some(s)
    requires Quiet(s) && s.accepted != []
    ensures s.loads != [] && s.loads[|s.loads| - 1].text == s.file && |s.servers| == |start|
    ensures forall k :: 0 <= k < |s.loads| && u.parse(s.loads[k].text).Some? ==> s.loads[k].given >= |s.servers|
  {
    RunReachable(u, file, start, acts);
    forall k | 0 <= k < |s.loads| && u.parse(s.loads[k].text).Some? ensures s.loads[k].given >= |s.servers| {
      assert LoadOwned(s, k);
    }
  }

  // ----- runs without overlapping reloads ---------------------------------------------------

  predicate NoOverlap(s: State) {
    forall a, b :: a in s.reloads && b in s.reloads ==> a == b
  }

  /** A timer may only expire while no other reload is running. */
  function SerialStep(u: Setup, s: State, a: Action): Option<State> {
    match Step(u, s, a)
    case None => None
    case Some(next) => if NoOverlap(next) then Some(next) else None
  }

  function SerialStepper(u: Setup): (State, Action) -> Option<State> {
    (s, a) => SerialStep(u, s, a)
  }

  /** The newest of the first `n` loads that parsed. */
  function Newest(u: Setup, loads: seq<Load>, n: nat): (k: Option<nat>)
    requires n <= |loads|
    ensures k.Some? ==> k.value < n && u.parse(loads[k.value].text).Some?
    ensures forall i :: 0 <= i < n && u.parse(loads[i].text).Some? ==> k.Some? && i <= k.value
  {
    if n == 0 then None
    else if u.parse(loads[n - 1].text).Some? then Some(n - 1)
    else Newest(u, loads, n - 1)
  }

  /** The loads server `j` has been handed: all, or all but the one still being handed round. */
  function Seen(u: Setup, loads: seq<Load>, j: nat): (n: nat)
    ensures n <= |loads|
  {
    if loads != [] && u.parse(loads[|loads| - 1].text).Some? && j >= loads[|loads| - 1].given
    then |loads| - 1 else |loads|
  }

  ghost predicate SerialInv(u: Setup, start: seq<Server>, s: State) {
    && RunInv(u, start, s) && NoOverlap(s)
    && InStep(u, start, s.loads, s.servers)
  }

  /** Older loads have been handed round completely, and every server holds the newest it has seen. */
  ghost predicate InStep(u: Setup, start: seq<Server>, loads: seq<Load>, servers: seq<Server>) {
    && |servers| == |start|
    && (forall k :: 0 <= k < |loads| - 1 && u.parse(loads[k].text).Some? ==> loads[k].given >= |start|)
    && (forall j :: 0 <= j < |start| && servers[j].Live? ==>
          servers[j].from == Newest(u, loads, Seen(u, loads, j)))
  }

  lemma {:induction false} NewestSameTexts(u: Setup, xs: seq<Load>, ys: seq<Load>, n: nat)
    requires n <= |xs| && n <= |ys|
    requires forall i :: 0 <= i < n ==> xs[i].text == ys[i].text
    ensures Newest(u, xs, n) == Newest(u, ys, n)
  {
    if n == 0 {
    } else {
      NewestSameTexts(u, xs, ys, n - 1);
    }
  }

  lemma OnlyReaderMeansAllGiven(u: Setup, start: seq<Server>, s: State, id: nat)
    requires LoadInv(u, start, s) && NoOverlap(s) && id in s.reloads && s.reloads[id] == Reading
    ensures forall k :: 0 <= k < |s.loads| && u.parse(s.loads[k].text).Some? ==> s.loads[k].given >= |start|
  {
    forall k | 0 <= k < |s.loads| && u.parse(s.loads[k].text).Some? ensures s.loads[k].given >= |start| {
      assert LoadOwned(s, k);
    }
  }

  lemma InStepRead(u: Setup, start: seq<Server>, loads: seq<Load>, servers: seq<Server>, load: Load)
    requires InStep(u, start, loads, servers) && load.given == 0
    requires forall k :: 0 <= k < |loads| && u.parse(loads[k].text).Some? ==> loads[k].given >= |start|
    ensures InStep(u, start, loads + [load], servers)
  {
    var next, n := loads + [load], |loads|;
    NewestSameTexts(u, loads, next, n);
    forall j | 0 <= j < |start| && servers[j].Live? ensures servers[j].from == Newest(u, next, Seen(u, next, j)) {
      assert Seen(u, loads, j) == n;
    }
  }

  lemma InStepDeliver(u: Setup, start: seq<Server>, loads: seq<Load>, servers: seq<Server>, i: nat, cfg: Config)
    requires InStep(u, start, loads, servers) && loads != [] && i < |servers|
    requires u.parse(loads[|loads| - 1].text) == Some(cfg) && loads[|loads| - 1].given == i
    ensures InStep(u, start, loads[|loads| - 1 := loads[|loads| - 1].(given := i + 1)],
                   servers[i := Hand(servers[i], cfg, |loads| - 1)])
  {
    var k := |loads| - 1;
    var next := loads[k := loads[k].(given := i + 1)];
    var handed := servers[i := Hand(servers[i], cfg, k)];
    forall j | 0 <= j < |start| && handed[j].Live? ensures handed[j].from == Newest(u, next, Seen(u, next, j)) {
      NewestSameTexts(u, loads, next, Seen(u, next, j));
    }
  }

  lemma SerialRead(u: Setup, start: seq<Server>, s: State, id: nat)
    requires SerialInv(u, start, s) && Step(u, s, Read(id)).Some?
    ensures var next := Step(u, s, Read(id)).value; InStep(u, start, next.loads, next.servers)
  {
    OnlyReaderMeansAllGiven(u, start, s, id);
    InStepRead(u, start, s.loads, s.servers, Load(s.file, id, 0));
  }

  lemma SerialDeliver(u: Setup, start: seq<Server>, s: State, id: nat)
    requires SerialInv(u, start, s) && Step(u, s, Deliver(id)).Some?
    ensures var next := Step(u, s, Deliver(id)).value; InStep(u, start, next.loads, next.servers)
  {
    var Fanning(k, i) := s.reloads[id];
    if i < |s.servers| {
      assert k == |s.loads| - 1;
      InStepDeliver(u, start, s.loads, s.servers, i, u.parse(s.loads[k].text).value);
    }
  }

  lemma LoadsUntouched(u: Setup, s: State, a: Action)
    requires Step(u, s, a).Some? && !a.Read? && !a.Deliver?
    ensures Step(u, s, a).value.servers == s.servers && Step(u, s, a).value.loads == s.loads
  {
  }

  lemma SerialKeeps(u: Setup, start: seq<Server>, s: State, a: Action)
    requires SerialInv(u, start, s) && SerialStep(u, s, a).Some?
    ensures SerialInv(u, start, SerialStep(u, s, a).value)
  {
    RunStep(u, start, s, a);
    match a {
      case Read(id) => SerialRead(u, start, s, id);
      case Deliver(id) => SerialDeliver(u, start, s, id);
      case _ => LoadsUntouched(u, s, a);
    }
  }

  lemma SerialStart(u: Setup, file: string, start: seq<Server>)
    requires Untouched(start)
    ensures SerialInv(u, start, Init(file, start))
  {
    var s := Init(file, start);
    assert TimerInv(s) && FreshInv(u, s) && LoadInv(u, start, s);
  }

  lemma SerialReachable(u: Setup, file: string, start: seq<Server>, acts: seq<Action>)
    requires Untouched(start) && Runs.Run(SerialStepper(u), Init(file, start), acts).Some?
    ensures SerialInv(u, start, Runs.Run(SerialStepper(u), Init(file, start), acts).value)
  {
    SerialStart(u, file, start);
    SerialInductive(u, start);
    Runs.Keeps(SerialStepper(u), (s: State) => SerialInv(u, start, s), Init(file, start), acts);
  }

  lemma SerialInductive(u: Setup, start: seq<Server>)
    ensures Runs.Inductive(SerialStepper(u), (s: State) => SerialInv(u, start, s))
  {
    forall s, a | SerialInv(u, start, s) && SerialStepper(u)(s, a).Some?
      ensures SerialInv(u, start, SerialStepper(u)(s, a).value)
    {
      SerialKeeps(u, start, s, a);
    }
  }

  /** Convergence over whole runs. If reloads do not overlap and `Stop` is not called, then whenever
      all is quiet and some event was accepted, every server holds the parse of the current file; if
      the file does not parse, the newest load that did, or what it started with. */
  lemma Converges(u: Setup, file: string, start: seq<Server>, acts: seq<Action>, s: State)
    requires Untouched(start) && Runs.Run(SerialStepper(u), Init(file, start), acts) == Some(s)
    requires Quiet(s) && s.accepted != []
    ensures |s.servers| == |start|
    ensures forall j :: 0 <= j < |start| ==> s.servers[j].Nil? == start[j].Nil?
    ensures u.parse(s.file).Some? ==>
              forall j :: 0 <= j < |start| && s.servers[j].Live? ==> s.servers[j].held == u.parse(s.file).value
    ensures u.parse(s.file).None? ==>
              forall j :: 0 <= j < |start| && s.servers[j].Live? ==>
                match Newest(u, s.loads, |s.loads|) {
                  case None => s.servers[j].held == start[j].held
                  case Some(k) => u.parse(s.loads[k].text) == Some(s.servers[j].held)
                }
  {
    SerialReachable(u, file, start, acts);
    assert s.loads[|s.loads| - 1].text == s.file;
    forall j | 0 <= j < |start| && s.servers[j].Live?
      ensures s.servers[j].from == Newest(u, s.loads, |s.loads|) && ServerInv(u, start[j], s.loads, s.servers[j])
    {
      if u.parse(s.file).Some? { assert LoadOwned(s, |s.loads| - 1); }
    }
  }

  // ----- runs on which it fails -------------------------------------------------------------

  /** A write whose event goes straight through the loop. */
  lemma Schedule(u: Setup, s: State, text: string) returns (acts: seq<Action>, end: State)
    requires TimerInv(s) && Idling(s)
    ensures Runs.Run(Stepper(u), s, acts) == Some(end) && Idling(end) && TimerInv(end)
    ensures end == s.(file := text, accepted := s.accepted + [s.now],
                      timers := Timers(map[|s.accepted| := s.now + DEBOUNCE], Some(|s.accepted|), |s.accepted| + 1))
  {
    acts := WriteActs(text, {Write});
    end := WriteNow(u, s, text, {Write});
    Runs.Restrict(IdealStepper(u), Stepper(u), s, acts);
    TimersAfter(u, s, acts);
  }

  /** The armed timer expires on its deadline and its reload reads the file. */
  lemma Fire(u: Setup, s: State, id: nat) returns (acts: seq<Action>, end: State)
    requires TimerInv(s) && Idling(s) && id < |s.accepted| && s.now <= s.accepted[id] + DEBOUNCE
    requires s.timers.armed == map[id := s.accepted[id] + DEBOUNCE] && id !in s.reloads
    ensures Runs.Run(Stepper(u), s, acts) == Some(end) && Idling(end) && TimerInv(end)
    ensures var due := s.accepted[id] + DEBOUNCE;
            end == s.(now := due, timers := s.timers.(armed := map[]), expired := s.expired + [Expiry(id, due)],
                      loads := s.loads + [Load(s.file, id, 0)],
                      reloads := if u.parse(s.file).Some? then s.reloads[id := Fanning(|s.loads|, 0)] else s.reloads)
  {
    var due := s.accepted[id] + DEBOUNCE;
    var s1 := s.(now := due);
    var s2 := Step(u, s1, Expire(id)).value;
    assert s2.timers.armed == map[];
    assert s2.reloads[id := Fanning(|s.loads|, 0)] == s.reloads[id := Fanning(|s.loads|, 0)];
    assert s2.reloads - {id} == s.reloads;
    acts := [Advance(due - s.now), Expire(id), Read(id)];
    end := Step(u, s2, Read(id)).value;
    Runs.Path(Stepper(u), [s, s1, s2, end], acts);
    TimersAfter(u, s, acts);
  }

  /** Write, fire, write again, fire again: two reloads have read and neither has delivered. */
  lemma TwoReaders(u: Setup, file: string, a: string, b: string, start: seq<Server>)
    returns (acts: seq<Action>, end: State)
    requires u.parse(a).Some? && u.parse(b).Some?
    ensures Runs.Run(Stepper(u), Init(file, start), acts) == Some(end) && Idling(end)
    ensures end.file == b && end.servers == start && end.timers.armed == map[] && |end.accepted| == 2
    ensures end.loads == [Load(a, 0, 0), Load(b, 1, 0)]
    ensures end.reloads == map[0 := Fanning(0, 0), 1 := Fanning(1, 0)]
  {
    var step, s0 := Stepper(u), Init(file, start);
    var x1, s1 := Schedule(u, s0, a);
    var x2, s2 := Fire(u, s1, 0);
    Runs.Compose(step, s0, x1, x2);
    var x3, s3 := Schedule(u, s2, b);
    var x4, s4 := Fire(u, s3, 1);
    Runs.Compose(step, s2, x3, x4);
    Runs.Compose(step, s0, x1 + x2, x3 + x4);
    acts, end := x1 + x2 + (x3 + x4), s4;
  }

  /** The newer reload delivers first, the older one last. */
  lemma DeliverOutOfOrder(u: Setup, s: State, a: string, b: string, old_: Config, new_: Config, first: Config)
    returns (acts: seq<Action>, end: State)
    requires u.parse(a) == Some(old_) && u.parse(b) == Some(new_)
    requires s.servers == [Live(first, None)] && s.loads == [Load(a, 0, 0), Load(b, 1, 0)]
    requires s.reloads == map[0 := Fanning(0, 0), 1 := Fanning(1, 0)]
    ensures Runs.Run(Stepper(u), s, acts) == Some(end)
    ensures end == s.(servers := [Live(old_, Some(0))], loads := [Load(a, 0, 1), Load(b, 1, 1)], reloads := map[])
  {
    var s1 := s.(servers := [Live(new_, Some(1))], loads := [Load(a, 0, 0), Load(b, 1, 1)],
                 reloads := map[0 := Fanning(0, 0), 1 := Fanning(1, 1)]);
    var s2 := s1.(reloads := map[0 := Fanning(0, 0)]);
    var s3 := s2.(servers := [Live(old_, Some(0))], loads := [Load(a, 0, 1), Load(b, 1, 1)],
                  reloads := map[0 := Fanning(0, 1)]);
    end := s3.(reloads := map[]);
    assert Step(u, s, Deliver(1)) == Some(s1) by {
      assert s.reloads[1 := Fanning(1, 1)] == s1.reloads;
      assert s.loads[1 := Load(b, 1, 1)] == s1.loads;
      assert s.servers[0 := Live(new_, Some(1))] == s1.servers;
    }
    assert Step(u, s1, Deliver(1)) == Some(s2) by { assert s1.reloads - {1} == s2.reloads; }
    assert Step(u, s2, Deliver(0)) == Some(s3) by {
      assert s2.reloads[0 := Fanning(0, 1)] == s3.reloads;
      assert s2.loads[0 := Load(a, 0, 1)] == s3.loads;
      assert s2.servers[0 := Live(old_, Some(0))] == s3.servers;
    }
    assert Step(u, s3, Deliver(0)) == Some(end) by { assert s3.reloads - {0} == end.reloads; }
    acts := [Deliver(1), Deliver(1), Deliver(0), Deliver(0)];
    Runs.Path(Stepper(u), [s, s1, s2, s3, end], acts);
  }

  /** The premise is needed: an older reload that is overtaken leaves its configuration behind. All is
      quiet, the file parses to `new_`, and the server holds `old_`. */
  lemma OverlapBreaksConvergence(u: Setup, file: string, a: string, b: string,
                                 old_: Config, new_: Config, first: Config)
    returns (acts: seq<Action>, end: State)
    requires u.parse(a) == Some(old_) && u.parse(b) == Some(new_)
    ensures Runs.Run(Stepper(u), Init(file, [Live(first, None)]), acts) == Some(end)
    ensures Quiet(end) && end.accepted != [] && end.file == b
    ensures end.servers == [Live(old_, Some(0))]
  {
    var xs, mid := TwoReaders(u, file, a, b, [Live(first, None)]);
    var ys, last := DeliverOutOfOrder(u, mid, a, b, old_, new_, first);
    Runs.Compose(Stepper(u), Init(file, [Live(first, None)]), xs, ys);
    acts, end := xs + ys, last;
  }

  /** A good write followed within the window by a bad one, however little within it, is never loaded:
      the servers keep what they had, not the last text that parsed. */
  lemma GoodWriteCanBeSkipped(u: Setup, file: string, good: string, bad: string, gap: nat, first: Config)
    returns (acts: seq<Action>, end: State)
    requires u.parse(good).Some? && u.parse(bad).None? && gap < DEBOUNCE
    ensures Runs.Run(Stepper(u), Init(file, [Live(first, None)]), acts) == Some(end)
    ensures Quiet(end) && end.accepted == [0, gap] && end.file == bad
    ensures end.loads == [Load(bad, 1, 0)] && end.servers == [Live(first, None)]
  {
    var step, s0 := Stepper(u), Init(file, [Live(first, None)]);
    var x1, s1 := Schedule(u, s0, good);
    var later := s1.(now := gap);
    Runs.Path(step, [s1, later], [Advance(gap)]);
    TimerStep(u, s1, Advance(gap));
    var x2, s2 := Schedule(u, later, bad);
    var x3, s3 := Fire(u, s2, 1);
    Runs.Compose(step, s1, [Advance(gap)], x2);
    Runs.Compose(step, s1, [Advance(gap)] + x2, x3);
    Runs.Compose(step, s0, x1, [Advance(gap)] + x2 + x3);
    acts, end := x1 + ([Advance(gap)] + x2 + x3), s3;
  }
}
