/**
  * config/watcher.go as a state machine: the file, the event queue, the watch loop, the debounce
  * timer, the reload goroutines, the servers and `Stop`, in any interleaving and with any clock.
  */
module Watcher {
  import opened Prelude
  import opened HttpSpec
  import Runs

  const DEBOUNCE := 500  // milliseconds

  datatype FsOp = Create | Write | Remove | Rename | Chmod

  datatype FsEvent = FsEvent(path: string, ops: set<FsOp>)

  /** The watched file and how its text parses; `LoadConfig` fails where `parse` is `None`. */
  datatype Setup = Setup(path: string, parse: string -> Option<Config>)

  predicate Accepts(path: string, e: FsEvent) {
    e.path == path && (Write in e.ops || Create in e.ops)
  }

  // ----- the debouncer ----------------------------------------------------------------------

  /** The runtime's armed timers with their deadlines, and the field `cw.debouncer`. Timer `i` is the
      one armed by the `i`-th accepted event. */
  datatype Timers = Timers(armed: map<nat, nat>, debouncer: Option<nat>, next: nat)

  /** `if cw.debouncer != nil { cw.debouncer.Stop() }`: a timer that already expired is not undone. */
  function StopDebouncer(t: Timers): Timers {
    match t.debouncer
    case None => t
    case Some(id) => t.(armed := t.armed - {id})
  }

  /** `cw.debouncer = time.AfterFunc(500ms, ...)`. */
  function ArmDebouncer(t: Timers, now: nat): Timers {
    Timers(t.armed[t.next := now + DEBOUNCE], Some(t.next), t.next + 1)
  }

  // ----- state ------------------------------------------------------------------------------

  datatype Loop = Waiting | InHand | Holding | Returned

  datatype Stopper = Idle | Stopping | Stopped

  /** A reload goroutine: about to read the file, or handing read number `read` to server `next`. */
  datatype Reload = Reading | Fanning(read: nat, next: nat)

  /** One `LoadConfig`: the text it saw, the reload that did it, how many servers it has reached. */
  datatype Load = Load(text: string, owner: nat, given: nat)

  /** `from` is the load the server's configuration came from, `None` for the one it started with. */
  datatype Server = Nil | Live(held: Config, from: Option<nat>)

  datatype Expiry = Expiry(id: nat, at: nat)

  datatype State = State(
    now: nat,
    file: string,
    queue: seq<FsEvent>, closed: bool,
    loop: Loop, stopper: Stopper,
    timers: Timers,
    reloads: map<nat, Reload>,
    servers: seq<Server>,
    accepted: seq<nat>,     // when each accepted event armed its timer
    expired: seq<Expiry>,
    loads: seq<Load>)

  datatype Action =
    | Advance(dt: nat)
    | WriteFile(text: string, ops: set<FsOp>)
    | Notice(e: FsEvent)
    | Receive
    | LockLoop
    | Arm
    | LoopReturn
    | Expire(id: nat)
    | Read(id: nat)
    | Deliver(id: nat)
    | BeginStop
    | EndStop

  function Init(file: string, servers: seq<Server>): State {
    State(0, file, [], false, Waiting, Idle, Timers(map[], None, 0), map[], servers, [], [], [])
  }

  predicate MuFree(s: State) { s.loop != Holding && s.stopper != Stopping }

  /** Reload one server with the configuration of load `read`. */
  function Hand(server: Server, cfg: Config, read: nat): Server {
    if server.Nil? then Nil else Live(cfg, Some(read))
  }

  function DeliverStep(u: Setup, s: State, id: nat, read: nat, i: nat): Option<State>
    requires read < |s.loads|
  {
    if i >= |s.servers| then Some(s.(reloads := s.reloads - {id}))
    else match u.parse(s.loads[read].text)
      case None => None
      case Some(cfg) =>
        Some(s.(servers := s.servers[i := Hand(s.servers[i], cfg, read)],
                loads := s.loads[read := s.loads[read].(given := i + 1)],
                reloads := s.reloads[id := Fanning(read, i + 1)]))
  }

  function Step(u: Setup, s: State, a: Action): Option<State> {
    match a
    case Advance(dt) => Some(s.(now := s.now + dt))
    case WriteFile(text, ops) =>
      // every write of the configuration file queues an event the watcher accepts
      var e := FsEvent(u.path, ops);
      if !Accepts(u.path, e) then None
      else Some(s.(file := text, queue := if s.closed then [] else s.queue + [e]))
    case Notice(e) =>
      if s.closed then None else Some(s.(queue := s.queue + [e]))
    case Receive =>
      if s.loop != Waiting || s.queue == [] then None
      else Some(s.(queue := s.queue[1..], loop := if Accepts(u.path, s.queue[0]) then InHand else Waiting))
    case LockLoop =>
      if s.loop != InHand || !MuFree(s) then None
      else Some(s.(timers := StopDebouncer(s.timers), loop := Holding))
    case Arm =>
      if s.loop != Holding then None
      else Some(s.(timers := ArmDebouncer(s.timers, s.now), accepted := s.accepted + [s.now], loop := Waiting))
    case LoopReturn =>
      if s.loop != Waiting || !s.closed then None else Some(s.(loop := Returned))
    case Expire(id) =>
      if id !in s.timers.armed || s.timers.armed[id] > s.now then None
      else Some(s.(timers := s.timers.(armed := s.timers.armed - {id}),
                   reloads := s.reloads[id := Reading],
                   expired := s.expired + [Expiry(id, s.now)]))
    case Read(id) =>
      if id !in s.reloads || s.reloads[id] != Reading then None
      else
        var read := s.(loads := s.loads + [Load(s.file, id, 0)]);
        Some(if u.parse(s.file).Some? then read.(reloads := s.reloads[id := Fanning(|s.loads|, 0)])
             else read.(reloads := s.reloads - {id}))
    case Deliver(id) =>
      if id !in s.reloads || s.reloads[id] == Reading || s.reloads[id].read >= |s.loads| then None
      else DeliverStep(u, s, id, s.reloads[id].read, s.reloads[id].next)
    case BeginStop =>
      if s.stopper != Idle || !MuFree(s) then None
      else Some(s.(timers := StopDebouncer(s.timers), stopper := Stopping))
    case EndStop =>
      // `watcher.Close` waits for the reader, so nothing is delivered afterwards
      if s.stopper != Stopping then None else Some(s.(closed := true, queue := [], stopper := Stopped))
  }

  function Stepper(u: Setup): (State, Action) -> Option<State> {
    (s, a) => Step(u, s, a)
  }

  /** The same reloads are about to read. */
  ghost predicate SameReaders(s: State, next: State) {
    && (forall id :: id in s.reloads && s.reloads[id] == Reading ==> id in next.reloads && next.reloads[id] == Reading)
    && (forall id :: id in next.reloads && next.reloads[id] == Reading ==> id in s.reloads && s.reloads[id] == Reading)
  }

  /** Which events count, in terms of path and operations: the waiting loop takes the event at the head of
      its queue in hand exactly if it is a write or a creation of the watched file, and drops any other;
      and exactly those operations are how a new text can arrive. */
  lemma EventsThatCount(u: Setup, s: State, text: string, ops: set<FsOp>)
    ensures s.loop == Waiting && s.queue != [] ==>
              && Step(u, s, Receive).Some?
              && var e, next := s.queue[0], Step(u, s, Receive).value;
              && next.queue == s.queue[1..]
              && next.loop == if e.path == u.path && (Write in e.ops || Create in e.ops) then InHand else Waiting
    ensures Step(u, s, WriteFile(text, ops)).Some? <==> Write in ops || Create in ops
  {
  }

  // ----- what a step does to the timers -----------------------------------------------------

  /** Whether the loop holds an accepted event that has not armed its timer yet. */
  function InFlight(s: State): nat { if s.loop == InHand || s.loop == Holding then 1 else 0 }

  /** The part of a step the timer theorems depend on. */
  predicate Effect(s: State, a: Action, next: State) {
    match a
    case Advance(dt) => next == s.(now := s.now + dt)
    case LockLoop =>
      s.loop == InHand && MuFree(s) && next == s.(timers := StopDebouncer(s.timers), loop := Holding)
    case Arm =>
      && s.loop == Holding
      && next == s.(timers := ArmDebouncer(s.timers, s.now), accepted := s.accepted + [s.now], loop := Waiting)
    case Expire(id) =>
      && id in s.timers.armed && s.timers.armed[id] <= s.now
      && next == s.(timers := s.timers.(armed := s.timers.armed - {id}), reloads := s.reloads[id := Reading],
                    expired := s.expired + [Expiry(id, s.now)])
    case BeginStop =>
      s.stopper == Idle && MuFree(s) && next == s.(timers := StopDebouncer(s.timers), stopper := Stopping)
    case EndStop =>
      s.stopper == Stopping && next == s.(closed := true, queue := [], stopper := Stopped)
    case _ =>
      && next.timers == s.timers && next.accepted == s.accepted && next.expired == s.expired && next.now == s.now
      && next.stopper == s.stopper && next.closed == s.closed
      && (s.closed && s.queue == [] ==> next.queue == [])
      && next.reloads.Keys <= s.reloads.Keys
      && (next.loop == Holding <==> s.loop == Holding)
      && (next.loop == Returned ==> s.loop == Returned || s.closed)
      && (s.queue == [] ==> InFlight(next) == InFlight(s))
  }

  lemma StepEffect(u: Setup, s: State, a: Action)
    requires Step(u, s, a).Some?
    ensures Effect(s, a, Step(u, s, a).value)
  {
  }

  // ----- timers: invariant of every run -----------------------------------------------------

  /** Only the debouncer's timer can be armed, and it is the latest event's. */
  ghost predicate OneTimer(t: Timers, es: seq<nat>) {
    && t.next == |es|
    && t.debouncer == (if t.next == 0 then None else Some(t.next - 1))
    && (forall id :: id in t.armed ==> id == t.next - 1 && t.armed[id] == es[id] + DEBOUNCE)
  }

  ghost predicate Control(s: State) {
    && (s.loop == Holding || s.stopper == Stopping ==> s.timers.armed == map[])
    && !(s.loop == Holding && s.stopper == Stopping)
    && (s.stopper == Stopped <==> s.closed)
    && (s.closed ==> s.queue == [])
    && (s.loop == Returned ==> s.closed)
  }

  ghost predicate Clocked(es: seq<nat>, now: nat) {
    && (forall i, j :: 0 <= i < j < |es| ==> es[i] <= es[j])
    && (forall i :: 0 <= i < |es| ==> es[i] <= now)
  }

  /** What an expiry proves about the events around it. */
  ghost predicate ExpiryOk(es: seq<nat>, x: Expiry, now: nat) {
    && x.id < |es|
    && es[x.id] + DEBOUNCE <= x.at <= now
    && (x.id + 1 < |es| ==> x.at <= es[x.id + 1])
  }

  ghost predicate Expiries(es: seq<nat>, fired: seq<Expiry>, now: nat) {
    && (forall k :: 0 <= k < |fired| ==> ExpiryOk(es, fired[k], now))
    && (forall k, l :: 0 <= k < l < |fired| ==> fired[k].id < fired[l].id)
  }

  /** What has fired, and whose reload runs, is not armed. */
  ghost predicate Apart(t: Timers, fired: seq<Expiry>, running: set<nat>) {
    && (forall k :: 0 <= k < |fired| ==> fired[k].id !in t.armed)
    && (forall id :: id in running ==> id < t.next && id !in t.armed)
  }

  ghost predicate TimerInv(s: State) {
    && OneTimer(s.timers, s.accepted)
    && Control(s)
    && Clocked(s.accepted, s.now)
    && Expiries(s.accepted, s.expired, s.now)
    && Apart(s.timers, s.expired, s.reloads.Keys)
  }

  lemma CancelKeeps(s: State, next: State)
    requires TimerInv(s) && next.timers == StopDebouncer(s.timers) && next.accepted == s.accepted
    requires next.expired == s.expired && next.reloads == s.reloads
    ensures next.timers.armed == map[]
    ensures OneTimer(next.timers, next.accepted) && Apart(next.timers, next.expired, next.reloads.Keys)
  {
  }

  lemma ArmKeeps(s: State, next: State)
    requires TimerInv(s) && Effect(s, Arm, next)
    ensures TimerInv(next)
  {
    var es, n := next.accepted, |s.accepted|;
    assert forall i :: 0 <= i < n ==> es[i] == s.accepted[i];
    forall k | 0 <= k < |s.expired| ensures ExpiryOk(es, s.expired[k], s.now) {
      assert ExpiryOk(s.accepted, s.expired[k], s.now);
    }
    forall k | 0 <= k < |s.expired| ensures s.expired[k].id !in next.timers.armed {
      assert ExpiryOk(s.accepted, s.expired[k], s.now);
    }
  }

  lemma ExpireKeeps(s: State, id: nat, next: State)
    requires TimerInv(s) && Effect(s, Expire(id), next)
    ensures TimerInv(next)
  {
    var x := Expiry(id, s.now);
    assert ExpiryOk(s.accepted, x, s.now);
    forall k | 0 <= k < |s.expired| ensures s.expired[k].id < id {
      assert ExpiryOk(s.accepted, s.expired[k], s.now) && s.expired[k].id != id;
    }
    assert next.timers.armed == map[];
  }

  lemma TimeKeeps(s: State, next: State)
    requires TimerInv(s) && next == s.(now := next.now) && s.now <= next.now
    ensures TimerInv(next)
  {
    forall k | 0 <= k < |s.expired| ensures ExpiryOk(s.accepted, s.expired[k], next.now) {
      assert ExpiryOk(s.accepted, s.expired[k], s.now);
    }
  }

  lemma TimerEffect(s: State, a: Action, next: State)
    requires TimerInv(s) && Effect(s, a, next)
    ensures TimerInv(next)
  {
    match a {
      case Advance(dt) => TimeKeeps(s, next);
      case LockLoop => CancelKeeps(s, next);
      case BeginStop => CancelKeeps(s, next);
      case Arm => ArmKeeps(s, next);
      case Expire(id) => ExpireKeeps(s, id, next);
      case _ =>
    }
  }

  lemma TimerStep(u: Setup, s: State, a: Action)
    requires TimerInv(s) && Step(u, s, a).Some?
    ensures TimerInv(Step(u, s, a).value)
  {
    StepEffect(u, s, a);
    TimerEffect(s, a, Step(u, s, a).value);
  }

  lemma TimersAfter(u: Setup, s: State, acts: seq<Action>)
    requires TimerInv(s) && Runs.Run(Stepper(u), s, acts).Some?
    ensures TimerInv(Runs.Run(Stepper(u), s, acts).value)
  {
    var inv := (t: State) => TimerInv(t);
    forall t, a | inv(t) && Stepper(u)(t, a).Some? ensures inv(Stepper(u)(t, a).value) {
      TimerStep(u, t, a);
    }
    assert Runs.Inductive(Stepper(u), inv);
    Runs.Keeps(Stepper(u), inv, s, acts);
  }

  lemma TimersReachable(u: Setup, file: string, servers: seq<Server>, acts: seq<Action>)
    requires Runs.Run(Stepper(u), Init(file, servers), acts).Some?
    ensures var s := Runs.Run(Stepper(u), Init(file, servers), acts).value; TimerInv(s)
  {
    TimersAfter(u, Init(file, servers), acts);
  }

  /** At most one timer is armed; it is the one in `cw.debouncer` and belongs to the latest accepted
      event. */
  lemma SingleArmedTimer(u: Setup, file: string, servers: seq<Server>, acts: seq<Action>)
    requires Runs.Run(Stepper(u), Init(file, servers), acts).Some?
    ensures var s := Runs.Run(Stepper(u), Init(file, servers), acts).value;
            forall id :: id in s.timers.armed ==>
              && s.timers.debouncer == Some(id)
              && id == |s.accepted| - 1
              && s.timers.armed == map[id := s.accepted[id] + DEBOUNCE]
  {
    TimersReachable(u, file, servers, acts);
  }

  /** Another event follows event `i` within the window: no later than its deadline. */
  predicate Superseded(es: seq<nat>, i: nat)
    requires i < |es|
  {
    i + 1 < |es| && es[i + 1] <= es[i] + DEBOUNCE
  }

  /** Another event follows event `i` strictly before its deadline. */
  predicate Overtaken(es: seq<nat>, i: nat)
    requires i < |es|
  {
    i + 1 < |es| && es[i + 1] < es[i] + DEBOUNCE
  }

  /** With any clock, however late timers fire: an event followed by another within the window never
      fires, and firings are at least one window apart. */
  lemma DebounceLateClock(u: Setup, file: string, servers: seq<Server>, acts: seq<Action>)
    requires Runs.Run(Stepper(u), Init(file, servers), acts).Some?
    ensures var s := Runs.Run(Stepper(u), Init(file, servers), acts).value;
            && (forall k :: 0 <= k < |s.expired| ==>
                  var i := s.expired[k].id;
                  i < |s.accepted| && !Overtaken(s.accepted, i))
            && (forall k, l :: 0 <= k < l < |s.expired| ==> s.expired[k].at + DEBOUNCE <= s.expired[l].at)
  {
    TimersReachable(u, file, servers, acts);
    var s := Runs.Run(Stepper(u), Init(file, servers), acts).value;
    forall k, l | 0 <= k < l < |s.expired| ensures s.expired[k].at + DEBOUNCE <= s.expired[l].at {
      var i, j := s.expired[k].id, s.expired[l].id;
      assert i < j && s.accepted[i + 1] <= s.accepted[j];
    }
  }

  // ----- an ideal clock ---------------------------------------------------------------------

  /** Timers fire on their deadline and the critical section of `scheduleReload` takes no time: time
      does not pass an armed deadline, nor while the loop holds the mutex. */
  function IdealStep(u: Setup, s: State, a: Action): Option<State> {
    if a.Advance? && (s.loop == Holding || exists id :: id in s.timers.armed && s.timers.armed[id] < s.now + a.dt)
    then None else Step(u, s, a)
  }

  function IdealStepper(u: Setup): (State, Action) -> Option<State> {
    (s, a) => IdealStep(u, s, a)
  }

  ghost predicate Fired(s: State, i: nat) {
    exists k :: 0 <= k < |s.expired| && s.expired[k].id == i
  }

  /** Every expiry is on its deadline. */
  ghost predicate Punctual(es: seq<nat>, fired: seq<Expiry>) {
    forall k :: 0 <= k < |fired| ==> fired[k].id < |es| && fired[k].at == es[fired[k].id] + DEBOUNCE
  }

  /** An event's timer has fired, is armed, or was superseded within the window; or the loop is just
      about to supersede it, in time. */
  ghost predicate Handled(s: State, i: nat)
    requires i < |s.accepted|
  {
    || Fired(s, i)
    || i in s.timers.armed
    || Superseded(s.accepted, i)
    || (i + 1 == |s.accepted| && s.loop == Holding && s.now <= s.accepted[i] + DEBOUNCE)
  }

  ghost predicate IdealInv(s: State) {
    && TimerInv(s)
    && (forall id :: id in s.timers.armed ==> s.now <= s.timers.armed[id])
    && Punctual(s.accepted, s.expired)
    && (s.stopper == Idle ==> forall i :: 0 <= i < |s.accepted| ==> Handled(s, i))
  }

  lemma IdealArm(s: State, next: State)
    requires IdealInv(s) && Effect(s, Arm, next) && TimerInv(next)
    ensures IdealInv(next)
  {
    var es, n := next.accepted, |s.accepted|;
    assert forall i :: 0 <= i < n ==> es[i] == s.accepted[i];
    if next.stopper == Idle {
      forall i | 0 <= i < |es| ensures Handled(next, i) {
        if i < n {
          assert Handled(s, i);
          if Fired(s, i) { assert Fired(next, i); } else { assert Superseded(es, i); }
        }
      }
    }
  }

  lemma IdealExpire(s: State, id: nat, next: State)
    requires IdealInv(s) && Effect(s, Expire(id), next) && TimerInv(next)
    ensures IdealInv(next)
  {
    assert next.expired[|s.expired|] == Expiry(id, s.now);
    if next.stopper == Idle {
      forall i | 0 <= i < |s.accepted| ensures Handled(next, i) {
        assert Handled(s, i);
        if Fired(s, i) {
          var k :| 0 <= k < |s.expired| && s.expired[k].id == i;
          assert next.expired[k].id == i;
        }
      }
    }
  }

  /** Steps that fire and arm nothing: time may pass up to the deadline, and the debouncer may be
      stopped. */
  lemma IdealFrame(s: State, a: Action, next: State)
    requires IdealInv(s) && Effect(s, a, next) && TimerInv(next)
    requires a.Advance? ==> s.loop != Holding && forall id :: id in s.timers.armed ==> next.now <= s.timers.armed[id]
    requires !a.Arm? && !a.Expire?
    ensures IdealInv(next)
  {
    if next.stopper == Idle {
      forall i | 0 <= i < |s.accepted| ensures Handled(next, i) {
        assert Handled(s, i);
        if Fired(s, i) {
          assert Fired(next, i);
        }
      }
    }
  }

  lemma IdealKeeps(u: Setup, s: State, a: Action)
    requires IdealInv(s) && IdealStep(u, s, a).Some?
    ensures IdealInv(IdealStep(u, s, a).value)
  {
    var next := Step(u, s, a).value;
    StepEffect(u, s, a);
    TimerEffect(s, a, next);
    match a {
      case Arm => IdealArm(s, next);
      case Expire(id) => IdealExpire(s, id, next);
      case _ => IdealFrame(s, a, next);
    }
  }

  lemma IdealReachable(u: Setup, file: string, servers: seq<Server>, acts: seq<Action>)
    requires Runs.Run(IdealStepper(u), Init(file, servers), acts).Some?
    ensures IdealInv(Runs.Run(IdealStepper(u), Init(file, servers), acts).value)
  {
    var inv := (s: State) => IdealInv(s);
    forall s, a | inv(s) && IdealStepper(u)(s, a).Some? ensures inv(IdealStepper(u)(s, a).value) {
      IdealKeeps(u, s, a);
    }
    assert Runs.Inductive(IdealStepper(u), inv);
    Runs.Keeps(IdealStepper(u), inv, Init(file, servers), acts);
  }

  /** The debounce specification: event `i` has fired exactly 500 ms after it when no event follows
      within the window, has not when one follows sooner, and may go either way when the next follows
      exactly on the deadline; so the last event always fires; nothing else fires, and firings are at
      least 500 ms apart. The fate of the events in `open` is not decided yet. */
  ghost predicate Debounced(es: seq<nat>, fired: seq<Expiry>, open: set<nat>) {
    && (forall i :: 0 <= i < |es| && !Superseded(es, i) && i !in open ==> Expiry(i, es[i] + DEBOUNCE) in fired)
    && (forall x :: x in fired ==> x.id < |es| && x.at == es[x.id] + DEBOUNCE && !Overtaken(es, x.id))
    && (forall k, l :: 0 <= k < l < |fired| ==> fired[k].at + DEBOUNCE <= fired[l].at)
  }

  /** The latest event is open while its timer is armed, or while the loop is replacing that timer. */
  function Open(s: State): set<nat> {
    s.timers.armed.Keys + if s.loop == Holding && s.accepted != [] then {|s.accepted| - 1} else {}
  }

  /** On an ideal clock the expiries of any run are the debounced events, all but the latest decided at
      any moment, and the latest too once no timer is armed. */
  lemma DebounceRefinement(u: Setup, file: string, servers: seq<Server>, acts: seq<Action>, s: State)
    requires Runs.Run(IdealStepper(u), Init(file, servers), acts) == Some(s) && s.stopper == Idle
    ensures Debounced(s.accepted, s.expired, Open(s))
    ensures forall i :: i in Open(s) ==> i == |s.accepted| - 1
    ensures s.loop != Holding && s.timers.armed == map[] ==> Debounced(s.accepted, s.expired, {})
  {
    IdealReachable(u, file, servers, acts);
    Runs.Restrict(IdealStepper(u), Stepper(u), Init(file, servers), acts);
    DebounceLateClock(u, file, servers, acts);
    DecidedAreDebounced(s);
    OpenIsLatest(s);
  }

  lemma OpenIsLatest(s: State)
    requires IdealInv(s)
    ensures forall i :: i in Open(s) ==> i == |s.accepted| - 1
    ensures s.loop != Holding && s.timers.armed == map[] ==> Open(s) == {}
  {
  }

  lemma DecidedAreDebounced(s: State)
    requires IdealInv(s) && s.stopper == Idle
    requires forall k, l :: 0 <= k < l < |s.expired| ==> s.expired[k].at + DEBOUNCE <= s.expired[l].at
    ensures Debounced(s.accepted, s.expired, Open(s))
  {
    forall i | 0 <= i < |s.accepted| && !Superseded(s.accepted, i) && i !in Open(s)
      ensures Expiry(i, s.accepted[i] + DEBOUNCE) in s.expired
    {
      assert Handled(s, i);
      var k :| 0 <= k < |s.expired| && s.expired[k].id == i;
      assert s.expired[k] == Expiry(i, s.accepted[i] + DEBOUNCE);
    }
    forall x | x in s.expired
      ensures x.id < |s.accepted| && x.at == s.accepted[x.id] + DEBOUNCE && !Overtaken(s.accepted, x.id)
    {
      var k :| 0 <= k < |s.expired| && s.expired[k] == x;
      assert ExpiryOk(s.accepted, s.expired[k], s.now);
    }
  }

  // ----- Stop -------------------------------------------------------------------------------

  /** `Stop` has returned, and no more than `armings` timers are ever armed in all. */
  ghost predicate StoppedWith(s: State, armings: nat) {
    && TimerInv(s)
    && s.stopper == Stopped
    && |s.accepted| + InFlight(s) <= armings
  }

  lemma StoppedStep(u: Setup, s: State, a: Action, armings: nat)
    requires StoppedWith(s, armings) && Step(u, s, a).Some?
    ensures StoppedWith(Step(u, s, a).value, armings)
  {
    StepEffect(u, s, a);
    TimerEffect(s, a, Step(u, s, a).value);
  }

  lemma ArmingsAfterStop(u: Setup, s: State, more: seq<Action>, end: State)
    requires TimerInv(s) && s.stopper == Stopped && Runs.Run(Stepper(u), s, more) == Some(end)
    ensures |end.accepted| <= |s.accepted| + InFlight(s)
  {
    var armings := |s.accepted| + InFlight(s);
    var inv := (t: State) => StoppedWith(t, armings);
    forall t, a | inv(t) && Stepper(u)(t, a).Some? ensures inv(Stepper(u)(t, a).value) {
      StoppedStep(u, t, a, armings);
    }
    assert Runs.Inductive(Stepper(u), inv);
    Runs.Keeps(Stepper(u), inv, s, more);
  }

  /** Stopped, nothing armed and nothing in hand: `n` timers have expired and no more will. */
  ghost predicate Dead(s: State, n: nat) {
    TimerInv(s) && s.stopper == Stopped && InFlight(s) == 0 && s.timers.armed == map[] && |s.expired| == n
  }

  lemma NothingExpires(u: Setup, s: State, more: seq<Action>, end: State)
    requires Dead(s, |s.expired|) && Runs.Run(Stepper(u), s, more) == Some(end)
    ensures |end.expired| == |s.expired|
  {
    var inv := (t: State) => Dead(t, |s.expired|);
    forall t, a | inv(t) && Stepper(u)(t, a).Some? ensures inv(Stepper(u)(t, a).value) {
      StepEffect(u, t, a);
      TimerEffect(t, a, Stepper(u)(t, a).value);
    }
    assert Runs.Inductive(Stepper(u), inv);
    Runs.Keeps(Stepper(u), inv, s, more);
  }

  /** The event in hand gets the mutex and arms its timer. */
  lemma ArmInFlight(u: Setup, s: State) returns (more: seq<Action>, end: State)
    requires TimerInv(s) && s.stopper != Stopping && InFlight(s) == 1
    ensures Runs.Run(Stepper(u), s, more) == Some(end) && TimerInv(end)
    ensures end == s.(loop := Waiting, accepted := s.accepted + [s.now],
                      timers := Timers(map[|s.accepted| := s.now + DEBOUNCE], Some(|s.accepted|), |s.accepted| + 1))
  {
    var held := if s.loop == Holding then s else Step(u, s, LockLoop).value;
    end := Step(u, held, Arm).value;
    if s.loop == Holding {
      more := [Arm];
      Runs.Path(Stepper(u), [s, end], more);
    } else {
      more := [LockLoop, Arm];
      TimerStep(u, s, LockLoop);
      Runs.Path(Stepper(u), [s, held, end], more);
    }
    TimerStep(u, held, Arm);
    assert held.timers.armed == map[];
  }

  /** An armed timer, given time, starts a reload. */
  lemma ExpireArmed(u: Setup, s: State, id: nat) returns (more: seq<Action>, end: State)
    requires id in s.timers.armed
    ensures Runs.Run(Stepper(u), s, more) == Some(end)
    ensures end.expired == s.expired + [Expiry(id, s.now + s.timers.armed[id])]
    ensures end.reloads == s.reloads[id := Reading] && end.stopper == s.stopper
  {
    var later := s.(now := s.now + s.timers.armed[id]);
    end := Step(u, later, Expire(id)).value;
    more := [Advance(s.timers.armed[id]), Expire(id)];
    Runs.Path(Stepper(u), [s, later, end], more);
  }

  /** Some continuation arms another timer; some continuation starts another reload. */
  ghost predicate MayArm(u: Setup, s: State) {
    exists more, end :: Runs.Run(Stepper(u), s, more) == Some(end) && |end.accepted| > |s.accepted|
  }

  ghost predicate MayReload(u: Setup, s: State) {
    exists more, end :: Runs.Run(Stepper(u), s, more) == Some(end) && |end.expired| > |s.expired|
  }

  /** After `Stop` returned, in every reachable state: a timer can still be armed exactly when the loop
      has an accepted event in hand, and then only one; and a reload can still start exactly then or
      when such a timer is armed already. */
  lemma AfterStop(u: Setup, file: string, servers: seq<Server>, acts: seq<Action>, s: State)
    requires Runs.Run(Stepper(u), Init(file, servers), acts) == Some(s) && s.stopper == Stopped
    ensures MayArm(u, s) <==> InFlight(s) == 1
    ensures MayReload(u, s) <==> InFlight(s) == 1 || s.timers.armed != map[]
    ensures forall more, end :: Runs.Run(Stepper(u), s, more) == Some(end) ==> |end.accepted| <= |s.accepted| + 1
  {
    TimersReachable(u, file, servers, acts);
    forall more, end | Runs.Run(Stepper(u), s, more) == Some(end) ensures |end.accepted| <= |s.accepted| + InFlight(s) {
      ArmingsAfterStop(u, s, more, end);
    }
    if InFlight(s) == 1 {
      var xs, mid := ArmInFlight(u, s);
      var ys, end := ExpireArmed(u, mid, |s.accepted|);
      Runs.Compose(Stepper(u), s, xs, ys);
      assert Runs.Run(Stepper(u), s, xs + ys) == Some(end);
    } else if id :| id in s.timers.armed {
      var more, end := ExpireArmed(u, s, id);
    } else {
      forall more, end | Runs.Run(Stepper(u), s, more) == Some(end) ensures |end.expired| == |s.expired| {
        NothingExpires(u, s, more, end);
      }
    }
  }

  /** `Stop` began when `n` events had been accepted; nothing older than that is armed. */
  ghost predicate Cancelled(s: State, n: nat) {
    && TimerInv(s) && s.stopper != Idle
    && n <= |s.accepted|
    && (s.stopper == Stopping ==> |s.accepted| == n)
    && |s.accepted| <= n + 1
    && (s.stopper == Stopped ==> |s.accepted| + InFlight(s) <= n + 1)
    && (|s.accepted| == n ==> s.timers.armed == map[])
  }

  lemma CancelledStep(u: Setup, s: State, a: Action, n: nat)
    requires Cancelled(s, n) && Step(u, s, a).Some?
    ensures Cancelled(Step(u, s, a).value, n)
  {
    StepEffect(u, s, a);
    TimerEffect(s, a, Step(u, s, a).value);
    CancelledEffect(s, a, Step(u, s, a).value, n);
  }

  lemma CancelledEffect(s: State, a: Action, next: State, n: nat)
    requires Cancelled(s, n) && Effect(s, a, next) && TimerInv(next)
    ensures Cancelled(next, n)
  {
  }

  /** `Stop` cancels what was armed: from the moment it holds the mutex, in every reachable state,
      whatever is armed later was armed by the one event the loop may have had in hand. */
  lemma StopCancels(u: Setup, file: string, servers: seq<Server>, acts: seq<Action>, s: State,
                    more: seq<Action>, end: State)
    requires Runs.Run(Stepper(u), Init(file, servers), acts) == Some(s) && s.stopper == Stopping
    requires Runs.Run(Stepper(u), s, more) == Some(end)
    ensures |end.accepted| <= |s.accepted| + 1
    ensures end.timers.armed != map[] ==> |end.accepted| == |s.accepted| + 1
  {
    TimersReachable(u, file, servers, acts);
    var inv := (t: State) => Cancelled(t, |s.accepted|);
    forall t, a | inv(t) && Stepper(u)(t, a).Some? ensures inv(Stepper(u)(t, a).value) {
      CancelledStep(u, t, a, |s.accepted|);
    }
    assert Runs.Inductive(Stepper(u), inv);
    Runs.Keeps(Stepper(u), inv, s, more);
  }

  /** An accepted event is in the loop's hand when `Stop` takes the mutex, closes and returns. */
  lemma StopWithEventInHand(u: Setup, s: State) returns (acts: seq<Action>, end: State)
    requires s.queue == [] && s.loop == Waiting && s.stopper == Idle && !s.closed && s.timers.debouncer.None?
    ensures Runs.Run(Stepper(u), s, acts) == Some(end)
    ensures end == s.(loop := InHand, stopper := Stopped, closed := true)
  {
    var e := FsEvent(u.path, {Write});
    var s1 := s.(queue := [e]);
    var s2 := s.(loop := InHand);
    var s3 := s2.(stopper := Stopping);
    end := s3.(stopper := Stopped, closed := true);
    acts := [WriteFile(s.file, {Write}), Receive, BeginStop, EndStop];
    assert [] + [e] == [e] && [e][1..] == [];
    assert Step(u, s, acts[0]) == Some(s1);
    assert Step(u, s1, acts[1]) == Some(s2);
    Runs.Path(Stepper(u), [s, s1, s2, s3, end], acts);
  }

  /** Such a run exists from the very start: an accepted event waiting for the mutex arms a fresh timer
      after `Stop` has returned, and its reload starts. */
  lemma ReloadAfterStop(u: Setup, file: string, servers: seq<Server>)
    returns (acts: seq<Action>, end: State)
    ensures Runs.Run(Stepper(u), Init(file, servers), acts) == Some(end)
    ensures end.stopper == Stopped && end.reloads == map[0 := Reading]
  {
    var step, start := Stepper(u), Init(file, servers);
    var xs, mid := StopWithEventInHand(u, start);
    TimersReachable(u, file, servers, xs);
    var ys, armed := ArmInFlight(u, mid);
    var zs, last := ExpireArmed(u, armed, 0);
    Runs.Compose(step, mid, ys, zs);
    Runs.Compose(step, start, xs, ys + zs);
    acts, end := xs + (ys + zs), last;
  }

  // ----- every debounced trace is a run -----------------------------------------------------

  /** The watch loop is idle with nothing queued. */
  predicate Idling(s: State) {
    s.queue == [] && s.loop == Waiting && s.stopper == Idle && !s.closed
  }

  function WriteActs(text: string, ops: set<FsOp>): seq<Action> { [WriteFile(text, ops), Receive, LockLoop, Arm] }

  /** A write goes through the loop in no time: a timer still running is stopped, a new one armed. */
  lemma WriteNow(u: Setup, s: State, text: string, ops: set<FsOp>) returns (end: State)
    requires Idling(s) && (Write in ops || Create in ops)
    requires s.timers.debouncer.Some? ==> s.timers.armed.Keys <= {s.timers.debouncer.value}
    requires s.timers.debouncer.None? ==> s.timers.armed == map[]
    ensures Runs.Run(IdealStepper(u), s, WriteActs(text, ops)) == Some(end)
    ensures end == s.(file := text, accepted := s.accepted + [s.now],
                      timers := Timers(map[s.timers.next := s.now + DEBOUNCE], Some(s.timers.next), s.timers.next + 1))
  {
    var e := FsEvent(u.path, ops);
    var s1 := s.(file := text, queue := [e]);
    var s2 := s1.(queue := [], loop := InHand);
    var s3 := s2.(loop := Holding, timers := StopDebouncer(s.timers));
    assert [] + [e] == [e] && [e][1..] == [] && s3.timers.armed == map[];
    assert Step(u, s, WriteFile(text, ops)) == Some(s1);
    assert Step(u, s1, Receive) == Some(s2);
    end := Step(u, s3, Arm).value;
    Runs.Path(IdealStepper(u), [s, s1, s2, s3, end], WriteActs(text, ops));
  }

  lemma FireNow(u: Setup, s: State, id: nat) returns (acts: seq<Action>, end: State)
    requires s.loop == Waiting && s.timers.armed == map[id := s.now + DEBOUNCE]
    ensures Runs.Run(IdealStepper(u), s, acts) == Some(end)
    ensures end == s.(now := s.now + DEBOUNCE, timers := s.timers.(armed := map[]), reloads := s.reloads[id := Reading],
                      expired := s.expired + [Expiry(id, s.now + DEBOUNCE)])
  {
    var s1 := s.(now := s.now + DEBOUNCE);
    assert s1.timers.armed - {id} == map[];
    end := Step(u, s1, Expire(id)).value;
    acts := [Advance(DEBOUNCE), Expire(id)];
    Runs.Path(IdealStepper(u), [s, s1, end], acts);
  }

  /** Wait until `at`, then write. */
  lemma WriteAt(u: Setup, s: State, text: string, at: nat) returns (acts: seq<Action>, end: State)
    requires Idling(s) && s.now <= at
    requires s.timers.debouncer.Some? ==> s.timers.armed.Keys <= {s.timers.debouncer.value}
    requires s.timers.debouncer.None? ==> s.timers.armed == map[]
    requires forall id :: id in s.timers.armed ==> at <= s.timers.armed[id]
    ensures Runs.Run(IdealStepper(u), s, acts) == Some(end)
    ensures end == s.(now := at, file := text, accepted := s.accepted + [at],
                      timers := Timers(map[s.timers.next := at + DEBOUNCE], Some(s.timers.next), s.timers.next + 1))
  {
    var waited := s.(now := at);
    Runs.Path(IdealStepper(u), [s, waited], [Advance(at - s.now)]);
    end := WriteNow(u, waited, text, {Write});
    Runs.Compose(IdealStepper(u), s, [Advance(at - s.now)], WriteActs(text, {Write}));
    acts := [Advance(at - s.now)] + WriteActs(text, {Write});
  }

  predicate Ascending(es: seq<nat>) {
    forall i, j :: 0 <= i < j < |es| ==> es[i] <= es[j]
  }

  /** A debounced trace by index: firings are in event order, each on its deadline and not overtaken. */
  ghost predicate InOrder(es: seq<nat>, fired: seq<Expiry>) {
    && (forall k :: 0 <= k < |fired| ==>
          var x := fired[k]; x.id < |es| && x.at == es[x.id] + DEBOUNCE && !Overtaken(es, x.id))
    && (forall k, l :: 0 <= k < l < |fired| ==> fired[k].id < fired[l].id)
  }

  /** Event `i` fires unless it is superseded. */
  ghost predicate Due(es: seq<nat>, fired: seq<Expiry>, i: nat)
    requires i < |es|
  {
    Superseded(es, i) || exists j :: 0 <= j < |fired| && fired[j].id == i
  }

  lemma DebouncedInOrder(es: seq<nat>, fired: seq<Expiry>)
    requires Ascending(es) && Debounced(es, fired, {})
    ensures InOrder(es, fired) && forall i :: 0 <= i < |es| ==> Due(es, fired, i)
  {
    forall k | 0 <= k < |fired|
      ensures var x := fired[k]; x.id < |es| && x.at == es[x.id] + DEBOUNCE && !Overtaken(es, x.id)
    {
      assert fired[k] in fired;
    }
    forall k, l | 0 <= k < l < |fired| ensures fired[k].id < fired[l].id {
      LaterIsLarger(es, fired[k], fired[l]);
    }
    forall i | 0 <= i < |es| ensures Due(es, fired, i) {
      DueWhenDebounced(es, fired, i);
    }
  }

  lemma LaterIsLarger(es: seq<nat>, x: Expiry, y: Expiry)
    requires Ascending(es) && x.id < |es| && y.id < |es|
    requires x.at == es[x.id] + DEBOUNCE && y.at == es[y.id] + DEBOUNCE && x.at + DEBOUNCE <= y.at
    ensures x.id < y.id
  {
    assert es[x.id] < es[y.id];
  }

  lemma DueWhenDebounced(es: seq<nat>, fired: seq<Expiry>, i: nat)
    requires i < |es| && Debounced(es, fired, {})
    ensures Due(es, fired, i)
  {
    if !Superseded(es, i) {
      var x := Expiry(i, es[i] + DEBOUNCE);
      assert i !in {} && x in fired;
      var j :| 0 <= j < |fired| && fired[j] == x;
      assert fired[j].id == i;
    }
  }

  /** The first `k` firings are those of events before `n - 1`. */
  ghost predicate Cut(es: seq<nat>, fired: seq<Expiry>, n: nat, k: nat) {
    && 0 < n <= |es| && k <= |fired|
    && (forall j :: 0 <= j < k ==> fired[j].id < n - 1)
    && (forall j :: k <= j < |fired| ==> n - 1 <= fired[j].id)
  }

  /** `n` events have been accepted, the last one's timer is armed, and `k` firings have happened. */
  ghost predicate Upto(s: State, es: seq<nat>, fired: seq<Expiry>, n: nat, k: nat)
    requires 0 < n <= |es| && k <= |fired|
  {
    && Idling(s)
    && s.now == es[n - 1] && s.accepted == es[..n] && s.expired == fired[..k]
    && s.timers == Timers(map[n - 1 := es[n - 1] + DEBOUNCE], Some(n - 1), n)
  }

  lemma FireAndWrite(u: Setup, s: State, id: nat, at: nat) returns (acts: seq<Action>, end: State)
    requires Idling(s) && s.timers == Timers(map[id := s.now + DEBOUNCE], Some(id), id + 1) && s.now + DEBOUNCE <= at
    ensures Runs.Run(IdealStepper(u), s, acts) == Some(end) && Idling(end)
    ensures end.now == at && end.accepted == s.accepted + [at]
    ensures end.expired == s.expired + [Expiry(id, s.now + DEBOUNCE)]
    ensures end.timers == Timers(map[id + 1 := at + DEBOUNCE], Some(id + 1), id + 2)
  {
    var xs, mid := FireNow(u, s, id);
    var ys, last := WriteAt(u, mid, s.file, at);
    Runs.Compose(IdealStepper(u), s, xs, ys);
    acts, end := xs + ys, last;
  }

  /** The timer of event `n - 1` fires, and later event `n` arrives. */
  lemma FireThenWrite(u: Setup, s: State, es: seq<nat>, fired: seq<Expiry>, n: nat, k: nat)
    returns (acts: seq<Action>, end: State)
    requires 0 < n < |es| && k < |fired| && Upto(s, es, fired, n, k) && es[n - 1] + DEBOUNCE <= es[n]
    requires fired[k] == Expiry(n - 1, es[n - 1] + DEBOUNCE)
    ensures Runs.Run(IdealStepper(u), s, acts) == Some(end) && Upto(end, es, fired, n + 1, k + 1)
  {
    assert es[..n] + [es[n]] == es[..n + 1];
    assert fired[..k] + [fired[k]] == fired[..k + 1];
    acts, end := FireAndWrite(u, s, n - 1, es[n]);
  }

  /** Event `n` arrives in time to stop the timer of event `n - 1`. */
  lemma WriteOver(u: Setup, s: State, es: seq<nat>, fired: seq<Expiry>, n: nat, k: nat)
    returns (acts: seq<Action>, end: State)
    requires 0 < n < |es| && k <= |fired| && Upto(s, es, fired, n, k) && es[n - 1] <= es[n] <= es[n - 1] + DEBOUNCE
    ensures Runs.Run(IdealStepper(u), s, acts) == Some(end) && Upto(end, es, fired, n + 1, k)
  {
    assert es[..n] + [es[n]] == es[..n + 1];
    acts, end := WriteAt(u, s, s.file, es[n]);
  }

  /** Whether event `n - 1` fires is visible at the cut, and moves it. */
  lemma CutMoves(es: seq<nat>, fired: seq<Expiry>, n: nat, k: nat)
    requires InOrder(es, fired) && Cut(es, fired, n, k) && Due(es, fired, n - 1)
    ensures k < |fired| && fired[k].id == n - 1 ==>
              && fired[k].at == es[n - 1] + DEBOUNCE && !Overtaken(es, n - 1)
              && (if n < |es| then Cut(es, fired, n + 1, k + 1) else |fired| == k + 1)
    ensures !(k < |fired| && fired[k].id == n - 1) ==> Superseded(es, n - 1) && Cut(es, fired, n + 1, k)
  {
    assert forall j :: k < j < |fired| ==> fired[k].id < fired[j].id < |es|;
    assert k + 1 < |fired| ==> fired[k].id < fired[k + 1].id < |es|;
  }

  /** An ideal run up to any number of events of a debounced trace. */
  lemma {:induction false} RunUpto(u: Setup, file: string, servers: seq<Server>, es: seq<nat>, fired: seq<Expiry>,
                                   n: nat)
    returns (acts: seq<Action>, s: State, k: nat)
    requires Ascending(es) && InOrder(es, fired) && (forall i :: 0 <= i < |es| ==> Due(es, fired, i)) && 0 < n <= |es|
    ensures Cut(es, fired, n, k) && Upto(s, es, fired, n, k)
    ensures Runs.Run(IdealStepper(u), Init(file, servers), acts) == Some(s)
    decreases n
  {
    if n == 1 {
      acts, s := WriteAt(u, Init(file, servers), file, es[0]);
      k := 0;
      assert [] + [es[0]] == es[..1];
    } else {
      var xs, mid, j := RunUpto(u, file, servers, es, fired, n - 1);
      CutMoves(es, fired, n - 1, j);
      var ys;
      if j < |fired| && fired[j].id == n - 2 {
        ys, s := FireThenWrite(u, mid, es, fired, n - 1, j);
        k := j + 1;
      } else {
        ys, s := WriteOver(u, mid, es, fired, n - 1, j);
        k := j;
      }
      Runs.Compose(IdealStepper(u), Init(file, servers), xs, ys);
      acts := xs + ys;
    }
  }

  lemma FireLast(u: Setup, s: State, es: seq<nat>, fired: seq<Expiry>) returns (acts: seq<Action>, end: State)
    requires es != [] && fired != [] && Upto(s, es, fired, |es|, |fired| - 1)
    requires fired[|fired| - 1] == Expiry(|es| - 1, es[|es| - 1] + DEBOUNCE)
    ensures Runs.Run(IdealStepper(u), s, acts) == Some(end)
    ensures Idling(end) && end.timers.armed == map[] && end.accepted == es && end.expired == fired
  {
    assert fired[..|fired| - 1] + [fired[|fired| - 1]] == fired && es[..|es|] == es;
    acts, end := FireNow(u, s, |es| - 1);
  }

  /** The debounce specification leaves open no more than the code does: every event times in order and
      every firings it allows, either choice at each gap of exactly 500 ms included, are those of some
      run on an ideal clock. With `DebounceRefinement`, the traces are exactly the debounced ones. */
  lemma DebounceComplete(u: Setup, file: string, servers: seq<Server>, es: seq<nat>, fired: seq<Expiry>)
    returns (acts: seq<Action>, end: State)
    requires Ascending(es) && Debounced(es, fired, {})
    ensures Runs.Run(IdealStepper(u), Init(file, servers), acts) == Some(end)
    ensures end.stopper == Idle && end.loop != Holding && end.timers.armed == map[]
    ensures end.accepted == es && end.expired == fired
  {
    DebouncedInOrder(es, fired);
    if es == [] {
      NothingToFire(fired);
      acts, end := [], Init(file, servers);
    } else {
      acts, end := RunOfTrace(u, file, servers, es, fired);
    }
  }

  lemma NothingToFire(fired: seq<Expiry>)
    requires InOrder([], fired)
    ensures fired == []
  {
    assert 0 < |fired| ==> fired[0].id < 0;
  }

  lemma LastFiring(es: seq<nat>, fired: seq<Expiry>, k: nat)
    requires es != [] && InOrder(es, fired) && Cut(es, fired, |es|, k) && Due(es, fired, |es| - 1)
    ensures k == |fired| - 1 && fired[k] == Expiry(|es| - 1, es[|es| - 1] + DEBOUNCE)
  {
    assert !Superseded(es, |es| - 1);
    CutMoves(es, fired, |es|, k);
  }

  lemma RunOfTrace(u: Setup, file: string, servers: seq<Server>, es: seq<nat>, fired: seq<Expiry>)
    returns (acts: seq<Action>, end: State)
    requires es != [] && Ascending(es) && InOrder(es, fired) && forall i :: 0 <= i < |es| ==> Due(es, fired, i)
    ensures Runs.Run(IdealStepper(u), Init(file, servers), acts) == Some(end)
    ensures Idling(end) && end.timers.armed == map[] && end.accepted == es && end.expired == fired
  {
    var xs, s, k := RunUpto(u, file, servers, es, fired, |es|);
    LastFiring(es, fired, k);
    var ys;
    ys, end := FireLast(u, s, es, fired);
    Runs.Compose(IdealStepper(u), Init(file, servers), xs, ys);
    acts := xs + ys;
  }
}
