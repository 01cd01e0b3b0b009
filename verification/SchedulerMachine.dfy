/**
  * snmpclient/snmp.go:50-85 in time: the ticker with its one-tick buffer, the scheduler goroutine, and
  * `Stop` closing the channel and waiting, in any interleaving. The machine starts when
  * `StartWalkScheduler` has been called; time is in nanoseconds since then.
  */
module SchedulerMachine {
  import opened Prelude
  import opened Scheduler
  import Runs

  datatype Loop =
    | Disabled             // the term is not positive: no goroutine
    | Panicked             // `NewTicker` refused the period: the program is gone
    | Selecting
    | Sweeping(next: nat)
    | Exited

  datatype Setup = Setup(term: int, targets: seq<string>)

  /** `sweeps` counts sweeps begun, `dropped` the ticks the full buffer lost. */
  datatype State = State(
    now: nat, loop: Loop,
    buffered: nat, dropped: nat,
    closed: bool, stopReturned: bool,
    sweeps: nat, trace: seq<string>)

  datatype Action = Advance(dt: nat) | TakeTick | Walk(ok: bool) | EndSweep | SeeStop | CloseStop | StopReturns

  function Init(u: Setup): State {
    var loop := if u.term <= 0 then Disabled else if Period(u.term) <= 0 then Panicked else Selecting;
    State(0, loop, 0, 0, false, false, 0, [])
  }

  predicate Ticking(s: State) { s.loop.Selecting? || s.loop.Sweeping? }

  /** An ideal ticker: one tick at each multiple of the period, into a buffer of one. */
  function AdvanceStep(u: Setup, s: State, dt: nat): State {
    var later := s.(now := s.now + dt);
    if !Ticking(s) || Period(u.term) <= 0 then later
    else
      var waiting := s.buffered + ((s.now + dt) / Period(u.term) - s.now / Period(u.term));
      if waiting <= 0 then later
      else later.(buffered := 1, dropped := s.dropped + (waiting - 1))
  }

  function Step(u: Setup, s: State, a: Action): Option<State> {
    if s.loop.Panicked? then None
    else match a
      case Advance(dt) => Some(AdvanceStep(u, s, dt))
      case TakeTick =>
        if !s.loop.Selecting? || s.buffered == 0 then None
        else Some(s.(buffered := 0, loop := Sweeping(0), sweeps := s.sweeps + 1))
      case Walk(_) =>
        // an error is logged and the sweep goes on
        if !s.loop.Sweeping? || s.loop.next >= |u.targets| then None
        else Some(s.(trace := s.trace + [u.targets[s.loop.next]], loop := Sweeping(s.loop.next + 1)))
      case EndSweep =>
        if !s.loop.Sweeping? || s.loop.next < |u.targets| then None else Some(s.(loop := Selecting))
      case SeeStop =>
        // also enabled while a tick is buffered: the select may take either
        if !s.loop.Selecting? || !s.closed then None else Some(s.(loop := Exited))
      case CloseStop =>
        if s.closed then None else Some(s.(closed := true))
      case StopReturns =>
        if !s.closed || Ticking(s) then None else Some(s.(stopReturned := true))
  }

  function Stepper(u: Setup): (State, Action) -> Option<State> { (s, a) => Step(u, s, a) }

  // ----- invariant --------------------------------------------------------------------------

  /** Completed sweeps and the position in the current one. */
  function Whole(s: State): int { if s.loop.Sweeping? then s.sweeps - 1 else s.sweeps }

  ghost predicate Inv(u: Setup, s: State) {
    && 0 <= Whole(s)
    && s.buffered <= 1
    && (s.loop.Sweeping? ==> s.loop.next <= |u.targets|)
    && s.trace == Repeat(u.targets, Whole(s)) + (if s.loop.Sweeping? then u.targets[..s.loop.next] else [])
    && (Ticking(s) ==> u.term > 0 && Period(u.term) > 0
                       && s.sweeps + s.dropped + s.buffered == s.now / Period(u.term))
    && (s.stopReturned ==> s.closed && !Ticking(s))
    && (u.term <= 0 <==> s.loop.Disabled?)
    && (s.loop.Disabled? ==> s.sweeps == 0)
  }

  lemma SmallMultiple(p: int, d: int)
    requires p > 0 && p * d < p
    ensures d <= 0
  {
  }

  lemma MoreTime(n: nat, dt: nat, p: int)
    requires p > 0
    ensures (n + dt) / p >= n / p >= 0
  {
    var q, q' := n / p, (n + dt) / p;
    assert p * (q - q') == p * q - p * q';
    assert p * q == n - n % p && p * q' == n + dt - (n + dt) % p;
    SmallMultiple(p, q - q');
    assert p * (-q) == -(p * q);
    SmallMultiple(p, -q);
  }

  lemma StepKeeps(u: Setup, s: State, a: Action)
    requires Inv(u, s) && Step(u, s, a).Some?
    ensures Inv(u, Step(u, s, a).value)
  {
    match a {
      case Advance(dt) =>
        if Ticking(s) { MoreTime(s.now, dt, Period(u.term)); }
      case Walk(_) =>
        var i := s.loop.next;
        assert u.targets[..i + 1] == u.targets[..i] + [u.targets[i]];
      case EndSweep =>
        assert u.targets[..s.loop.next] == u.targets;
      case _ =>
    }
  }

  lemma Reachable(u: Setup, acts: seq<Action>)
    requires Runs.Run(Stepper(u), Init(u), acts).Some?
    ensures Inv(u, Runs.Run(Stepper(u), Init(u), acts).value)
  {
    forall s, a | Inv(u, s) && Stepper(u)(s, a).Some? ensures Inv(u, Stepper(u)(s, a).value) {
      StepKeeps(u, s, a);
    }
    var inv := (s: State) => Inv(u, s);
    assert Runs.Inductive(Stepper(u), inv);
    assert 0 / (if Period(u.term) > 0 then Period(u.term) else 1) == 0;
    Runs.Keeps(Stepper(u), inv, Init(u), acts);
  }

  // ----- theorems ---------------------------------------------------------------------------

  /** The walks made so far are whole sweeps and a prefix of one, which is empty unless the loop is
      sweeping, whichever walks failed; with a term that is not positive there are none. */
  lemma Trace(u: Setup, acts: seq<Action>, s: State)
    requires Runs.Run(Stepper(u), Init(u), acts) == Some(s)
    ensures exists k: nat, i: nat :: i <= |u.targets| && s.trace == Repeat(u.targets, k) + u.targets[..i]
    ensures !s.loop.Sweeping? ==> s.trace == Repeat(u.targets, s.sweeps)
    ensures u.term <= 0 ==> s.trace == []
  {
    Reachable(u, acts);
    var k: nat, i: nat := Whole(s), if s.loop.Sweeping? then s.loop.next else 0;
    assert s.trace == Repeat(u.targets, k) + u.targets[..i];
  }

  /** When `Stop` returns the walks are whole sweeps, and whatever happens afterwards adds none. */
  lemma StopIsFinal(u: Setup, acts: seq<Action>, s: State, more: seq<Action>)
    requires Runs.Run(Stepper(u), Init(u), acts) == Some(s) && s.stopReturned
    requires Runs.Run(Stepper(u), s, more).Some?
    ensures s.trace == Repeat(u.targets, s.sweeps)
    ensures Runs.Run(Stepper(u), s, more).value.trace == s.trace
  {
    Trace(u, acts, s);
    Reachable(u, acts);
    var inv := (t: State) => Inv(u, t) && t.stopReturned && t.trace == s.trace;
    forall t, a | inv(t) && Stepper(u)(t, a).Some? ensures inv(Stepper(u)(t, a).value) {
      StepKeeps(u, t, a);
    }
    assert Runs.Inductive(Stepper(u), inv);
    Runs.Keeps(Stepper(u), inv, s, more);
  }

  /** Rate: while the loop runs, every tick of the ideal ticker became a sweep, was dropped, or is
      buffered, however long sweeps take; so sweeps never outrun the clock. */
  lemma Rate(u: Setup, acts: seq<Action>, s: State)
    requires Runs.Run(Stepper(u), Init(u), acts) == Some(s) && Ticking(s)
    ensures Period(u.term) > 0
    ensures s.sweeps + s.dropped + s.buffered == s.now / Period(u.term)
    ensures s.buffered <= 1 && s.sweeps <= s.now / Period(u.term)
  {
    Reachable(u, acts);
  }

  // ----- ticks are not lost while the loop is free ------------------------------------------

  /** A prompt scheduler: while it is selecting, time passes no further than the next tick, and not at all
      while a tick or the stop signal is waiting. */
  function PromptStep(u: Setup, s: State, a: Action): Option<State> {
    if a.Advance? && s.loop.Selecting? && Period(u.term) > 0
       && (s.buffered > 0 || s.closed || (s.now + a.dt) / Period(u.term) > s.now / Period(u.term) + 1)
    then None else Step(u, s, a)
  }

  function Prompter(u: Setup): (State, Action) -> Option<State> { (s, a) => PromptStep(u, s, a) }

  /** A run in which no time passes while a sweep is on. */
  function InstantStep(u: Setup, s: State, a: Action): Option<State> {
    if a.Advance? && s.loop.Sweeping? then None else PromptStep(u, s, a)
  }

  function Instant(u: Setup): (State, Action) -> Option<State> { (s, a) => InstantStep(u, s, a) }

  /** A prompt scheduler loses ticks only by letting time pass during a sweep. */
  lemma DroppedOnlyWhileSweeping(u: Setup, acts: seq<Action>, s: State, a: Action)
    requires Runs.Run(Prompter(u), Init(u), acts) == Some(s) && PromptStep(u, s, a).Some?
    ensures PromptStep(u, s, a).value.dropped > s.dropped ==> s.loop.Sweeping? && a.Advance?
    ensures PromptStep(u, s, a).value.dropped >= s.dropped
  {
    Runs.Restrict(Prompter(u), Stepper(u), Init(u), acts);
    Reachable(u, acts);
    if a.Advance? && Ticking(s) { MoreTime(s.now, a.dt, Period(u.term)); }
  }

  /** Sweeps that take no time lose no tick: every elapsed period has had its sweep, but for the tick that
      is just waiting. */
  lemma InstantSweepsKeepPace(u: Setup, acts: seq<Action>, s: State)
    requires Runs.Run(Instant(u), Init(u), acts) == Some(s) && Ticking(s)
    ensures Period(u.term) > 0 && s.sweeps + s.buffered == s.now / Period(u.term)
  {
    var inv := (t: State) => Inv(u, t) && t.dropped == 0;
    forall t, a | inv(t) && Instant(u)(t, a).Some? ensures inv(Instant(u)(t, a).value) {
      StepKeeps(u, t, a);
      if a.Advance? && Ticking(t) { MoreTime(t.now, a.dt, Period(u.term)); }
    }
    assert Runs.Inductive(Instant(u), inv);
    Reachable(u, []);
    Runs.Keeps(Instant(u), inv, Init(u), acts);
  }

  // ----- what can always happen -------------------------------------------------------------

  /** From inside a sweep, the rest of the targets can be walked and the sweep ends. */
  lemma {:induction false} SweepCanEnd(u: Setup, s: State) returns (acts: seq<Action>, end: State)
    requires s.loop.Sweeping? && s.loop.next <= |u.targets|
    ensures Runs.Run(Stepper(u), s, acts) == Some(end)
    ensures end == s.(loop := Selecting, trace := s.trace + u.targets[s.loop.next..])
    decreases |u.targets| - s.loop.next
  {
    var i := s.loop.next;
    if i == |u.targets| {
      acts, end := [EndSweep], s.(loop := Selecting);
      assert s.trace + u.targets[i..] == s.trace;
      Runs.Path(Stepper(u), [s, end], acts);
    } else {
      var mid := Step(u, s, Walk(true)).value;
      var rest;
      rest, end := SweepCanEnd(u, mid);
      acts := [Walk(true)] + rest;
      assert acts[1..] == rest;
      assert s.trace + [u.targets[i]] + u.targets[i + 1..] == s.trace + u.targets[i..];
    }
  }

  /** A waiting tick can always start a sweep, and the sweep can walk every target. */
  lemma TickCanSweep(u: Setup, s: State) returns (acts: seq<Action>, end: State)
    requires s.loop.Selecting? && s.buffered > 0
    ensures Runs.Run(Stepper(u), s, acts) == Some(end)
    ensures end.loop.Selecting? && end.buffered == 0 && end.sweeps == s.sweeps + 1 && end.trace == s.trace + u.targets
  {
    var mid := Step(u, s, TakeTick).value;
    var rest;
    rest, end := SweepCanEnd(u, mid);
    acts := [TakeTick] + rest;
    assert acts[1..] == rest && u.targets[0..] == u.targets;
  }

  /** Once the channel is closed, `Stop` can always return: the current sweep ends, the loop sees the
      channel closed, and no further sweep begins. */
  lemma StopCanReturn(u: Setup, acts: seq<Action>, s: State) returns (more: seq<Action>, end: State)
    requires Runs.Run(Stepper(u), Init(u), acts) == Some(s) && s.closed
    ensures Runs.Run(Stepper(u), s, more) == Some(end) && end.stopReturned && end.sweeps == s.sweeps
  {
    Reachable(u, acts);
    if s.loop.Sweeping? {
      var xs, mid := SweepCanEnd(u, s);
      var ys, last := SelectingCanStop(u, mid);
      Runs.Compose(Stepper(u), s, xs, ys);
      more, end := xs + ys, last;
    } else if s.loop.Selecting? {
      more, end := SelectingCanStop(u, s);
    } else {
      NotPanicked(u, acts, s);
      end := Step(u, s, StopReturns).value;
      more := [StopReturns];
      Runs.Path(Stepper(u), [s, end], more);
    }
  }

  lemma NotPanicked(u: Setup, acts: seq<Action>, s: State)
    requires Runs.Run(Stepper(u), Init(u), acts) == Some(s) && s.closed
    ensures !s.loop.Panicked?
  {
    var inv := (t: State) => t.loop.Panicked? ==> t == Init(u);
    forall t, a | inv(t) && Stepper(u)(t, a).Some? ensures inv(Stepper(u)(t, a).value) {
    }
    assert Runs.Inductive(Stepper(u), inv);
    Runs.Keeps(Stepper(u), inv, Init(u), acts);
  }

  lemma SelectingCanStop(u: Setup, s: State) returns (more: seq<Action>, end: State)
    requires s.loop.Selecting? && s.closed
    ensures Runs.Run(Stepper(u), s, more) == Some(end) && end.stopReturned && end.sweeps == s.sweeps
  {
    var mid := Step(u, s, SeeStop).value;
    end := Step(u, mid, StopReturns).value;
    more := [SeeStop, StopReturns];
    Runs.Path(Stepper(u), [s, mid, end], more);
  }

  // ----- the width of the period ------------------------------------------------------------

  /** The period is the configured number of seconds exactly while it fits 64 bits. */
  lemma PeriodExactIff(term: int)
    requires 0 < term
    ensures Period(term) == term * SECOND <==> term <= 9_223_372_036
  {
    var n := term * SECOND;
    if n < 0x8000_0000_0000_0000 {
      assert (n + 0x8000_0000_0000_0000) % 0x1_0000_0000_0000_0000 == n + 0x8000_0000_0000_0000;
    }
  }

  /** Exactly which terms the ticker refuses: those whose product in nanoseconds lies in the upper half of
      a 64-bit range, or on its end, where it wraps to zero. Then no walk is ever made. */
  lemma TermPanicsIff(u: Setup, acts: seq<Action>)
    requires 0 < u.term
    ensures Init(u).loop.Panicked? <==> exists k: nat :: UpperHalf(u.term * SECOND, k)
    ensures (exists k: nat :: UpperHalf(u.term * SECOND, k)) && acts != [] ==> Runs.Run(Stepper(u), Init(u), acts).None?
  {
    WrapIsNotPositiveIff(u.term * SECOND);
  }

  const RANGE: int := 0x1_0000_0000_0000_0000

  predicate UpperHalf(n: int, k: nat) {
    k * RANGE + RANGE / 2 <= n <= k * RANGE + RANGE
  }

  lemma WrapIsNotPositiveIff(n: int)
    requires 0 < n
    ensures Wrap64(n) <= 0 <==> exists k: nat :: UpperHalf(n, k)
  {
    var q, r := n / RANGE, n % RANGE;
    assert n == q * RANGE + r;
    WrapAt(q, r);
    if r >= RANGE / 2 {
      assert UpperHalf(n, q);
    } else if r == 0 {
      assert UpperHalf(n, q - 1);
    } else {
      forall k: nat ensures !UpperHalf(n, k) {
        if k < q { assert k * RANGE + RANGE <= q * RANGE; }
        if k > q { assert q * RANGE + RANGE <= k * RANGE; }
      }
    }
  }

  lemma WrapAt(q: int, r: int)
    requires 0 <= r < RANGE
    ensures Wrap64(q * RANGE + r) == if r < RANGE / 2 then r else r - RANGE
  {
    var m := r + RANGE / 2;
    assert q * RANGE + m == (if m < RANGE then q * RANGE + m else (q + 1) * RANGE + (m - RANGE));
    if m < RANGE { ModAt(q, m); } else { ModAt(q + 1, m - RANGE); }
  }

  lemma ModAt(q: int, r: int)
    requires 0 <= r < RANGE
    ensures (q * RANGE + r) % RANGE == r
  {
  }

  /** The first refused terms: from one second more than fits, up to twice that. */
  lemma OverlongTermPanics(term: int, targets: seq<string>, acts: seq<Action>)
    requires 9_223_372_037 <= term <= 18_446_744_073
    ensures var u := Setup(term, targets);
            Period(term) < 0 && (acts != [] ==> Runs.Run(Stepper(u), Init(u), acts).None?)
  {
    var u := Setup(term, targets);
    assert UpperHalf(term * SECOND, 0);
    TermPanicsIff(u, acts);
    WrapAt(0, term * SECOND);
  }
}
