/**
  * Exactly when the servers converge: from any state of any run of the watcher, overlapping reloads or
  * not, which configuration a server must end up holding if the file is left alone.
  */
module Settling {
  import opened Prelude
  import opened HttpSpec
  import opened Watcher
  import opened Convergence
  import Runs

  /** The file is left alone: it is not written, no event arrives and `Stop` is not called. */
  function SettleStep(u: Setup, s: State, a: Action): Option<State> {
    if a.WriteFile? || a.Notice? || a.BeginStop? then None else Step(u, s, a)
  }

  function Settler(u: Setup): (State, Action) -> Option<State> {
    (s, a) => SettleStep(u, s, a)
  }

  /** Reload `id` has read the file and has yet to reach server `j`. */
  predicate Owes(s: State, id: nat, j: nat) {
    id in s.reloads && s.reloads[id].Fanning? && s.reloads[id].next <= j
  }

  predicate Carries(u: Setup, s: State, id: nat, cfg: Config) {
    && id in s.reloads && s.reloads[id].Fanning? && s.reloads[id].read < |s.loads|
    && u.parse(s.loads[s.reloads[id].read].text) == Some(cfg)
  }

  predicate Holds(s: State, j: nat, cfg: Config) {
    j < |s.servers| && s.servers[j].Live? && s.servers[j].held == cfg
  }

  /** Every reload that still owes server `j` carries `cfg`; if the file is yet to be read, it gives `cfg`
      or does not parse; and `cfg` is there already or on its way. */
  ghost predicate Settled(u: Setup, s: State, j: nat, cfg: Config) {
    && (forall id :: Owes(s, id, j) ==> Carries(u, s, id, cfg))
    && (Pending(u, s) ==> u.parse(s.file).None? || u.parse(s.file) == Some(cfg))
    && (|| Holds(s, j, cfg)
        || (exists id :: Owes(s, id, j))
        || (Pending(u, s) && u.parse(s.file) == Some(cfg)))
  }

  /** A state of a run in which `Stop` has not been called. */
  ghost predicate Going(u: Setup, start: seq<Server>, s: State) {
    RunInv(u, start, s) && s.stopper == Idle
  }

  lemma GoingStep(u: Setup, start: seq<Server>, s: State, a: Action)
    requires Going(u, start, s) && SettleStep(u, s, a).Some?
    ensures Going(u, start, SettleStep(u, s, a).value) && SettleStep(u, s, a).value.file == s.file
  {
    RunStep(u, start, s, a);
  }

  // ----- what is settled stays settled ------------------------------------------------------

  /** With the file left alone nothing new becomes pending, and what is pending ends in a read. */
  lemma PendingEndsInRead(u: Setup, start: seq<Server>, s: State, a: Action)
    requires Going(u, start, s) && SettleStep(u, s, a).Some?
    ensures Pending(u, SettleStep(u, s, a).value) ==> Pending(u, s)
    ensures Pending(u, s) && !a.Read? ==> Pending(u, SettleStep(u, s, a).value)
  {
    var next := Step(u, s, a).value;
    match a {
      case Receive =>
        assert forall i :: 0 < i < |s.queue| ==> next.queue[i - 1] == s.queue[i];
        assert forall i :: 0 <= i < |next.queue| ==> next.queue[i] == s.queue[i + 1];
      case Arm => assert s.timers.next in next.timers.armed;
      case Expire(id) => assert next.reloads[id] == Reading;
      case Deliver(id) =>
        assert SameReaders(s, next);
      case Read(id) => assert s.reloads[id] == Reading;
      case _ =>
    }
  }

  lemma SettledDeliver(u: Setup, start: seq<Server>, s: State, id: nat, j: nat, cfg: Config)
    requires Going(u, start, s) && j < |s.servers| && s.servers[j].Live? && Settled(u, s, j, cfg)
    requires SettleStep(u, s, Deliver(id)).Some?
    ensures var next := SettleStep(u, s, Deliver(id)).value;
            && (forall other :: Owes(next, other, j) ==> Carries(u, next, other, cfg))
            && (Holds(s, j, cfg) || (exists other :: Owes(s, other, j)) ==>
                  Holds(next, j, cfg) || exists other :: Owes(next, other, j))
  {
    var next := SettleStep(u, s, Deliver(id)).value;
    forall other | Owes(next, other, j) ensures Carries(u, next, other, cfg) {
      assert Owes(s, other, j);
    }
    if s.reloads[id].next <= j {
      assert Owes(s, id, j);
    }
    forall other | Owes(s, other, j) ensures Holds(next, j, cfg) || Owes(next, other, j) {
    }
  }

  lemma SettledRead(u: Setup, start: seq<Server>, s: State, id: nat, j: nat, cfg: Config)
    requires Going(u, start, s) && j < |s.servers| && Settled(u, s, j, cfg) && SettleStep(u, s, Read(id)).Some?
    ensures var next := SettleStep(u, s, Read(id)).value;
            && (forall other :: Owes(next, other, j) ==> Carries(u, next, other, cfg))
            && (Holds(next, j, cfg) || exists other :: Owes(next, other, j))
  {
    var next := SettleStep(u, s, Read(id)).value;
    assert Pending(u, s);
    forall other | Owes(next, other, j) ensures Carries(u, next, other, cfg) {
      if other != id { assert Owes(s, other, j); }
    }
    forall other | Owes(s, other, j) ensures Owes(next, other, j) {
    }
    if u.parse(s.file).Some? {
      assert Owes(next, id, j);
    }
  }

  lemma SettledFrame(u: Setup, s: State, next: State, j: nat, cfg: Config)
    requires Settled(u, s, j, cfg) && next.servers == s.servers && next.loads == s.loads && next.file == s.file
    requires forall id :: id in s.reloads ==> id in next.reloads && next.reloads[id] == s.reloads[id]
    requires forall id :: id in next.reloads && id !in s.reloads ==> next.reloads[id] == Reading
    requires Pending(u, next) <==> Pending(u, s)
    ensures Settled(u, next, j, cfg)
  {
    forall id | Owes(next, id, j) ensures Carries(u, next, id, cfg) {
      assert Owes(s, id, j);
    }
    if id :| Owes(s, id, j) {
      assert Owes(next, id, j);
    }
  }

  lemma SettledKeeps(u: Setup, start: seq<Server>, s: State, a: Action, j: nat, cfg: Config)
    requires Going(u, start, s) && j < |s.servers| && s.servers[j].Live? && Settled(u, s, j, cfg)
    requires SettleStep(u, s, a).Some?
    ensures var next := SettleStep(u, s, a).value;
            j < |next.servers| && next.servers[j].Live? && Settled(u, next, j, cfg)
  {
    var next := Step(u, s, a).value;
    PendingEndsInRead(u, start, s, a);
    match a {
      case Read(id) => SettledRead(u, start, s, id, j, cfg);
      case Deliver(id) => SettledDeliver(u, start, s, id, j, cfg);
      case Expire(id) =>
        assert id !in s.reloads;
        SettledFrame(u, s, next, j, cfg);
      case _ => SettledFrame(u, s, next, j, cfg);
    }
  }

  lemma SettledHolds(u: Setup, start: seq<Server>, s: State, j: nat, cfg: Config, more: seq<Action>, end: State)
    requires Going(u, start, s) && j < |s.servers| && s.servers[j].Live? && Settled(u, s, j, cfg)
    requires Runs.Run(Settler(u), s, more) == Some(end) && Quiet(end)
    ensures Holds(end, j, cfg)
  {
    var inv := (t: State) => Going(u, start, t) && j < |t.servers| && t.servers[j].Live? && Settled(u, t, j, cfg);
    forall t, a | inv(t) && Settler(u)(t, a).Some? ensures inv(Settler(u)(t, a).value) {
      GoingStep(u, start, t, a);
      SettledKeeps(u, start, t, a, j, cfg);
    }
    assert Runs.Inductive(Settler(u), inv);
    Runs.Keeps(Settler(u), inv, s, more);
  }

  // ----- every state can come to rest -------------------------------------------------------

  lemma Then(u: Setup, s: State, a: Action, mid: State, more: seq<Action>, end: State)
    requires SettleStep(u, s, a) == Some(mid) && Runs.Run(Settler(u), mid, more) == Some(end)
    ensures Runs.Run(Settler(u), s, [a] + more) == Some(end)
  {
    assert ([a] + more)[1..] == more;
  }

  function Rank(loop: Loop): nat { if loop == InHand then 2 else if loop == Holding then 1 else 0 }

  /** The loop empties its queue and arms the timer of the last accepted event. */
  lemma {:induction false} DrainLoop(u: Setup, start: seq<Server>, s: State) returns (more: seq<Action>, end: State)
    requires Going(u, start, s)
    ensures Runs.Run(Settler(u), s, more) == Some(end) && Going(u, start, end)
    ensures end.queue == [] && end.loop == Waiting && (Pending(u, s) ==> Pending(u, end))
    ensures end.servers == s.servers && end.reloads == s.reloads && end.loads == s.loads && end.file == s.file
    decreases |s.queue|, Rank(s.loop)
  {
    if s.queue == [] && s.loop == Waiting {
      more, end := [], s;
    } else {
      var a := if s.loop == InHand then LockLoop else if s.loop == Holding then Arm else Receive;
      var mid := Step(u, s, a).value;
      GoingStep(u, start, s, a);
      PendingEndsInRead(u, start, s, a);
      var rest;
      rest, end := DrainLoop(u, start, mid);
      Then(u, s, a, mid, rest, end);
      more := [a] + rest;
    }
  }

  lemma FireTimer(u: Setup, start: seq<Server>, s: State, id: nat) returns (mid: State, end: State)
    requires Going(u, start, s) && id in s.timers.armed
    ensures SettleStep(u, s, Advance(s.timers.armed[id])) == Some(mid) && SettleStep(u, mid, Expire(id)) == Some(end)
    ensures mid == s.(now := s.now + s.timers.armed[id]) && Going(u, start, mid)
    ensures end.timers.armed == map[] && Going(u, start, end)
    ensures end == mid.(timers := end.timers, reloads := s.reloads[id := Reading], expired := end.expired)
    ensures id !in s.reloads
  {
    mid := s.(now := s.now + s.timers.armed[id]);
    GoingStep(u, start, s, Advance(s.timers.armed[id]));
    end := Step(u, mid, Expire(id)).value;
    GoingStep(u, start, mid, Expire(id));
  }

  /** The armed timer, if there is one, expires. */
  lemma DrainTimer(u: Setup, start: seq<Server>, s: State) returns (more: seq<Action>, end: State)
    requires Going(u, start, s) && s.queue == [] && s.loop == Waiting
    ensures Runs.Run(Settler(u), s, more) == Some(end) && Going(u, start, end)
    ensures end.queue == [] && end.loop == Waiting && end.timers.armed == map[] && (Pending(u, s) ==> Pending(u, end))
    ensures end.servers == s.servers && end.loads == s.loads && end.file == s.file
    ensures forall id :: id in s.reloads ==> id in end.reloads && end.reloads[id] == s.reloads[id]
  {
    if id :| id in s.timers.armed {
      var mid;
      mid, end := FireTimer(u, start, s, id);
      more := [Advance(s.timers.armed[id]), Expire(id)];
      Runs.Path(Settler(u), [s, mid, end], more);
      assert end.reloads[id] == Reading;
    } else {
      more, end := [], s;
    }
  }

  predicate Resting(s: State) { s.queue == [] && s.loop == Waiting && s.timers.armed == map[] && s.stopper == Idle }

  predicate AllRead(s: State) { forall id :: id in s.reloads ==> s.reloads[id].Fanning? }

  function Readers(s: State): set<nat> { set id | id in s.reloads && s.reloads[id] == Reading }

  lemma ReadOne(u: Setup, start: seq<Server>, s: State, id: nat) returns (mid: State)
    requires Going(u, start, s) && Resting(s) && id in Readers(s)
    ensures SettleStep(u, s, Read(id)) == Some(mid) && Going(u, start, mid) && Resting(mid)
    ensures Readers(mid) == Readers(s) - {id}
    ensures mid.servers == s.servers && s.loads <= mid.loads && mid.file == s.file
    ensures KeepsFanning(s, mid)
    ensures u.parse(s.file).Some? ==> Owes(mid, id, 0) && Carries(u, mid, id, u.parse(s.file).value)
  {
    mid := Step(u, s, Read(id)).value;
    GoingStep(u, start, s, Read(id));
  }

  /** Reloads that have read keep what they carry. */
  predicate KeepsFanning(s: State, end: State) {
    forall id :: id in s.reloads && s.reloads[id].Fanning? ==> id in end.reloads && end.reloads[id] == s.reloads[id]
  }

  /** Every reload reads the file; those that had read it keep what they carry. */
  lemma {:induction false} ReadAll(u: Setup, start: seq<Server>, s: State) returns (more: seq<Action>, end: State)
    requires Going(u, start, s) && Resting(s)
    ensures Runs.Run(Settler(u), s, more) == Some(end) && Going(u, start, end) && Resting(end) && AllRead(end)
    ensures end.servers == s.servers && s.loads <= end.loads && KeepsFanning(s, end)
    ensures Readers(s) != {} && u.parse(s.file).Some? ==>
              exists id :: Owes(end, id, 0) && Carries(u, end, id, u.parse(s.file).value)
    decreases |Readers(s)|
  {
    if id :| id in Readers(s) {
      var mid := ReadOne(u, start, s, id);
      var rest;
      rest, end := ReadAll(u, start, mid);
      Then(u, s, Read(id), mid, rest, end);
      more := [Read(id)] + rest;
      if u.parse(s.file).Some? {
        assert Owes(end, id, 0) && Carries(u, end, id, u.parse(s.file).value);
      }
    } else {
      more, end := [], s;
      assert forall id :: id in s.reloads ==> id !in Readers(s);
    }
  }

  ghost predicate SameTexts(a: seq<Load>, b: seq<Load>) {
    |a| == |b| && forall i :: 0 <= i < |a| ==> a[i].text == b[i].text
  }

  /** One reload hands its configuration to the servers it still owes, and is gone. */
  lemma {:induction false} Finish(u: Setup, start: seq<Server>, s: State, id: nat)
    returns (more: seq<Action>, end: State)
    requires Going(u, start, s) && Resting(s) && id in s.reloads && s.reloads[id].Fanning?
    ensures Runs.Run(Settler(u), s, more) == Some(end) && Going(u, start, end) && Resting(end)
    ensures end.reloads == s.reloads - {id} && SameTexts(end.loads, s.loads)
    ensures forall j: nat :: Owes(s, id, j) && j < |s.servers| && s.servers[j].Live? ==>
              Carries(u, s, id, u.parse(s.loads[s.reloads[id].read].text).value)
              && Holds(end, j, u.parse(s.loads[s.reloads[id].read].text).value)
    ensures |end.servers| == |s.servers|
    ensures forall j: nat :: j < |s.servers| && !Owes(s, id, j) ==> end.servers[j] == s.servers[j]
    decreases |s.servers| - s.reloads[id].next
  {
    var mid := Step(u, s, Deliver(id)).value;
    GoingStep(u, start, s, Deliver(id));
    if s.reloads[id].next == |s.servers| {
      more, end := [Deliver(id)], mid;
      Runs.Path(Settler(u), [s, mid], more);
    } else {
      var rest;
      rest, end := Finish(u, start, mid, id);
      Then(u, s, Deliver(id), mid, rest, end);
      more := [Deliver(id)] + rest;
      assert mid.reloads - {id} == s.reloads - {id};
    }
  }

  lemma RemoveInTurn<V>(m: map<nat, V>, id: nat, ids: set<nat>)
    requires id in ids
    ensures m - {id} - (ids - {id}) == m - ids
  {
  }

  lemma {:induction false} FinishSet(u: Setup, start: seq<Server>, s: State, ids: set<nat>)
    returns (more: seq<Action>, end: State)
    requires Going(u, start, s) && Resting(s) && AllRead(s) && ids <= s.reloads.Keys
    ensures Runs.Run(Settler(u), s, more) == Some(end) && Going(u, start, end) && Resting(end)
    ensures end.reloads == s.reloads - ids && SameTexts(end.loads, s.loads)
    decreases |ids|
  {
    if id :| id in ids {
      var xs, mid := Finish(u, start, s, id);
      var ys;
      ys, end := FinishSet(u, start, mid, ids - {id});
      Runs.Compose(Settler(u), s, xs, ys);
      more := xs + ys;
      RemoveInTurn(s.reloads, id, ids);
    } else {
      more, end := [], s;
      assert s.reloads - ids == s.reloads;
    }
  }

  /** Everything pending is read; no reload has delivered meanwhile. */
  lemma Drain(u: Setup, start: seq<Server>, s: State) returns (more: seq<Action>, end: State)
    requires Going(u, start, s)
    ensures Runs.Run(Settler(u), s, more) == Some(end) && Going(u, start, end) && Resting(end) && AllRead(end)
    ensures end.servers == s.servers && s.loads <= end.loads && KeepsFanning(s, end)
    ensures Pending(u, s) && u.parse(s.file).Some? ==>
              exists id :: Owes(end, id, 0) && Carries(u, end, id, u.parse(s.file).value)
  {
    var xs, drained := DrainLoop(u, start, s);
    var ys, fired := DrainTimer(u, start, drained);
    var zs, last := ReadAll(u, start, fired);
    if Pending(u, s) {
      var id :| id in fired.reloads && fired.reloads[id] == Reading;
      assert id in Readers(fired);
    }
    Runs.Compose(Settler(u), drained, ys, zs);
    Runs.Compose(Settler(u), s, xs, ys + zs);
    more, end := xs + (ys + zs), last;
  }

  /** Any state comes to rest in some run. */
  lemma Rest(u: Setup, start: seq<Server>, s: State) returns (more: seq<Action>, end: State)
    requires Going(u, start, s)
    ensures Runs.Run(Settler(u), s, more) == Some(end) && Quiet(end)
  {
    var xs, mid := Drain(u, start, s);
    var ys, last := FinishSet(u, start, mid, mid.reloads.Keys);
    Runs.Compose(Settler(u), s, xs, ys);
    assert mid.reloads - mid.reloads.Keys == map[];
    more, end := xs + ys, last;
  }

  /** A reload that still owes server `j` can be the last to deliver, and then `j` holds what it carries. */
  lemma FinishLast(u: Setup, start: seq<Server>, s: State, id: nat, j: nat, cfg: Config)
    returns (more: seq<Action>, end: State)
    requires Going(u, start, s) && Resting(s) && AllRead(s)
    requires Owes(s, id, j) && Carries(u, s, id, cfg) && j < |s.servers| && s.servers[j].Live?
    ensures Runs.Run(Settler(u), s, more) == Some(end) && Quiet(end) && Holds(end, j, cfg)
  {
    var xs, mid := FinishSet(u, start, s, s.reloads.Keys - {id});
    assert mid.reloads.Keys == {id} && mid.reloads[id] == s.reloads[id];
    assert mid.servers[j].Live? by {
      assert ServerInv(u, start[j], s.loads, s.servers[j]) && ServerInv(u, start[j], mid.loads, mid.servers[j]);
    }
    assert Owes(mid, id, j) && Carries(u, mid, id, cfg);
    var ys, last := Finish(u, start, mid, id);
    assert last.reloads == map[];
    Runs.Compose(Settler(u), s, xs, ys);
    more, end := xs + ys, last;
  }

  /** The same from any state, for a reload that has read or a read that is still to come. */
  lemma DeliverLast(u: Setup, start: seq<Server>, s: State, j: nat, cfg: Config) returns (more: seq<Action>, end: State)
    requires Going(u, start, s) && j < |s.servers| && s.servers[j].Live?
    requires || (exists id :: Owes(s, id, j) && Carries(u, s, id, cfg))
             || (Pending(u, s) && u.parse(s.file) == Some(cfg))
    ensures Runs.Run(Settler(u), s, more) == Some(end) && Quiet(end) && Holds(end, j, cfg)
  {
    var xs, mid := Drain(u, start, s);
    var id: nat;
    if last: nat :| Owes(s, last, j) && Carries(u, s, last, cfg) {
      id := last;
    } else {
      id :| Owes(mid, id, 0) && Carries(u, mid, id, cfg);
    }
    var ys, last := FinishLast(u, start, mid, id, j, cfg);
    Runs.Compose(Settler(u), s, xs, ys);
    more, end := xs + ys, last;
  }

  // ----- theorem ----------------------------------------------------------------------------

  /** If the file is left alone, server `j` ends up with `cfg` however the goroutines are scheduled. */
  ghost predicate MustHold(u: Setup, s: State, j: nat, cfg: Config) {
    forall more, end :: Runs.Run(Settler(u), s, more) == Some(end) && Quiet(end) ==> Holds(end, j, cfg)
  }

  lemma UnsettledCanFail(u: Setup, start: seq<Server>, s: State, j: nat, cfg: Config)
    returns (more: seq<Action>, end: State)
    requires Going(u, start, s) && j < |s.servers| && s.servers[j].Live? && !Settled(u, s, j, cfg)
    ensures Runs.Run(Settler(u), s, more) == Some(end) && Quiet(end) && !Holds(end, j, cfg)
  {
    if id :| Owes(s, id, j) && !Carries(u, s, id, cfg) {
      var other := u.parse(s.loads[s.reloads[id].read].text).value;
      assert Carries(u, s, id, other);
      more, end := DeliverLast(u, start, s, j, other);
    } else if Pending(u, s) && u.parse(s.file).Some? && u.parse(s.file) != Some(cfg) {
      more, end := DeliverLast(u, start, s, j, u.parse(s.file).value);
    } else {
      // nothing is on its way to `j`, which holds something else and keeps it
      more, end := Rest(u, start, s);
      assert Settled(u, s, j, s.servers[j].held);
      SettledHolds(u, start, s, j, s.servers[j].held, more, end);
    }
  }

  /** Exactly when convergence holds, with no premise on overlap. In any state of any run in which `Stop`
      has not been called, every way of coming to rest leaves server `j` with `cfg` if and only if every
      reload that still owes `j` carries `cfg`, a read still to come can give nothing else, and `cfg` is
      in place or on its way. And there always is a way of coming to rest. */
  lemma ConvergesIff(u: Setup, file: string, start: seq<Server>, acts: seq<Action>, s: State, j: nat, cfg: Config)
    requires Untouched(start) && Runs.Run(Stepper(u), Init(file, start), acts) == Some(s)
    requires s.stopper == Idle && j < |s.servers| && s.servers[j].Live?
    ensures MustHold(u, s, j, cfg) <==> Settled(u, s, j, cfg)
    ensures exists more, end :: Runs.Run(Settler(u), s, more) == Some(end) && Quiet(end)
  {
    RunReachable(u, file, start, acts);
    var xs, rest := Rest(u, start, s);
    if Settled(u, s, j, cfg) {
      forall more, end | Runs.Run(Settler(u), s, more) == Some(end) && Quiet(end) ensures Holds(end, j, cfg) {
        SettledHolds(u, start, s, j, cfg, more, end);
      }
    } else {
      var more, end := UnsettledCanFail(u, start, s, j, cfg);
    }
  }
}
