/**
  * kafka/kafka.go `Publish` and metrics/metrics.go `RecordKafkaPublish`, with any number of calls in
  * flight: the broker's promise races the timeout through a one-slot channel, and each call then
  * updates the counter and the histogram in two separate steps.
  */
module Publish {
  import opened Prelude
  import opened Counting
  import T = Topics
  import Runs

  const TIMEOUT := 5000  // milliseconds

  datatype Status = Success | Failed | TimedOut

  /** Where a call is: marshalling failed; record handed to the client; waiting in the select until
      `deadline`; about to count `status`; counted, about to observe; returned. `ok` is a nil error. */
  datatype Stage =
    | Rejected
    | Producing
    | Selecting(deadline: nat)
    | Recording(status: Status, ok: bool, took: nat)
    | Observing(status: Status, ok: bool, took: nat)
    | Returned(status: Status, ok: bool, took: nat)

  /** The client runs the promise once per record: `acked` says whether without an error. */
  datatype Promise = NotProduced | Pending | Running(acked: bool) | Ran(acked: bool)

  /** One call of `Publish`, for the topic `given`. `topic` is the metric label it uses, `slot` its result
      channel, and `start` is when it began. */
  datatype Call = Call(given: string, topic: string, stage: Stage, slot: seq<bool>, promise: Promise, start: nat)

  datatype State = State(
    now: nat,
    calls: map<nat, Call>,
    total: map<(string, Status), nat>,     // servone KafkaPublishTotal
    durations: map<string, seq<nat>>)      // KafkaPublishDuration: the observed values per topic

  datatype Action =
    | Tick(dt: nat)
    | Begin(id: nat, topic: string, marshals: bool)
    | RunPromise(id: nat, acked: bool)
    | Send(id: nat)
    | Select(id: nat)
    | Receive(id: nat)
    | TimeUp(id: nat)
    | Inc(id: nat)
    | Observe(id: nat)

  function Init(): State { State(0, map[], map[], map[]) }

  function Total(s: State, topic: string, status: Status): nat {
    if (topic, status) in s.total then s.total[(topic, status)] else 0
  }

  function Observed(s: State, topic: string): seq<nat> {
    if topic in s.durations then s.durations[topic] else []
  }

  function With(s: State, id: nat, c: Call): State { s.(calls := s.calls[id := c]) }

  /** `time.Since(start)`, taken when the select is decided. */
  function Elapsed(s: State, c: Call): nat { if s.now < c.start then 0 else s.now - c.start }

  function CallStep(s: State, id: nat, c: Call, a: Action): Option<State> {
    match (a, c.stage)
    case (Select(_), Producing) => Some(With(s, id, c.(stage := Selecting(s.now + TIMEOUT))))
    case (Receive(_), Selecting(_)) =>
      if c.slot == [] then None
      else
        var acked := c.slot[0];
        var decided := Recording(if acked then Success else Failed, acked, Elapsed(s, c));
        Some(With(s, id, c.(slot := c.slot[1..], stage := decided)))
    case (TimeUp(_), Selecting(deadline)) =>
      if s.now < deadline then None else Some(With(s, id, c.(stage := Recording(TimedOut, false, Elapsed(s, c)))))
    case (Inc(_), Recording(status, ok, took)) =>
      Some(With(s, id, c.(stage := Observing(status, ok, took)))
           .(total := s.total[(c.topic, status) := Total(s, c.topic, status) + 1]))
    case (Observe(_), Observing(status, ok, took)) =>
      Some(With(s, id, c.(stage := Returned(status, ok, took)))
           .(durations := s.durations[c.topic := Observed(s, c.topic) + [took]]))
    case (RunPromise(_, acked), _) =>
      if c.promise != Pending then None else Some(With(s, id, c.(promise := Running(acked))))
    case (Send(_), _) =>
      // a send on the channel blocks while its one slot is taken
      if !c.promise.Running? || |c.slot| >= 1 then None
      else Some(With(s, id, c.(promise := Ran(c.promise.acked), slot := c.slot + [c.promise.acked])))
    case _ => None
  }

  function Step(s: State, a: Action): Option<State> {
    match a
    case Tick(dt) => Some(s.(now := s.now + dt))
    case Begin(id, topic, marshals) =>
      if id in s.calls then None
      else
        var call := Call(topic, T.SanitizeTopic(topic), Producing, [], Pending, s.now);
        Some(With(s, id, if marshals then call else call.(stage := Rejected, promise := NotProduced)))
    case _ =>
      if a.id in s.calls then CallStep(s, a.id, s.calls[a.id], a) else None
  }

  function Stepper(): (State, Action) -> Option<State> { (s, a) => Step(s, a) }

  // ----- what calls count towards -----------------------------------------------------------

  predicate Counted(c: Call) { c.stage.Observing? || c.stage.Returned? }

  function CountedAs(topic: string, status: Status): Call -> bool {
    (c: Call) => c.topic == topic && Counted(c) && c.stage.status == status
  }

  function InBetween(topic: string): Call -> bool { (c: Call) => c.topic == topic && c.stage.Observing? }

  function Completed(topic: string): Call -> bool { (c: Call) => c.topic == topic && c.stage.Returned? }

  /** The broker acknowledged the record. */
  function Acked(topic: string): Call -> bool { (c: Call) => c.topic == topic && c.promise == Ran(true) }

  /** The acknowledgement is still in the call's channel, perhaps for good. */
  function AckInSlot(topic: string): Call -> bool { (c: Call) => c.topic == topic && c.slot == [true] }

  /** The acknowledgement was received and is about to be counted. */
  function AckReceived(topic: string): Call -> bool {
    (c: Call) => c.topic == topic && c.stage.Recording? && c.stage.status == Success
  }

  // ----- invariant --------------------------------------------------------------------------

  /** The channel holds the promise's one result until it is received; the status says what became of
      the select; only an acknowledgement returns nil. */
  predicate CallInv(now: nat, c: Call) {
    && T.Normal(c.topic) && c.start <= now
    && var verdict := c.stage.Recording? || c.stage.Observing? || c.stage.Returned?;
    && (verdict ==> (c.stage.ok <==> c.stage.status == Success))
    && (c.stage == Rejected <==> c.promise == NotProduced)
    && (c.stage.Selecting? ==> c.start + TIMEOUT <= c.stage.deadline)
    && (verdict && c.stage.status == TimedOut ==> c.start + TIMEOUT <= now)
    && ((c.stage.Recording? || c.stage.Observing?) && c.stage.status == TimedOut ==> TIMEOUT <= c.stage.took)
    && (if verdict && c.stage.status != TimedOut
        then c.slot == [] && c.promise == Ran(c.stage.status == Success)
        else c.slot == (if c.promise.Ran? then [c.promise.acked] else []))
  }

  ghost predicate Inv(s: State) {
    && (forall id :: id in s.calls ==> CallInv(s.now, s.calls[id]))
    && (forall topic, status :: Total(s, topic, status) == Count(s.calls, CountedAs(topic, status)))
    && (forall topic :: |Observed(s, topic)| == Count(s.calls, Completed(topic)))
    && (forall key :: key in s.total ==> T.Normal(key.0))
  }

  /** One call moves: the counts move with it. */
  lemma MoveCall(s: State, id: nat, c: Call, next: State)
    requires Inv(s) && next.calls == s.calls[id := c] && next.now == s.now && CallInv(s.now, c)
    requires forall topic, status ::
               Total(next, topic, status) == Total(s, topic, status)
                 - One(id in s.calls && CountedAs(topic, status)(s.calls[id])) + One(CountedAs(topic, status)(c))
    requires forall topic ::
               |Observed(next, topic)| == |Observed(s, topic)|
                 - One(id in s.calls && Completed(topic)(s.calls[id])) + One(Completed(topic)(c))
    requires forall key :: key in next.total ==> T.Normal(key.0)
    ensures Inv(next)
  {
    forall topic, status ensures Total(next, topic, status) == Count(next.calls, CountedAs(topic, status)) {
      Update(s.calls, id, c, CountedAs(topic, status));
    }
    forall topic ensures |Observed(next, topic)| == Count(next.calls, Completed(topic)) {
      Update(s.calls, id, c, Completed(topic));
    }
  }

  /** Steps that touch no metric and do not take a call past one. */
  lemma Unmetered(s: State, id: nat, c: Call, next: State)
    requires Inv(s) && CallInv(s.now, c) && next == With(s, id, c)
    requires !Counted(c) && (id in s.calls ==> !Counted(s.calls[id]))
    ensures Inv(next)
  {
    MoveCall(s, id, c, next);
  }

  lemma IncKeeps(s: State, id: nat, c: Call, next: State)
    requires Inv(s) && id in s.calls && s.calls[id].stage.Recording?
    requires CallStep(s, id, s.calls[id], Inc(id)) == Some(next) && c == next.calls[id]
    ensures Inv(next)
  {
    var was := s.calls[id];
    assert CallInv(s.now, was);
    forall topic, status
      ensures Total(next, topic, status) == Total(s, topic, status)
                - One(id in s.calls && CountedAs(topic, status)(s.calls[id])) + One(CountedAs(topic, status)(c))
    {
      assert Total(next, topic, status) ==
             Total(s, topic, status) + if (topic, status) == (was.topic, was.stage.status) then 1 else 0;
    }
    MoveCall(s, id, c, next);
  }

  lemma ObserveKeeps(s: State, id: nat, c: Call, next: State)
    requires Inv(s) && id in s.calls && s.calls[id].stage.Observing?
    requires CallStep(s, id, s.calls[id], Observe(id)) == Some(next) && c == next.calls[id]
    ensures Inv(next)
  {
    assert CallInv(s.now, s.calls[id]);
    MoveCall(s, id, c, next);
  }

  /** The promise may run and send after its call has been counted or has returned. */
  lemma PromiseKeeps(s: State, id: nat, c: Call, next: State)
    requires Inv(s) && id in s.calls && CallInv(s.now, c) && next == With(s, id, c)
    requires c.stage == s.calls[id].stage && c.topic == s.calls[id].topic
    ensures Inv(next)
  {
    MoveCall(s, id, c, next);
  }

  lemma PromiseStep(s: State, a: Action)
    requires Inv(s) && (a.RunPromise? || a.Send?) && Step(s, a).Some?
    ensures Inv(Step(s, a).value)
  {
    var next := Step(s, a).value;
    assert CallInv(s.now, s.calls[a.id]);
    PromiseKeeps(s, a.id, next.calls[a.id], next);
  }

  lemma SelectStep(s: State, a: Action)
    requires Inv(s) && (a.Select? || a.Receive? || a.TimeUp?) && Step(s, a).Some?
    ensures Inv(Step(s, a).value)
  {
    var next := Step(s, a).value;
    assert CallInv(s.now, s.calls[a.id]);
    Unmetered(s, a.id, next.calls[a.id], next);
  }

  lemma StepKeeps(s: State, a: Action)
    requires Inv(s) && Step(s, a).Some?
    ensures Inv(Step(s, a).value)
  {
    var next := Step(s, a).value;
    match a {
      case Tick(dt) =>
      case Begin(id, topic, marshals) =>
        T.SanitizeIsNormal(topic);
        Unmetered(s, id, next.calls[id], next);
      case Inc(id) => IncKeeps(s, id, next.calls[id], next);
      case Observe(id) => ObserveKeeps(s, id, next.calls[id], next);
      case RunPromise(_, _) => PromiseStep(s, a);
      case Send(_) => PromiseStep(s, a);
      case _ => SelectStep(s, a);
    }
  }

  lemma Reachable(acts: seq<Action>)
    requires Runs.Run(Stepper(), Init(), acts).Some?
    ensures Inv(Runs.Run(Stepper(), Init(), acts).value)
  {
    forall s, a | Inv(s) && Stepper()(s, a).Some? ensures Inv(Stepper()(s, a).value) {
      StepKeeps(s, a);
    }
    var inv := (s: State) => Inv(s);
    assert Runs.Inductive(Stepper(), inv);
    assert Inv(Init());
    Runs.Keeps(Stepper(), inv, Init(), acts);
  }

  // ----- theorems ---------------------------------------------------------------------------

  /** Conservation: in every reachable state a topic's counters add up to its histogram observations
      plus the calls between the two updates, and the observations are the calls that completed. */
  lemma Conservation(acts: seq<Action>, s: State, topic: string)
    requires Runs.Run(Stepper(), Init(), acts) == Some(s)
    ensures Total(s, topic, Success) + Total(s, topic, Failed) + Total(s, topic, TimedOut)
            == |Observed(s, topic)| + Count(s.calls, InBetween(topic))
    ensures |Observed(s, topic)| == Count(s.calls, Completed(topic))
  {
    Reachable(acts);
    var two := (c: Call) => CountedAs(topic, Success)(c) || CountedAs(topic, Failed)(c);
    var all := (c: Call) => c.topic == topic && Counted(c);
    Split(s.calls, two, CountedAs(topic, Success), CountedAs(topic, Failed));
    Split(s.calls, all, two, CountedAs(topic, TimedOut));
    Split(s.calls, all, Completed(topic), InBetween(topic));
  }

  /** Acknowledged records are the counted successes, plus acknowledgements still in a channel, which
      includes those a timed-out call left behind, plus those received and not yet counted. */
  lemma AcknowledgementsAccounted(acts: seq<Action>, s: State, topic: string)
    requires Runs.Run(Stepper(), Init(), acts) == Some(s)
    ensures Count(s.calls, Acked(topic))
            == Total(s, topic, Success) + Count(s.calls, AckInSlot(topic)) + Count(s.calls, AckReceived(topic))
  {
    Reachable(acts);
    var taken := (c: Call) => CountedAs(topic, Success)(c) || AckReceived(topic)(c);
    forall id | id in s.calls
      ensures var c := s.calls[id];
              && (Acked(topic)(c) <==> taken(c) || AckInSlot(topic)(c))
              && !(taken(c) && AckInSlot(topic)(c))
    {
      assert CallInv(s.now, s.calls[id]);
    }
    Split(s.calls, Acked(topic), taken, AckInSlot(topic));
    Split(s.calls, taken, CountedAs(topic, Success), AckReceived(topic));
  }

  /** The race is safe: the slot never overflows, a running promise can always send, even after its
      call timed out, and a call returns nil exactly when it recorded success, which means the broker
      acknowledged. A call that recorded a timeout waited at least five seconds. */
  lemma RaceSafety(acts: seq<Action>, s: State, id: nat)
    requires Runs.Run(Stepper(), Init(), acts) == Some(s) && id in s.calls
    ensures var c := s.calls[id];
            && |c.slot| <= 1
            && (c.promise.Running? ==> Step(s, Send(id)).Some?)
            && (c.stage.Returned? ==>
                && (c.stage.ok <==> c.stage.status == Success)
                && (c.stage.status == Success ==> c.promise == Ran(true))
                && (c.stage.status == Failed ==> c.promise == Ran(false))
                && (c.stage.status == TimedOut ==> c.start + TIMEOUT <= s.now))
  {
    Reachable(acts);
    assert CallInv(s.now, s.calls[id]);
  }

  // ----- what a call counts for -------------------------------------------------------------

  predicate Decided(c: Call) { c.stage.Recording? || c.stage.Observing? || c.stage.Returned? }

  /** A call keeps its topic and its start, the deadline of its select while it lasts, and once the select
      is decided, its verdict. */
  ghost predicate Kept(was: Call, now: Call) {
    && now.given == was.given && now.topic == was.topic && now.start == was.start
    && (was.stage.Selecting? ==> if now.stage.Selecting? then now.stage == was.stage else Decided(now))
    && (Decided(was) ==> && Decided(now) && now.stage.status == was.stage.status
                         && now.stage.ok == was.stage.ok && now.stage.took == was.stage.took)
  }

  lemma CallKept(s: State, a: Action, id: nat)
    requires Step(s, a).Some? && id in s.calls
    ensures id in Step(s, a).value.calls && Kept(s.calls[id], Step(s, a).value.calls[id])
  {
  }

  lemma CallKeptOverRun(s: State, acts: seq<Action>, end: State, id: nat)
    requires Runs.Run(Stepper(), s, acts) == Some(end) && id in s.calls
    ensures id in end.calls && Kept(s.calls[id], end.calls[id])
  {
    var inv := (t: State) => id in t.calls && Kept(s.calls[id], t.calls[id]);
    forall t, a | inv(t) && Stepper()(t, a).Some? ensures inv(Stepper()(t, a).value) {
      CallKept(t, a, id);
    }
    assert Runs.Inductive(Stepper(), inv);
    Runs.Keeps(Stepper(), inv, s, acts);
  }

  /** One action in the middle of a run. */
  lemma Middle(before: seq<Action>, a: Action, after: seq<Action>, s: State) returns (mid: State, next: State)
    requires Runs.Run(Stepper(), Init(), before + [a] + after) == Some(s)
    ensures Runs.Run(Stepper(), Init(), before) == Some(mid) && Step(mid, a) == Some(next)
    ensures Runs.Run(Stepper(), next, after) == Some(s)
  {
    Runs.Compose(Stepper(), Init(), before + [a], after);
    Runs.Compose(Stepper(), Init(), before, [a]);
    mid := Runs.Run(Stepper(), Init(), before).value;
    next := Step(mid, a).value;
    assert Runs.Run(Stepper(), next, []) == Some(next);
  }

  /** A call is labelled with the sanitised topic it was made with, and timed from when it was made,
      whatever happens afterwards. */
  lemma LabelledByTopic(before: seq<Action>, id: nat, topic: string, marshals: bool, after: seq<Action>, s: State)
    requires Runs.Run(Stepper(), Init(), before + [Begin(id, topic, marshals)] + after) == Some(s)
    ensures Runs.Run(Stepper(), Init(), before).Some? && id in s.calls
    ensures s.calls[id].given == topic && s.calls[id].topic == T.SanitizeTopic(topic)
    ensures s.calls[id].start == Runs.Run(Stepper(), Init(), before).value.now
  {
    var mid, begun := Middle(before, Begin(id, topic, marshals), after, s);
    CallKeptOverRun(begun, after, s, id);
  }

  /** The verdict of a call and the time it reports are those of the moment its select was decided: the
      result in its channel, or a timeout. */
  lemma VerdictAtSelect(before: seq<Action>, a: Action, after: seq<Action>, s: State)
    requires (a.Receive? || a.TimeUp?) && Runs.Run(Stepper(), Init(), before + [a] + after) == Some(s)
    ensures Runs.Run(Stepper(), Init(), before).Some?
    ensures var mid := Runs.Run(Stepper(), Init(), before).value;
            && a.id in mid.calls && a.id in s.calls && Decided(s.calls[a.id])
            && s.calls[a.id].stage.took == mid.now - mid.calls[a.id].start
            && (s.calls[a.id].stage.status == Success <==> a.Receive? && mid.calls[a.id].slot == [true])
            && (s.calls[a.id].stage.status == Failed <==> a.Receive? && mid.calls[a.id].slot == [false])
            && (s.calls[a.id].stage.status == TimedOut <==> a.TimeUp?)
  {
    var mid, next := Middle(before, a, after, s);
    Reachable(before);
    assert CallInv(mid.now, mid.calls[a.id]);
    CallKeptOverRun(next, after, s, a.id);
  }

  /** A call that has waited in its select for the five seconds of the timer can time out, and not sooner. */
  lemma TimesOutIff(before: seq<Action>, id: nat, after: seq<Action>, s: State)
    requires Runs.Run(Stepper(), Init(), before + [Select(id)] + after) == Some(s)
    ensures id in s.calls && Runs.Run(Stepper(), Init(), before).Some?
    ensures s.calls[id].stage.Selecting? ==>
              (Step(s, TimeUp(id)).Some? <==> s.now >= Runs.Run(Stepper(), Init(), before).value.now + 5000)
  {
    var mid, next := Middle(before, Select(id), after, s);
    CallKeptOverRun(next, after, s, id);
  }

  function CountedFor(name: string, status: Status): Call -> bool {
    (c: Call) => T.SanitizeTopic(c.given) == name && Counted(c) && c.stage.status == status
  }

  function ReturnedFor(name: string, took: nat): Call -> bool {
    (c: Call) => T.SanitizeTopic(c.given) == name && c.stage.Returned? && c.stage.took == took
  }

  function ReturnedAs(name: string, took: nat): Call -> bool {
    (c: Call) => c.topic == name && c.stage.Returned? && c.stage.took == took
  }

  /** The histogram of a label holds, for every value, one entry for each call that returned with it. */
  ghost predicate Values(s: State) {
    forall name, took :: multiset(Observed(s, name))[took] == Count(s.calls, ReturnedAs(name, took))
  }

  lemma ValuesStep(s: State, a: Action)
    requires Values(s) && Step(s, a).Some?
    ensures Values(Step(s, a).value)
  {
    var next := Step(s, a).value;
    if !a.Tick? {
      forall name, took
        ensures multiset(Observed(next, name))[took] == Count(next.calls, ReturnedAs(name, took))
      {
        Update(s.calls, a.id, next.calls[a.id], ReturnedAs(name, took));
        if a.Observe? {
          ObserveGrows(s, a.id, name, took);
        } else {
          OthersObserveNothing(s, a);
        }
      }
    }
  }

  lemma OthersObserveNothing(s: State, a: Action)
    requires Step(s, a).Some? && !a.Tick? && !a.Observe?
    ensures var next := Step(s, a).value;
            && next.durations == s.durations && next.calls == s.calls[a.id := next.calls[a.id]]
            && (next.calls[a.id].stage.Returned? <==> a.id in s.calls && s.calls[a.id].stage.Returned?)
            && (a.id in s.calls && s.calls[a.id].stage.Returned? ==> next.calls[a.id].stage == s.calls[a.id].stage)
            && (a.id in s.calls ==> next.calls[a.id].topic == s.calls[a.id].topic)
  {
  }

  lemma ObserveGrows(s: State, id: nat, name: string, took: nat)
    requires Step(s, Observe(id)).Some?
    ensures var c, next := s.calls[id], Step(s, Observe(id)).value;
            && next.calls == s.calls[id := next.calls[id]]
            && !c.stage.Returned? && next.calls[id] == c.(stage := next.calls[id].stage)
            && next.calls[id].stage.Returned?
            && multiset(Observed(next, name))[took] ==
               multiset(Observed(s, name))[took] + One(c.topic == name && next.calls[id].stage.took == took)
  {
    var c := s.calls[id];
    assert multiset(Observed(s, c.topic) + [c.stage.took]) == multiset(Observed(s, c.topic)) + multiset{c.stage.took};
  }

  ghost predicate Labelled(s: State) {
    forall id :: id in s.calls ==> s.calls[id].topic == T.SanitizeTopic(s.calls[id].given)
  }

  lemma LabelledReachable(acts: seq<Action>)
    requires Runs.Run(Stepper(), Init(), acts).Some?
    ensures Labelled(Runs.Run(Stepper(), Init(), acts).value) && Values(Runs.Run(Stepper(), Init(), acts).value)
  {
    var inv := (t: State) => Labelled(t) && Values(t);
    forall t, a | inv(t) && Stepper()(t, a).Some? ensures inv(Stepper()(t, a).value) {
      LabelledStep(t, a);
      ValuesStep(t, a);
    }
    assert Runs.Inductive(Stepper(), inv);
    Runs.Keeps(Stepper(), inv, Init(), acts);
  }

  lemma LabelledStep(s: State, a: Action)
    requires Labelled(s) && Step(s, a).Some?
    ensures Labelled(Step(s, a).value)
  {
    forall id | id in s.calls ensures Kept(s.calls[id], Step(s, a).value.calls[id]) {
      CallKept(s, a, id);
    }
  }

  /** A label counts and observes exactly the calls whose given topic sanitises to it: its counters those
      that came to the status, its histogram, value by value, those that returned after that time. */
  lemma LabelsCountTheirCalls(acts: seq<Action>, s: State, name: string, status: Status, took: nat)
    requires Runs.Run(Stepper(), Init(), acts) == Some(s)
    ensures Total(s, name, status) == Count(s.calls, CountedFor(name, status))
    ensures multiset(Observed(s, name))[took] == Count(s.calls, ReturnedFor(name, took))
  {
    Reachable(acts);
    LabelledReachable(acts);
    assert Where(s.calls, CountedFor(name, status)) == Where(s.calls, CountedAs(name, status));
    assert Where(s.calls, ReturnedFor(name, took)) == Where(s.calls, ReturnedAs(name, took));
  }

  // ----- calls come to an end ---------------------------------------------------------------

  function StagesLeft(stage: Stage): nat {
    match stage
    case Producing => 4
    case Selecting(_) => 3
    case Recording(_, _, _) => 2
    case Observing(_, _, _) => 1
    case _ => 0
  }

  /** Whatever the broker does, a call can go on to return: with what it has been decided, or else with a
      timeout. */
  lemma {:induction false} CallCanReturn(s: State, id: nat) returns (acts: seq<Action>, end: State)
    requires id in s.calls && !s.calls[id].stage.Rejected?
    ensures Runs.Run(Stepper(), s, acts) == Some(end) && id in end.calls && end.calls[id].stage.Returned?
    ensures end.calls[id].stage.status == if Decided(s.calls[id]) then s.calls[id].stage.status else TimedOut
    decreases StagesLeft(s.calls[id].stage)
  {
    var c := s.calls[id];
    if c.stage.Returned? {
      acts, end := [], s;
    } else {
      var now := match c.stage {
        case Producing => [Select(id)]
        case Selecting(deadline) => [Tick(deadline), TimeUp(id)]
        case Recording(_, _, _) => [Inc(id)]
        case _ => [Observe(id)]
      };
      var mid := Step(if c.stage.Selecting? then Step(s, now[0]).value else s, now[|now| - 1]).value;
      if c.stage.Selecting? {
        Runs.Path(Stepper(), [s, Step(s, now[0]).value, mid], now);
      } else {
        Runs.Path(Stepper(), [s, mid], now);
      }
      var rest;
      rest, end := CallCanReturn(mid, id);
      Runs.Compose(Stepper(), s, now, rest);
      acts := now + rest;
    }
  }

  lemma PromiseSends(s: State, id: nat, acked: bool) returns (end: State)
    requires id in s.calls && s.calls[id].promise == Pending && s.calls[id].slot == []
    ensures Runs.Run(Stepper(), s, [RunPromise(id, acked), Send(id)]) == Some(end)
    ensures id in end.calls && end.calls[id] == s.calls[id].(promise := Ran(acked), slot := [acked])
  {
    var mid := Step(s, RunPromise(id, acked)).value;
    end := Step(mid, Send(id)).value;
    Runs.Path(Stepper(), [s, mid, end], [RunPromise(id, acked), Send(id)]);
  }

  lemma SelectReceives(s: State, id: nat, acked: bool) returns (end: State)
    requires id in s.calls && s.calls[id].stage == Producing && s.calls[id].slot == [acked]
    ensures Runs.Run(Stepper(), s, [Select(id), Receive(id)]) == Some(end)
    ensures id in end.calls && end.calls[id].stage.Recording?
    ensures end.calls[id].stage.ok == acked && end.calls[id].stage.status == if acked then Success else Failed
  {
    var mid := Step(s, Select(id)).value;
    end := Step(mid, Receive(id)).value;
    Runs.Path(Stepper(), [s, mid, end], [Select(id), Receive(id)]);
  }

  /** A record the broker still has in hand can come back either way in time. */
  lemma CallCanBeAnswered(s: State, id: nat, acked: bool) returns (acts: seq<Action>, end: State)
    requires id in s.calls && s.calls[id].stage == Producing && s.calls[id].promise == Pending && s.calls[id].slot == []
    ensures Runs.Run(Stepper(), s, acts) == Some(end) && id in end.calls && end.calls[id].stage.Returned?
    ensures end.calls[id].stage.ok == acked && end.calls[id].stage.status == if acked then Success else Failed
  {
    var xs, ys := [RunPromise(id, acked), Send(id)], [Select(id), Receive(id)];
    var sent := PromiseSends(s, id, acked);
    var decided := SelectReceives(sent, id, acked);
    var zs, last := CallCanReturn(decided, id);
    CallKeptOverRun(decided, zs, last, id);
    Runs.Compose(Stepper(), sent, ys, zs);
    Runs.Compose(Stepper(), s, xs, ys + zs);
    acts, end := xs + (ys + zs), last;
  }

  /** Every metric label ever used is a Kafka-safe topic. */
  lemma LabelsAreNormal(acts: seq<Action>, s: State, topic: string, status: Status)
    requires Runs.Run(Stepper(), Init(), acts) == Some(s) && Total(s, topic, status) > 0
    ensures T.Normal(topic)
  {
    Reachable(acts);
  }

  /** `full` is `bare` with one rejected call more. */
  ghost predicate WithRejected(full: State, bare: State, id: nat) {
    && id in full.calls && full.calls[id].stage == Rejected && full.calls[id].promise == NotProduced
    && bare == full.(calls := full.calls - {id})
  }

  lemma RejectedAside(full: State, bare: State, id: nat, a: Action)
    requires WithRejected(full, bare, id) && Step(full, a).Some?
    ensures Step(bare, a).Some? && WithRejected(Step(full, a).value, Step(bare, a).value, id)
  {
    if !a.Tick? {
      assert a.id != id;
      var next := Step(full, a).value;
      assert next.calls - {id} == bare.calls[a.id := next.calls[a.id]];
    }
  }

  lemma {:induction false} RejectedRun(full: State, bare: State, id: nat, acts: seq<Action>)
    requires WithRejected(full, bare, id) && Runs.Run(Stepper(), full, acts).Some?
    ensures Runs.Run(Stepper(), bare, acts).Some?
    ensures WithRejected(Runs.Run(Stepper(), full, acts).value, Runs.Run(Stepper(), bare, acts).value, id)
    decreases |acts|
  {
    if acts == [] {
    } else {
      RejectedAside(full, bare, id, acts[0]);
      RejectedRun(Step(full, acts[0]).value, Step(bare, acts[0]).value, id, acts[1..]);
    }
  }

  /** A call whose data does not marshal leaves no trace: wherever it happens in a run, the same run
      without it ends with the same counters, histograms and other calls. */
  lemma RejectedRecordsNothing(before: seq<Action>, id: nat, topic: string, after: seq<Action>, s: State)
    requires Runs.Run(Stepper(), Init(), before + [Begin(id, topic, false)] + after) == Some(s)
    ensures Runs.Run(Stepper(), Init(), before + after) == Some(s.(calls := s.calls - {id}))
  {
    Runs.Compose(Stepper(), Init(), before + [Begin(id, topic, false)], after);
    Runs.Compose(Stepper(), Init(), before, [Begin(id, topic, false)]);
    Runs.Compose(Stepper(), Init(), before, after);
    var mid := Runs.Run(Stepper(), Init(), before).value;
    var full := Step(mid, Begin(id, topic, false)).value;
    assert Runs.Run(Stepper(), full, []) == Some(full);
    assert full.calls - {id} == mid.calls;
    RejectedRun(full, mid, id, after);
  }
}
