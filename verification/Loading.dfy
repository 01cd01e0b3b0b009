/**
  * Which written texts are ever loaded: when handling takes no time, exactly those of the writes that no
  * other write follows within the debounce window.
  */
module Loading {
  import opened Prelude
  import opened HttpSpec
  import opened Watcher
  import Runs

  /** Something is to be done that takes no time: an event is queued or in hand, or a reload is about to
      read the file. */
  predicate Busy(s: State) {
    s.queue != [] || s.loop != Waiting || exists id :: id in s.reloads && s.reloads[id] == Reading
  }

  /** A prompt machine: on top of the ideal clock, time does not pass while something is to be done at
      once. Accepted events come from writes only, and `Stop` is not called. */
  function PromptStep(u: Setup, s: State, a: Action): Option<State> {
    if (a.Advance? && Busy(s)) || (a.Notice? && Accepts(u.path, a.e)) || a.BeginStop? then None
    else IdealStep(u, s, a)
  }

  function Prompter(u: Setup): (State, Action) -> Option<State> {
    (s, a) => PromptStep(u, s, a)
  }

  /** A text, when it was written, and how: in place, or by creating the file anew. */
  datatype Edit = Edit(at: nat, text: string, ops: set<FsOp>)

  function Texts(loads: seq<Load>): seq<string> {
    seq(|loads|, i requires 0 <= i < |loads| => loads[i].text)
  }

  // ----- what becomes of one write ----------------------------------------------------------

  predicate NoReader(s: State) {
    forall id :: id in s.reloads ==> s.reloads[id] != Reading
  }

  /** An accepted event has yet to arm its timer. */
  predicate Ahead(u: Setup, s: State) {
    s.loop == InHand || s.loop == Holding || exists i :: 0 <= i < |s.queue| && Accepts(u.path, s.queue[i])
  }

  /** The write waits: its event is still on its way to the timer, or its timer is the armed one. */
  ghost predicate Awaiting(u: Setup, s: State, w: Edit) {
    && NoReader(s)
    && if Ahead(u, s) then s.now == w.at && forall id :: id in s.timers.armed ==> s.now < s.timers.armed[id]
       else && s.now <= w.at + DEBOUNCE && s.timers.armed != map[]
            && forall id :: id in s.timers.armed ==> s.timers.armed[id] == w.at + DEBOUNCE
  }

  /** Its timer has fired and the one reload at work is about to read. */
  ghost predicate AtRead(u: Setup, s: State, w: Edit) {
    && s.now == w.at + DEBOUNCE && !Ahead(u, s) && s.timers.armed == map[]
    && exists id :: OnlyReader(s, id)
  }

  predicate OnlyReader(s: State, id: nat) {
    && id in s.reloads && s.reloads[id] == Reading
    && forall other :: other in s.reloads && s.reloads[other] == Reading ==> other == id
  }

  ghost predicate AfterRead(u: Setup, s: State, w: Edit) {
    w.at + DEBOUNCE <= s.now && !Ahead(u, s) && s.timers.armed == map[] && NoReader(s)
  }

  /** The latest write is `w`; `before` had been loaded when it was made, and nothing since but `w`. */
  ghost predicate Phase(u: Setup, s: State, w: Edit, before: seq<string>) {
    && TimerInv(s) && s.stopper == Idle && s.file == w.text
    && (|| (Texts(s.loads) == before && (Awaiting(u, s, w) || AtRead(u, s, w)))
        || (Texts(s.loads) == before + [w.text] && AfterRead(u, s, w)))
  }

  /** A write may come: no reload is about to read and no timer is due. */
  predicate Ready(s: State) {
    s.stopper == Idle && NoReader(s) && forall id :: id in s.timers.armed ==> s.now < s.timers.armed[id]
  }

  lemma PhaseBegins(u: Setup, s: State, text: string, ops: set<FsOp>)
    requires TimerInv(s) && Ready(s) && PromptStep(u, s, WriteFile(text, ops)).Some?
    ensures Phase(u, PromptStep(u, s, WriteFile(text, ops)).value, Edit(s.now, text, ops), Texts(s.loads))
  {
    var next := Step(u, s, WriteFile(text, ops)).value;
    TimerStep(u, s, WriteFile(text, ops));
    assert Accepts(u.path, next.queue[|s.queue|]);
  }

  lemma SameTexts(a: seq<Load>, b: seq<Load>)
    requires |a| == |b| && forall i :: 0 <= i < |a| ==> a[i].text == b[i].text
    ensures Texts(a) == Texts(b)
  {
  }

  /** Whether an accepted event is ahead changes only when one arms its timer. */
  lemma AheadStays(u: Setup, s: State, a: Action)
    requires TimerInv(s) && s.stopper == Idle && PromptStep(u, s, a).Some? && !a.WriteFile? && !a.Arm?
    ensures Ahead(u, PromptStep(u, s, a).value) == Ahead(u, s)
  {
    var next := Step(u, s, a).value;
    match a {
      case Notice(_) => assert forall i :: 0 <= i < |s.queue| ==> next.queue[i] == s.queue[i];
      case Receive =>
        assert forall i :: 0 < i < |s.queue| ==> next.queue[i - 1] == s.queue[i];
        assert forall i :: 0 <= i < |next.queue| ==> next.queue[i] == s.queue[i + 1];
      case _ =>
    }
  }

  lemma PhaseArm(u: Setup, s: State, w: Edit, before: seq<string>)
    requires Phase(u, s, w, before) && PromptStep(u, s, Arm).Some?
    ensures Phase(u, PromptStep(u, s, Arm).value, w, before)
  {
    var next := Step(u, s, Arm).value;
    TimerStep(u, s, Arm);
    assert s.timers.next in next.timers.armed;
    assert Awaiting(u, next, w);
  }

  lemma ReadBegins(u: Setup, s: State, id: nat, next: State, w: Edit)
    requires OneTimer(s.timers, s.accepted) && Awaiting(u, s, w) && Effect(s, Expire(id), next)
    ensures AtRead(u, next, w)
  {
    assert !Ahead(u, s);
    assert next.queue == s.queue && next.loop == s.loop && next.now == s.now;
    assert next.timers.armed == s.timers.armed - {id} == map[];
    assert OnlyReader(next, id);
  }

  lemma PhaseExpire(u: Setup, s: State, id: nat, w: Edit, before: seq<string>)
    requires Phase(u, s, w, before) && PromptStep(u, s, Expire(id)).Some?
    ensures Phase(u, PromptStep(u, s, Expire(id)).value, w, before)
  {
    TimerStep(u, s, Expire(id));
    StepEffect(u, s, Expire(id));
    ReadBegins(u, s, id, Step(u, s, Expire(id)).value, w);
  }

  lemma PhaseRead(u: Setup, s: State, id: nat, w: Edit, before: seq<string>)
    requires Phase(u, s, w, before) && PromptStep(u, s, Read(id)).Some?
    ensures Phase(u, PromptStep(u, s, Read(id)).value, w, before)
  {
    var next := Step(u, s, Read(id)).value;
    TimerStep(u, s, Read(id));
    AheadStays(u, s, Read(id));
    assert AtRead(u, s, w);
    assert OnlyReader(s, id);
    assert Texts(next.loads) == Texts(s.loads) + [w.text];
  }

  lemma PhaseWait(u: Setup, s: State, dt: nat, w: Edit, before: seq<string>)
    requires Phase(u, s, w, before) && PromptStep(u, s, Advance(dt)).Some?
    ensures Phase(u, PromptStep(u, s, Advance(dt)).value, w, before)
  {
    TimerStep(u, s, Advance(dt));
    AheadStays(u, s, Advance(dt));
  }

  lemma PhaseLock(u: Setup, s: State, w: Edit, before: seq<string>)
    requires Phase(u, s, w, before) && PromptStep(u, s, LockLoop).Some?
    ensures Phase(u, PromptStep(u, s, LockLoop).value, w, before)
  {
    TimerStep(u, s, LockLoop);
    AheadStays(u, s, LockLoop);
  }

  lemma FrameFacts(u: Setup, s: State, a: Action)
    requires PromptStep(u, s, a).Some? && (a.Notice? || a.Receive? || a.Deliver? || a.LoopReturn?)
    ensures var next := PromptStep(u, s, a).value;
            && SameReaders(s, next) && Texts(next.loads) == Texts(s.loads)
            && next.timers == s.timers && next.now == s.now && next.file == s.file && next.stopper == s.stopper
  {
    SameTexts(PromptStep(u, s, a).value.loads, s.loads);
  }

  /** Steps that touch neither clock, timers, file nor readers. */
  lemma PhaseFrame(u: Setup, s: State, next: State, w: Edit, before: seq<string>)
    requires Phase(u, s, w, before) && TimerInv(next) && Ahead(u, next) == Ahead(u, s)
    requires SameReaders(s, next) && Texts(next.loads) == Texts(s.loads)
    requires next.timers == s.timers && next.now == s.now && next.file == s.file && next.stopper == s.stopper
    ensures Phase(u, next, w, before)
  {
    if AtRead(u, s, w) {
      var id :| OnlyReader(s, id);
      assert OnlyReader(next, id);
    }
  }

  lemma PhaseOther(u: Setup, s: State, a: Action, w: Edit, before: seq<string>)
    requires Phase(u, s, w, before) && PromptStep(u, s, a).Some?
    requires a.Notice? || a.Receive? || a.Deliver? || a.LoopReturn?
    ensures Phase(u, PromptStep(u, s, a).value, w, before)
  {
    TimerStep(u, s, a);
    AheadStays(u, s, a);
    FrameFacts(u, s, a);
    PhaseFrame(u, s, PromptStep(u, s, a).value, w, before);
  }

  lemma PhaseStep(u: Setup, s: State, a: Action, w: Edit, before: seq<string>)
    requires Phase(u, s, w, before) && PromptStep(u, s, a).Some? && !a.WriteFile?
    ensures Phase(u, PromptStep(u, s, a).value, w, before)
  {
    match a {
      case Arm => PhaseArm(u, s, w, before);
      case Expire(id) => PhaseExpire(u, s, id, w, before);
      case Read(id) => PhaseRead(u, s, id, w, before);
      case Advance(dt) => PhaseWait(u, s, dt, w, before);
      case LockLoop => PhaseLock(u, s, w, before);
      case EndStop =>
      case _ => PhaseOther(u, s, a, w, before);
    }
  }

  predicate NoWrite(acts: seq<Action>) {
    forall i :: 0 <= i < |acts| ==> !acts[i].WriteFile?
  }

  lemma {:induction false} PhaseRun(u: Setup, s: State, acts: seq<Action>, end: State, w: Edit, before: seq<string>)
    requires Phase(u, s, w, before) && Runs.Run(Prompter(u), s, acts) == Some(end) && NoWrite(acts)
    ensures Phase(u, end, w, before)
    decreases |acts|
  {
    if acts == [] {
    } else {
      PhaseStep(u, s, acts[0], w, before);
      PhaseRun(u, PromptStep(u, s, acts[0]).value, acts[1..], end, w, before);
    }
  }

  /** Exactly when a written text is loaded: by the next write it has been loaded if and only if more
      than 500 ms have passed, and nothing else has. At exactly 500 ms it may go either way. The write may
      come in any reachable state in which no reload is about to read and no timer is due, whatever
      reloads are still at work, and whatever the clock did before. */
  lemma WriteIsLoadedIff(u: Setup, file: string, servers: seq<Server>, past: seq<Action>, s: State,
                         text: string, ops: set<FsOp>, acts: seq<Action>, end: State)
    requires Runs.Run(Stepper(u), Init(file, servers), past) == Some(s) && Ready(s)
    requires Runs.Run(Prompter(u), s, [WriteFile(text, ops)] + acts) == Some(end) && NoWrite(acts)
    ensures end.now != s.now + DEBOUNCE ==>
              (Texts(end.loads) == Texts(s.loads) + [text] <==> end.now > s.now + DEBOUNCE)
    ensures Texts(end.loads) == Texts(s.loads) || Texts(end.loads) == Texts(s.loads) + [text]
  {
    TimersReachable(u, file, servers, past);
    assert ([WriteFile(text, ops)] + acts)[1..] == acts;
    var written := PromptStep(u, s, WriteFile(text, ops)).value;
    PhaseBegins(u, s, text, ops);
    PhaseRun(u, written, acts, end, Edit(s.now, text, ops), Texts(s.loads));
  }

  // ----- whole runs -------------------------------------------------------------------------

  function EditBy(s: State, a: Action): seq<Edit> {
    if a.WriteFile? then [Edit(s.now, a.text, a.ops)] else []
  }

  /** The writes of a run. */
  function Edits(u: Setup, s: State, acts: seq<Action>): seq<Edit>
    decreases |acts|
  {
    if acts == [] then []
    else match PromptStep(u, s, acts[0])
      case None => []
      case Some(next) => EditBy(s, acts[0]) + Edits(u, next, acts[1..])
  }

  /** The texts of the writes that no other follows within the window, up to time `until`. */
  function Survivors(writes: seq<Edit>, until: nat): seq<string> {
    if writes == [] then []
    else
      var last := writes[|writes| - 1];
      Survivors(writes[..|writes| - 1], last.at) + if until > last.at + DEBOUNCE then [last.text] else []
  }

  /** When the write after the `i`-th comes; `until` for the last. */
  function Next(writes: seq<Edit>, i: nat, until: nat): nat
    requires i < |writes|
  {
    if i + 1 < |writes| then writes[i + 1].at else until
  }

  /** No write is followed after exactly 500 ms. */
  predicate NoTie(writes: seq<Edit>, until: nat) {
    forall i :: 0 <= i < |writes| ==> Next(writes, i, until) != writes[i].at + DEBOUNCE
  }

  ghost predicate Tracked(u: Setup, s: State, writes: seq<Edit>) {
    if writes == [] then
      TimerInv(s) && s.stopper == Idle && s.loads == [] && NoReader(s) && s.timers.armed == map[] && !Ahead(u, s)
    else
      var last := writes[|writes| - 1];
      Phase(u, s, last, Survivors(writes[..|writes| - 1], last.at))
  }

  lemma TrackedStep(u: Setup, s: State, writes: seq<Edit>, a: Action)
    requires Tracked(u, s, writes) && PromptStep(u, s, a).Some?
    requires a.WriteFile? && writes != [] ==> s.now != writes[|writes| - 1].at + DEBOUNCE
    ensures Tracked(u, PromptStep(u, s, a).value, writes + EditBy(s, a))
  {
    if a.WriteFile? {
      var w := Edit(s.now, a.text, a.ops);
      assert (writes + [w])[..|writes|] == writes;
      TrackedTexts(u, s, writes);
      PhaseBegins(u, s, a.text, a.ops);
    } else if writes == [] {
      TimerStep(u, s, a);
      NothingBegins(u, s, a);
    } else {
      assert writes + [] == writes;
      PhaseStep(u, s, a, writes[|writes| - 1], Survivors(writes[..|writes| - 1], writes[|writes| - 1].at));
    }
  }

  lemma NothingBegins(u: Setup, s: State, a: Action)
    requires Tracked(u, s, []) && PromptStep(u, s, a).Some? && !a.WriteFile?
    ensures Tracked(u, PromptStep(u, s, a).value, [])
  {
    TimerStep(u, s, a);
    AheadStays(u, s, a);
  }

  /** Off the tie what has been loaded is decided, and a write may come. */
  lemma TrackedTexts(u: Setup, s: State, writes: seq<Edit>)
    requires Tracked(u, s, writes)
    requires writes != [] ==> s.now != writes[|writes| - 1].at + DEBOUNCE
    ensures Texts(s.loads) == Survivors(writes, s.now) && TimerInv(s) && Ready(s)
  {
    if writes != [] {
      var w := writes[|writes| - 1];
      var before := Survivors(writes[..|writes| - 1], w.at);
      assert before + [] == before;
    }
  }

  lemma {:induction false} TrackedRun(u: Setup, s: State, writes: seq<Edit>, acts: seq<Action>, end: State)
    requires Tracked(u, s, writes) && Runs.Run(Prompter(u), s, acts) == Some(end)
    requires NoTie(writes + Edits(u, s, acts), end.now)
    ensures Tracked(u, end, writes + Edits(u, s, acts))
    decreases |acts|
  {
    if acts == [] {
      assert writes + [] == writes;
    } else {
      var next := PromptStep(u, s, acts[0]).value;
      var all, now := writes + Edits(u, s, acts), EditBy(s, acts[0]);
      Assoc(writes, now, Edits(u, next, acts[1..]));
      if acts[0].WriteFile? && writes != [] {
        assert all[|writes|] == now[0] && Next(all, |writes| - 1, end.now) == s.now;
      }
      TrackedStep(u, s, writes, acts[0]);
      TrackedRun(u, next, writes + now, acts[1..], end);
    }
  }

  /** Which texts a whole run loads: if no write is followed after exactly 500 ms, by the next write or by
      the end, then the texts loaded are, in order, those of the writes not followed within 500 ms. */
  lemma LoadsAreSurvivors(u: Setup, file: string, servers: seq<Server>, acts: seq<Action>, end: State)
    requires Runs.Run(Prompter(u), Init(file, servers), acts) == Some(end)
    requires NoTie(Edits(u, Init(file, servers), acts), end.now)
    ensures Texts(end.loads) == Survivors(Edits(u, Init(file, servers), acts), end.now)
  {
    var start := Init(file, servers);
    var writes := Edits(u, start, acts);
    assert [] + writes == writes;
    TrackedRun(u, start, [], acts, end);
    if writes != [] {
      assert Next(writes, |writes| - 1, end.now) == end.now;
    }
    TrackedTexts(u, end, writes);
  }

  // ----- every schedule of writes has a run -------------------------------------------------

  /** Nothing is to be done at once, and no timer is overdue. */
  ghost predicate Standing(s: State) {
    Idling(s) && NoReader(s) && TimerInv(s) && forall id :: id in s.timers.armed ==> s.now <= s.timers.armed[id]
  }

  lemma {:induction false} NoEdits(u: Setup, s: State, acts: seq<Action>)
    requires NoWrite(acts)
    ensures Edits(u, s, acts) == []
    decreases |acts|
  {
    if acts == [] {
    } else if PromptStep(u, s, acts[0]).Some? {
      NoEdits(u, PromptStep(u, s, acts[0]).value, acts[1..]);
    }
  }

  lemma {:induction false} EditsCompose(u: Setup, s: State, xs: seq<Action>, mid: State, ys: seq<Action>)
    requires Runs.Run(Prompter(u), s, xs) == Some(mid)
    ensures Edits(u, s, xs + ys) == Edits(u, s, xs) + Edits(u, mid, ys)
    decreases |xs|
  {
    if xs == [] {
      assert xs + ys == ys;
    } else {
      assert (xs + ys)[1..] == xs[1..] + ys;
      var next := PromptStep(u, s, xs[0]).value;
      EditsCompose(u, next, xs[1..], mid, ys);
      Assoc(EditBy(s, xs[0]), Edits(u, next, xs[1..]), Edits(u, mid, ys));
    }
  }

  lemma FireOnTime(u: Setup, s: State, id: nat) returns (waited: State, fired: State)
    requires Standing(s) && id in s.timers.armed
    ensures PromptStep(u, s, Advance(s.timers.armed[id] - s.now)) == Some(waited)
    ensures PromptStep(u, waited, Expire(id)) == Some(fired)
    ensures Idling(fired) && TimerInv(fired) && fired.now == s.timers.armed[id] && fired.timers.armed == map[]
    ensures OnlyReader(fired, id)
  {
    var due := Advance(s.timers.armed[id] - s.now);
    waited := Step(u, s, due).value;
    fired := Step(u, waited, Expire(id)).value;
    TimerStep(u, s, due);
    TimerStep(u, waited, Expire(id));
    assert fired.timers.armed == map[];
  }

  lemma ReadAtOnce(u: Setup, s: State, id: nat) returns (end: State)
    requires Idling(s) && TimerInv(s) && s.timers.armed == map[] && OnlyReader(s, id)
    ensures PromptStep(u, s, Read(id)) == Some(end)
    ensures Standing(end) && end.now == s.now && end.timers.armed == map[]
  {
    end := Step(u, s, Read(id)).value;
    TimerStep(u, s, Read(id));
  }

  /** An armed timer fires on its deadline, and its reload reads. */
  lemma FireAndRead(u: Setup, s: State, id: nat) returns (acts: seq<Action>, end: State)
    requires Standing(s) && id in s.timers.armed
    ensures Runs.Run(Prompter(u), s, acts) == Some(end) && NoWrite(acts)
    ensures Standing(end) && end.now == s.timers.armed[id] && end.timers.armed == map[]
  {
    var waited, fired := FireOnTime(u, s, id);
    end := ReadAtOnce(u, fired, id);
    acts := [Advance(s.timers.armed[id] - s.now), Expire(id), Read(id)];
    Runs.Path(Prompter(u), [s, waited, fired, end], acts);
  }

  lemma Wait(u: Setup, s: State, at: nat) returns (acts: seq<Action>, end: State)
    requires Standing(s) && s.now <= at && forall id :: id in s.timers.armed ==> at <= s.timers.armed[id]
    ensures Runs.Run(Prompter(u), s, acts) == Some(end) && NoWrite(acts) && Standing(end) && end.now == at
  {
    end := Step(u, s, Advance(at - s.now)).value;
    TimerStep(u, s, Advance(at - s.now));
    acts := [Advance(at - s.now)];
    Runs.Path(Prompter(u), [s, end], acts);
  }

  /** Time passes until `at`; a timer due before fires on its way. */
  lemma WaitFor(u: Setup, s: State, at: nat) returns (acts: seq<Action>, end: State)
    requires Standing(s) && s.now <= at
    ensures Runs.Run(Prompter(u), s, acts) == Some(end) && NoWrite(acts) && Standing(end) && end.now == at
  {
    if id :| id in s.timers.armed && s.timers.armed[id] < at {
      var xs, mid := FireAndRead(u, s, id);
      var ys, last := Wait(u, mid, at);
      Runs.Compose(Prompter(u), s, xs, ys);
      acts, end := xs + ys, last;
    } else {
      acts, end := Wait(u, s, at);
    }
  }

  /** Runs that do not wait are prompt. */
  lemma {:induction false} NoWaitIsPrompt(u: Setup, s: State, acts: seq<Action>)
    requires Runs.Run(IdealStepper(u), s, acts).Some?
    requires forall i :: 0 <= i < |acts| ==> !acts[i].Advance? && !acts[i].Notice? && !acts[i].BeginStop?
    ensures Runs.Run(Prompter(u), s, acts) == Runs.Run(IdealStepper(u), s, acts)
    decreases |acts|
  {
    if acts == [] {
    } else {
      NoWaitIsPrompt(u, IdealStep(u, s, acts[0]).value, acts[1..]);
    }
  }

  lemma EditNow(u: Setup, s: State, text: string, ops: set<FsOp>) returns (end: State)
    requires Standing(s) && (Write in ops || Create in ops)
    ensures Runs.Run(Prompter(u), s, WriteActs(text, ops)) == Some(end) && Standing(end) && end.now == s.now
    ensures Edits(u, s, WriteActs(text, ops)) == [Edit(s.now, text, ops)]
  {
    var acts := WriteActs(text, ops);
    end := WriteNow(u, s, text, ops);
    NoWaitIsPrompt(u, s, acts);
    NoEdits(u, PromptStep(u, s, acts[0]).value, acts[1..]);
    Runs.Restrict(IdealStepper(u), Stepper(u), s, acts);
    TimersAfter(u, s, acts);
  }

  predicate InTime(edits: seq<Edit>, until: nat) {
    && (forall i, j :: 0 <= i < j < |edits| ==> edits[i].at <= edits[j].at)
    && (forall i :: 0 <= i < |edits| ==> edits[i].at <= until && (Write in edits[i].ops || Create in edits[i].ops))
  }

  lemma InitInTime(edits: seq<Edit>, until: nat)
    requires InTime(edits, until) && edits != []
    ensures var last := edits[|edits| - 1]; InTime(edits[..|edits| - 1], last.at) && last.at <= until
  {
  }

  /** A run of some writes, prolonged by one more write and a wait. */
  lemma OneMore(u: Setup, s: State, xs: seq<Action>, mid: State, last: Edit, until: nat)
    returns (acts: seq<Action>, end: State)
    requires Runs.Run(Prompter(u), s, xs) == Some(mid) && Standing(mid) && mid.now == last.at <= until
    requires Write in last.ops || Create in last.ops
    ensures Runs.Run(Prompter(u), s, acts) == Some(end) && Standing(end) && end.now == until
    ensures Edits(u, s, acts) == Edits(u, s, xs) + [last]
  {
    var ys;
    ys, end := EditThenWait(u, mid, last.text, last.ops, until);
    Chain(u, s, xs, mid, ys, end);
    acts := xs + ys;
  }

  /** Every schedule of writes, at whatever times in order and whether in place or by creation, is that of
      some prompt run. */
  lemma {:induction false} EveryScheduleRuns(u: Setup, file: string, servers: seq<Server>, edits: seq<Edit>, until: nat)
    returns (acts: seq<Action>, end: State)
    requires InTime(edits, until)
    ensures Runs.Run(Prompter(u), Init(file, servers), acts) == Some(end) && Standing(end) && end.now == until
    ensures Edits(u, Init(file, servers), acts) == edits
    decreases |edits|
  {
    if edits == [] {
      acts, end := WaitFor(u, Init(file, servers), until);
      NoEdits(u, Init(file, servers), acts);
    } else {
      var init, last := edits[..|edits| - 1], edits[|edits| - 1];
      InitInTime(edits, until);
      var xs, mid := EveryScheduleRuns(u, file, servers, init, last.at);
      acts, end := OneMore(u, Init(file, servers), xs, mid, last, until);
      assert edits == init + [last];
    }
  }

  lemma Chain(u: Setup, s: State, xs: seq<Action>, mid: State, ys: seq<Action>, end: State)
    requires Runs.Run(Prompter(u), s, xs) == Some(mid) && Runs.Run(Prompter(u), mid, ys) == Some(end)
    ensures Runs.Run(Prompter(u), s, xs + ys) == Some(end)
    ensures Edits(u, s, xs + ys) == Edits(u, s, xs) + Edits(u, mid, ys)
  {
    Runs.Compose(Prompter(u), s, xs, ys);
    EditsCompose(u, s, xs, mid, ys);
  }

  lemma EditThenWait(u: Setup, s: State, text: string, ops: set<FsOp>, until: nat)
    returns (acts: seq<Action>, end: State)
    requires Standing(s) && s.now <= until && (Write in ops || Create in ops)
    ensures Runs.Run(Prompter(u), s, acts) == Some(end) && Standing(end) && end.now == until
    ensures Edits(u, s, acts) == [Edit(s.now, text, ops)]
  {
    var mid := EditNow(u, s, text, ops);
    var ys, last := WaitFor(u, mid, until);
    Chain(u, s, WriteActs(text, ops), mid, ys, last);
    NoEdits(u, mid, ys);
    acts, end := WriteActs(text, ops) + ys, last;
    assert [Edit(s.now, text, ops)] + [] == [Edit(s.now, text, ops)];
  }
}
