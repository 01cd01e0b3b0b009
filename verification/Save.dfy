/**
  * db/database.go: the map merge every save variant makes, and insert-before-publish from any number
  * of saving goroutines.
  */
module Save {
  import opened Prelude
  import opened Counting
  import opened HttpSpec
  import T = Topics
  import Runs

  // ----- merging ----------------------------------------------------------------------------

  /** The union of both maps, with `data` winning. */
  ghost predicate IsMerge(data: map<string, Json>, params: map<string, string>, merged: map<string, Json>) {
    && merged.Keys == data.Keys + params.Keys
    && (forall k :: k in data ==> merged[k] == data[k])
    && (forall k :: k in params && k !in data ==> merged[k] == JString(params[k]))
  }

  function Merge(data: map<string, Json>, params: map<string, string>): (merged: map<string, Json>)
    ensures IsMerge(data, params, merged)
  {
    (map k | k in params :: JString(params[k])) + data
  }

  /** The first loop: `data` is copied. */
  method CopyLoop(data: map<string, Json>) returns (merged: map<string, Json>)
    ensures merged == data
  {
    merged := map[];
    var rest := data.Keys;
    while rest != {}
      invariant rest <= data.Keys
      invariant merged == map k | k in data.Keys - rest :: data[k]
      decreases rest
    {
      var k :| k in rest;
      merged := merged[k := data[k]];
      rest := rest - {k};
    }
  }

  /** The two loops at the head of all three save functions, for any iteration order of either map. */
  method MergeLoops(data: map<string, Json>, params: map<string, string>) returns (merged: map<string, Json>)
    ensures merged == Merge(data, params)
  {
    merged := CopyLoop(data);
    var left := params.Keys;
    while left != {}
      invariant left <= params.Keys
      invariant merged == (map k | k in params.Keys - left :: JString(params[k])) + data
      decreases left
    {
      var k :| k in left;
      if k !in merged {
        merged := merged[k := JString(params[k])];
      }
      left := left - {k};
    }
  }

  /** The merge is determined by its specification. */
  lemma MergeUnique(data: map<string, Json>, params: map<string, string>, merged: map<string, Json>)
    requires IsMerge(data, params, merged)
    ensures merged == Merge(data, params)
  {
    assert forall k :: k in merged ==> merged[k] == Merge(data, params)[k];
  }

  /** Merging in the same parameters again, or any parameters whose keys are all present, changes
      nothing; and only such parameters change nothing. */
  lemma MergeAgainIff(merged: map<string, Json>, more: map<string, string>)
    ensures Merge(merged, more) == merged <==> more.Keys <= merged.Keys
  {
    if more.Keys <= merged.Keys {
      assert Merge(merged, more).Keys == merged.Keys;
    }
  }

  // ----- records ----------------------------------------------------------------------------

  /** What an inserted row and a published record have in common. */
  datatype Record = Record(url: string, data: map<string, Json>, params: map<string, string>)

  /** `r` is what a save of `job` is to store and send: its url and parameters, and its data merged. */
  ghost predicate Describes(job: SaveJob, r: Record) {
    r.url == job.url && r.params == job.params && IsMerge(job.data, job.params, r.data)
  }

  function RecordOf(job: SaveJob): Record {
    Record(job.url, Merge(job.data, job.params), job.params)
  }

  /** A save stores one definite record. */
  lemma OnlyRecord(job: SaveJob)
    ensures forall r :: Describes(job, r) <==> r == RecordOf(job)
  {
    forall r | Describes(job, r) ensures r == RecordOf(job) {
      MergeUnique(job.data, job.params, r.data);
    }
  }

  /** How the world treats one save: whether the data marshals, the insert succeeds, a publisher is
      configured, the record reaches the broker, and `Publish` reports success. A publish that timed
      out may have been delivered all the same, so the last two are independent. */
  datatype Luck = Luck(marshals: bool, inserts: bool, hasPublisher: bool, delivered: bool, reported: bool)

  // ----- one save at a time -----------------------------------------------------------------

  class Database {
    var rows: seq<Record>
    var published: seq<(string, Record)>

    constructor ()
      ensures rows == [] && published == []
    {
      rows, published := [], [];
    }

    /** `SaveToDBWithError`: nil is returned exactly when the row was inserted; a record is published
        only after its row, on the sanitised url, and a publish failure is not reported. */
    method SaveToDBWithError(job: SaveJob, luck: Luck) returns (ok: bool)
      modifies this
      ensures ok <==> luck.marshals && luck.inserts
      ensures !ok ==> rows == old(rows) && published == old(published)
      ensures ok && luck.hasPublisher && luck.delivered ==>
                exists r :: && Describes(job, r) && rows == old(rows) + [r]
                            && published == old(published) + [(T.SanitizeTopic(job.url), r)]
      ensures ok && !(luck.hasPublisher && luck.delivered) ==>
                exists r :: Describes(job, r) && rows == old(rows) + [r] && published == old(published)
    {
      var mergedData := MergeLoops(job.data, job.params);
      if !luck.marshals {
        return false;
      }
      var row := Record(job.url, mergedData, job.params);
      assert Describes(job, row);
      if !luck.inserts {
        return false;
      }
      rows := rows + [row];
      if luck.hasPublisher {
        var topic := T.SanitizeTopic(job.url);
        T.Idempotent(job.url);
        if luck.delivered {
          published := published + [(T.SanitizeTopic(topic), row)];
        }
      }
      return true;
    }

    /** A sequential run: nil is returned for the saves that insert, and rows and published records
        grow by exactly what the attempts insert and send, in their order. */
    method SaveAll(attempts: seq<Attempt>) returns (oks: seq<bool>)
      modifies this
      ensures |oks| == |attempts| && forall i :: 0 <= i < |oks| ==> (oks[i] <==> Stores(attempts[i]))
      ensures rows == old(rows) + Inserts(attempts)
      ensures published == old(published) + Sends(attempts)
    {
      oks := [];
      for i := 0 to |attempts|
        invariant |oks| == i && forall j :: 0 <= j < i ==> (oks[j] <==> Stores(attempts[j]))
        invariant rows == old(rows) + Inserts(attempts[..i])
        invariant published == old(published) + Sends(attempts[..i])
      {
        assert attempts[..i + 1][..i] == attempts[..i];
        OnlyRecord(attempts[i].job);
        var ok := SaveToDBWithError(attempts[i].job, attempts[i].luck);
        oks := oks + [ok];
      }
      assert attempts[..|attempts|] == attempts;
    }
  }

  datatype Attempt = Attempt(job: SaveJob, luck: Luck)

  predicate Stores(a: Attempt) { a.luck.marshals && a.luck.inserts }

  predicate Reaches(a: Attempt) { Stores(a) && a.luck.hasPublisher && a.luck.delivered }

  /** The rows of a sequence of attempts. */
  function Inserts(attempts: seq<Attempt>): seq<Record> {
    if attempts == [] then []
    else
      var last := attempts[|attempts| - 1];
      Inserts(attempts[..|attempts| - 1]) + if Stores(last) then [RecordOf(last.job)] else []
  }

  /** The messages of a sequence of attempts, each on the topic of its url. */
  function Sends(attempts: seq<Attempt>): seq<(string, Record)> {
    if attempts == [] then []
    else
      var last := attempts[|attempts| - 1];
      Sends(attempts[..|attempts| - 1]) +
      if Reaches(last) then [(T.SanitizeTopic(last.job.url), RecordOf(last.job))] else []
  }

  /** What a sequential run publishes is an order-preserving subsequence of what it inserts, each record
      on its own url's topic. */
  lemma {:induction false} SequentialOrder(attempts: seq<Attempt>)
    ensures Subsequence(Records(Sends(attempts)), Inserts(attempts))
    ensures forall m :: m in Sends(attempts) ==> m.0 == T.SanitizeTopic(m.1.url)
  {
    if attempts == [] {
    } else {
      var init, last := attempts[..|attempts| - 1], attempts[|attempts| - 1];
      SequentialOrder(init);
      var sent, rows, x := Records(Sends(init)), Inserts(init), RecordOf(last.job);
      if Reaches(last) {
        assert Records(Sends(attempts)) == sent + [x];
        SubsequenceSnoc(sent, rows, x);
      } else if Stores(last) {
        assert Sends(attempts) == Sends(init);
        SubsequenceSkip(sent, rows, x);
      } else {
        assert Sends(attempts) == Sends(init) && Inserts(attempts) == rows;
      }
    }
  }

  /** Every row has its message exactly when every stored attempt reaches the broker. */
  lemma {:induction false} AllArriveIff(attempts: seq<Attempt>)
    ensures |Sends(attempts)| <= |Inserts(attempts)|
    ensures |Sends(attempts)| == |Inserts(attempts)| <==> forall a :: a in attempts && Stores(a) ==> Reaches(a)
  {
    if attempts == [] {
    } else {
      var init, last := attempts[..|attempts| - 1], attempts[|attempts| - 1];
      AllArriveIff(init);
      assert attempts == init + [last];
    }
  }

  function Records(published: seq<(string, Record)>): seq<Record> {
    seq(|published|, i requires 0 <= i < |published| => published[i].1)
  }

  /** `xs` is `ys` with some elements left out. */
  predicate Subsequence<X(==)>(xs: seq<X>, ys: seq<X>) {
    || xs == []
    || (ys != [] && ((xs[|xs| - 1] == ys[|ys| - 1] && Subsequence(xs[..|xs| - 1], ys[..|ys| - 1]))
                     || Subsequence(xs, ys[..|ys| - 1])))
  }

  /** Positions in `ys`, in order, at which the elements of `xs` stand. */
  ghost predicate Embeds<X>(xs: seq<X>, ys: seq<X>, at: seq<nat>) {
    && |at| == |xs|
    && (forall i :: 0 <= i < |xs| ==> at[i] < |ys| && ys[at[i]] == xs[i])
    && (forall i, j :: 0 <= i < j < |xs| ==> at[i] < at[j])
  }

  /** A subsequence is what can be found in order at some positions. */
  lemma SubsequenceEmbeds<X>(xs: seq<X>, ys: seq<X>)
    ensures Subsequence(xs, ys) <==> exists at :: Embeds(xs, ys, at)
  {
    if Subsequence(xs, ys) {
      var at := Positions(xs, ys);
    }
    forall at | Embeds(xs, ys, at) ensures Subsequence(xs, ys) {
      EmbeddedIsSubsequence(xs, ys, at);
    }
  }

  lemma {:induction false} Positions<X>(xs: seq<X>, ys: seq<X>) returns (at: seq<nat>)
    requires Subsequence(xs, ys)
    ensures Embeds(xs, ys, at)
  {
    if xs == [] {
      at := [];
    } else {
      var xi, yi := xs[..|xs| - 1], ys[..|ys| - 1];
      if xs[|xs| - 1] == ys[|ys| - 1] && Subsequence(xi, yi) {
        var before := Positions(xi, yi);
        at := before + [|ys| - 1];
      } else {
        at := Positions(xs, yi);
      }
    }
  }

  lemma {:induction false} EmbeddedIsSubsequence<X>(xs: seq<X>, ys: seq<X>, at: seq<nat>)
    requires Embeds(xs, ys, at)
    ensures Subsequence(xs, ys)
    decreases |ys|
  {
    if xs == [] {
    } else {
      assert at[|xs| - 1] < |ys|;
      var xi, yi := xs[..|xs| - 1], ys[..|ys| - 1];
      if at[|xs| - 1] == |ys| - 1 {
        assert Embeds(xi, yi, at[..|xs| - 1]);
        EmbeddedIsSubsequence(xi, yi, at[..|xs| - 1]);
      } else {
        assert Embeds(xs, yi, at);
        EmbeddedIsSubsequence(xs, yi, at);
      }
    }
  }

  lemma SubsequenceSkip<X>(xs: seq<X>, ys: seq<X>, y: X)
    requires Subsequence(xs, ys)
    ensures Subsequence(xs, ys + [y])
  {
    assert (ys + [y])[..|ys|] == ys;
  }

  lemma SubsequenceSnoc<X>(xs: seq<X>, ys: seq<X>, y: X)
    requires Subsequence(xs, ys)
    ensures Subsequence(xs + [y], ys + [y])
  {
    assert (ys + [y])[..|ys|] == ys && (xs + [y])[..|xs|] == xs;
  }

  // ----- any interleaving -------------------------------------------------------------------

  datatype Stage = Started | Marshalled | Inserted | Done(ok: bool)

  /** A saving goroutine, with the record its merge produced. */
  datatype Thread = Thread(record: Record, stage: Stage)

  /** `lost`, `inserted` and `sent` are histories: the records of inserted rows that never reached the
      broker, because the publisher is missing or the delivery failed; and whose rows and messages
      `rows` and `published` are. */
  datatype State = State(
    threads: map<nat, Thread>,
    rows: seq<Record>, published: seq<Record>,
    lost: multiset<Record>, inserted: seq<nat>, sent: seq<nat>)

  datatype Action =
    | Start(id: nat, job: SaveJob)
    | Marshal(id: nat, works: bool)
    | Insert(id: nat, works: bool)
    | PublishRow(id: nat, delivered: bool)

  function Init(): State { State(map[], [], [], multiset{}, [], []) }

  function To(s: State, id: nat, t: Thread, stage: Stage): State {
    s.(threads := s.threads[id := t.(stage := stage)])
  }

  function Step(s: State, a: Action): Option<State> {
    if a.Start? then
      if a.id in s.threads then None else Some(s.(threads := s.threads[a.id := Thread(RecordOf(a.job), Started)]))
    else if a.id !in s.threads then None
    else
      var t := s.threads[a.id];
      match (a, t.stage)
      case (Marshal(id, works), Started) => Some(To(s, id, t, if works then Marshalled else Done(false)))
      case (Insert(id, works), Marshalled) =>
        if works then Some(To(s, id, t, Inserted).(rows := s.rows + [t.record], inserted := s.inserted + [id]))
        else Some(To(s, id, t, Done(false)))
      case (PublishRow(id, delivered), Inserted) =>
        // with no publisher, or when delivery fails, the save still returns nil
        if delivered then Some(To(s, id, t, Done(true)).(published := s.published + [t.record], sent := s.sent + [id]))
        else Some(To(s, id, t, Done(true)).(lost := s.lost + multiset{t.record}))
      case _ => None
  }

  function Stepper(): (State, Action) -> Option<State> { (s, a) => Step(s, a) }

  /** Goroutines whose row with this record is in and which have not come to publishing it. */
  function Between(r: Record): Thread -> bool {
    (t: Thread) => t.stage == Inserted && t.record == r
  }

  /** Goroutines that returned nil or are past their insert, for this record. */
  function RowIn(r: Record): Thread -> bool {
    (t: Thread) => (t.stage == Inserted || t.stage == Done(true)) && t.record == r
  }

  ghost predicate Inv(s: State) {
    && (forall r :: multiset(s.rows)[r] == multiset(s.published)[r] + s.lost[r] + Count(s.threads, Between(r)))
    && (forall r :: multiset(s.rows)[r] == Count(s.threads, RowIn(r)))
  }

  /** One goroutine moves: the multiplicities move with it. */
  lemma MoveThread(s: State, id: nat, t: Thread, next: State)
    requires Inv(s) && next.threads == s.threads[id := t]
    requires forall r ::
               multiset(next.rows)[r] + multiset(s.published)[r] + s.lost[r]
                 + One(id in s.threads && Between(r)(s.threads[id]))
               == multiset(s.rows)[r] + multiset(next.published)[r] + next.lost[r] + One(Between(r)(t))
    requires forall r ::
               multiset(next.rows)[r] + One(id in s.threads && RowIn(r)(s.threads[id]))
               == multiset(s.rows)[r] + One(RowIn(r)(t))
    ensures Inv(next)
  {
    forall r
      ensures multiset(next.rows)[r] == multiset(next.published)[r] + next.lost[r] + Count(next.threads, Between(r))
      ensures multiset(next.rows)[r] == Count(next.threads, RowIn(r))
    {
      Update(s.threads, id, t, Between(r));
      Update(s.threads, id, t, RowIn(r));
    }
  }

  lemma Grown(xs: seq<Record>, x: Record)
    ensures forall r :: multiset(xs + [x])[r] == multiset(xs)[r] + One(r == x)
  {
    assert multiset(xs + [x]) == multiset(xs) + multiset{x};
  }

  /** Steps of a goroutine that has inserted nothing yet and does not insert now. */
  lemma QuietStep(s: State, id: nat, t: Thread)
    requires Inv(s) && !t.stage.Inserted? && t.stage != Done(true)
    requires id in s.threads ==> !s.threads[id].stage.Inserted? && s.threads[id].stage != Done(true)
    ensures Inv(s.(threads := s.threads[id := t]))
  {
    MoveThread(s, id, t, s.(threads := s.threads[id := t]));
  }

  lemma InsertStep(s: State, id: nat, next: State)
    requires Inv(s) && id in s.threads && s.threads[id].stage == Marshalled
    requires var t := s.threads[id];
             next == To(s, id, t, Inserted).(rows := s.rows + [t.record], inserted := s.inserted + [id])
    ensures Inv(next)
  {
    var t := s.threads[id].(stage := Inserted);
    Grown(s.rows, t.record);
    MoveThread(s, id, t, next);
  }

  lemma PublishStep(s: State, id: nat, next: State)
    requires Inv(s) && id in s.threads && s.threads[id].stage == Inserted
    requires var t := s.threads[id];
             || next == To(s, id, t, Done(true)).(published := s.published + [t.record], sent := s.sent + [id])
             || next == To(s, id, t, Done(true)).(lost := s.lost + multiset{t.record})
    ensures Inv(next)
  {
    var t := s.threads[id].(stage := Done(true));
    Grown(s.published, t.record);
    MoveThread(s, id, t, next);
  }

  lemma StepKeeps(s: State, a: Action)
    requires Inv(s) && Step(s, a).Some?
    ensures Inv(Step(s, a).value)
  {
    var next := Step(s, a).value;
    match a {
      case Start(id, job) => QuietStep(s, id, Thread(RecordOf(job), Started));
      case Marshal(id, works) => QuietStep(s, id, next.threads[id]);
      case Insert(id, works) => if works { InsertStep(s, id, next); } else { QuietStep(s, id, next.threads[id]); }
      case PublishRow(id, delivered) => PublishStep(s, id, next);
    }
  }

  lemma Reachable(acts: seq<Action>)
    requires Runs.Run(Stepper(), Init(), acts).Some?
    ensures Inv(Runs.Run(Stepper(), Init(), acts).value)
  {
    forall s, a | Inv(s) && Stepper()(s, a).Some? ensures Inv(Stepper()(s, a).value) {
      StepKeeps(s, a);
    }
    var inv := (s: State) => Inv(s);
    assert Runs.Inductive(Stepper(), inv);
    assert Inv(Init());
    Runs.Keeps(Stepper(), inv, Init(), acts);
  }

  /** No step changes what a goroutine saves. */
  lemma RecordKept(s: State, a: Action, id: nat)
    requires Step(s, a).Some? && id in s.threads
    ensures id in Step(s, a).value.threads && Step(s, a).value.threads[id].record == s.threads[id].record
  {
  }

  /** Wherever a save of `job` starts in a run, and whatever interleaves, its goroutine's record has the
      job's url and parameters and the merge of its data with them. */
  lemma StartedRecord(before: seq<Action>, id: nat, job: SaveJob, after: seq<Action>, s: State)
    requires Runs.Run(Stepper(), Init(), before + [Start(id, job)] + after) == Some(s)
    ensures id in s.threads && Describes(job, s.threads[id].record)
  {
    Runs.Compose(Stepper(), Init(), before + [Start(id, job)], after);
    Runs.Compose(Stepper(), Init(), before, [Start(id, job)]);
    var mid := Runs.Run(Stepper(), Init(), before).value;
    var begun := Step(mid, Start(id, job)).value;
    assert Runs.Run(Stepper(), begun, []) == Some(begun);
    var inv := (t: State) => id in t.threads && t.threads[id].record == begun.threads[id].record;
    forall t, a | inv(t) && Stepper()(t, a).Some? ensures inv(Stepper()(t, a).value) {
      RecordKept(t, a, id);
    }
    assert Runs.Inductive(Stepper(), inv);
    Runs.Keeps(Stepper(), inv, begun, after);
  }

  function StagesLeft(stage: Stage): nat {
    match stage
    case Started => 3
    case Marshalled => 2
    case Inserted => 1
    case Done(_) => 0
  }

  /** Every save can return; if the world lets it, with its row in, and its message out. */
  lemma {:induction false} SaveCanReturn(s: State, id: nat) returns (acts: seq<Action>, end: State)
    requires id in s.threads && !s.threads[id].stage.Done?
    ensures Runs.Run(Stepper(), s, acts) == Some(end) && id in end.threads && end.threads[id].stage == Done(true)
    ensures !s.threads[id].stage.Inserted? ==> end.rows == s.rows + [s.threads[id].record]
    ensures s.threads[id].stage.Inserted? ==> end.rows == s.rows
    ensures end.published == s.published + [s.threads[id].record]
    decreases StagesLeft(s.threads[id].stage)
  {
    var now := match s.threads[id].stage {
      case Started => Marshal(id, true)
      case Marshalled => Insert(id, true)
      case _ => PublishRow(id, true)
    };
    var mid := Step(s, now).value;
    if now.PublishRow? {
      acts, end := [now], mid;
      Runs.Path(Stepper(), [s, mid], acts);
    } else {
      var rest;
      rest, end := SaveCanReturn(mid, id);
      acts := [now] + rest;
      assert acts[1..] == rest;
    }
  }

  /** Insert before publish, conserved: over any interleaving, inserted rows are the published records,
      the lost ones, and those a goroutine has inserted and not yet come to publish. So published
      records are always contained in the rows, and a row exists for exactly the saves that returned
      nil or are about to. */
  lemma InsertBeforePublish(acts: seq<Action>, s: State)
    requires Runs.Run(Stepper(), Init(), acts) == Some(s)
    ensures multiset(s.published) <= multiset(s.rows)
    ensures forall r :: multiset(s.rows)[r] == multiset(s.published)[r] + s.lost[r] + Count(s.threads, Between(r))
    ensures forall r :: multiset(s.rows)[r] == Count(s.threads, RowIn(r))
  {
    Reachable(acts);
  }

  // ----- order under interleaving -----------------------------------------------------------

  lemma {:induction false} SubsequenceMembers<X>(xs: seq<X>, ys: seq<X>)
    requires Subsequence(xs, ys)
    ensures forall x :: x in xs ==> x in ys
  {
    if xs == [] {
    } else {
      var xi, yi := xs[..|xs| - 1], ys[..|ys| - 1];
      assert xs == xi + [xs[|xs| - 1]] && ys == yi + [ys[|ys| - 1]];
      if xs[|xs| - 1] == ys[|ys| - 1] && Subsequence(xi, yi) {
        SubsequenceMembers(xi, yi);
      } else {
        SubsequenceMembers(xs, yi);
      }
    }
  }

  lemma {:induction false} SubsequenceMap<X, Y>(f: X -> Y, xs: seq<X>, ys: seq<X>)
    requires Subsequence(xs, ys)
    ensures Subsequence(Mapped(f, xs), Mapped(f, ys))
  {
    if xs == [] {
    } else {
      var xi, yi := xs[..|xs| - 1], ys[..|ys| - 1];
      assert Mapped(f, xs)[..|xs| - 1] == Mapped(f, xi) && Mapped(f, ys)[..|ys| - 1] == Mapped(f, yi);
      if xs[|xs| - 1] == ys[|ys| - 1] && Subsequence(xi, yi) {
        SubsequenceMap(f, xi, yi);
      } else {
        SubsequenceMap(f, xs, yi);
      }
    }
  }

  function Mapped<X, Y>(f: X -> Y, xs: seq<X>): seq<Y> {
    seq(|xs|, i requires 0 <= i < |xs| => f(xs[i]))
  }

  ghost predicate Distinct<X>(xs: seq<X>) {
    forall i, j :: 0 <= i < j < |xs| ==> xs[i] != xs[j]
  }

  /** Elements behind position `n` that do not occur can be cut off. */
  lemma {:induction false} SubsequenceTrim<X>(xs: seq<X>, ys: seq<X>, n: nat)
    requires Subsequence(xs, ys) && n <= |ys| && forall j :: n <= j < |ys| ==> ys[j] !in xs
    ensures Subsequence(xs, ys[..n])
    decreases |ys|
  {
    if xs == [] || n == |ys| {
      assert ys[..|ys|] == ys;
    } else {
      assert ys[|ys| - 1] !in xs && xs[|xs| - 1] in xs;
      var init := ys[..|ys| - 1];
      assert init[..n] == ys[..n];
      SubsequenceTrim(xs, init, n);
    }
  }

  lemma {:induction false} SubsequencePad<X>(xs: seq<X>, ys: seq<X>, zs: seq<X>)
    requires Subsequence(xs, ys)
    ensures Subsequence(xs, ys + zs)
  {
    if zs == [] {
      assert ys + zs == ys;
    } else {
      SubsequencePad(xs, ys, zs[..|zs| - 1]);
      assert (ys + zs)[..|ys + zs| - 1] == ys + zs[..|zs| - 1];
    }
  }

  lemma SubsequenceExtend<X>(xs: seq<X>, ys: seq<X>, p: nat)
    requires p < |ys| && Subsequence(xs, ys) && forall j :: p <= j < |ys| ==> ys[j] !in xs
    ensures Subsequence(xs + [ys[p]], ys)
  {
    SubsequenceTrim(xs, ys, p);
    SubsequenceSnoc(xs, ys[..p], ys[p]);
    assert ys[..p] + [ys[p]] + ys[p + 1..] == ys;
    SubsequencePad(xs + [ys[p]], ys[..p] + [ys[p]], ys[p + 1..]);
  }

  /** What precedes the element at position `i` comes from before position `i`. */
  lemma {:induction false} SubsequenceBefore<X>(xs: seq<X>, ys: seq<X>, i: nat)
    requires i < |ys| && Distinct(ys) && Subsequence(xs + [ys[i]], ys)
    ensures forall x :: x in xs ==> x in ys[..i]
    decreases |ys|
  {
    var all, init := xs + [ys[i]], ys[..|ys| - 1];
    assert all[..|xs|] == xs;
    if i == |ys| - 1 {
      if Subsequence(xs, init) {
        SubsequenceMembers(xs, init);
      } else {
        assert all[|xs|] in all && ys[i] !in init;
        SubsequenceMembers(all, init);
      }
    } else {
      assert init[i] == ys[i] && init[..i] == ys[..i];
      SubsequenceBefore(xs, init, i);
    }
  }

  /** The histories name the goroutines behind the rows and the messages. */
  ghost predicate History(s: State) {
    Stages(s) && RecordsMatch(s)
  }

  predicate Past(t: Thread) { t.stage == Inserted || t.stage == Done(true) }

  ghost predicate Stages(s: State) {
    && Distinct(s.inserted)
    && (forall id :: id in s.inserted <==> id in s.threads && Past(s.threads[id]))
    && (forall id :: id in s.sent ==> id in s.threads && s.threads[id].stage == Done(true))
  }

  ghost predicate RecordsMatch(s: State) {
    && s.rows == Mapped(RecordAt(s.threads), s.inserted)
    && s.published == Mapped(RecordAt(s.threads), s.sent)
  }

  function RecordAt(threads: map<nat, Thread>): nat -> Record {
    (id: nat) => if id in threads then threads[id].record else Record("", map[], map[])
  }

  lemma StagesKeep(s: State, a: Action)
    requires Stages(s) && Step(s, a).Some?
    ensures Stages(Step(s, a).value)
  {
  }

  /** Goroutines keep their records, so what they stand for is unchanged. */
  lemma SameRecords(before: map<nat, Thread>, after: map<nat, Thread>, ids: seq<nat>)
    requires forall id :: id in ids ==> id in before && id in after && after[id].record == before[id].record
    ensures Mapped(RecordAt(after), ids) == Mapped(RecordAt(before), ids)
  {
    forall i | 0 <= i < |ids| ensures RecordAt(after)(ids[i]) == RecordAt(before)(ids[i]) {
      assert ids[i] in ids;
    }
  }

  lemma MappedSnoc<X, Y>(f: X -> Y, xs: seq<X>, x: X)
    ensures Mapped(f, xs + [x]) == Mapped(f, xs) + [f(x)]
  {
  }

  lemma HistoryKeeps(s: State, a: Action)
    requires History(s) && Step(s, a).Some?
    ensures History(Step(s, a).value)
  {
    var next := Step(s, a).value;
    StagesKeep(s, a);
    SameRecords(s.threads, next.threads, s.inserted);
    SameRecords(s.threads, next.threads, s.sent);
    MappedSnoc(RecordAt(next.threads), s.inserted, a.id);
    MappedSnoc(RecordAt(next.threads), s.sent, a.id);
  }

  /** A row still waits for its message while a later row's message is out or may yet go out first. */
  ghost predicate Overtakable(s: State, i: nat, j: nat)
    requires Stages(s)
  {
    && i < j < |s.inserted|
    && s.threads[s.inserted[i]].stage == Inserted
    && (s.inserted[j] in s.sent || s.threads[s.inserted[j]].stage == Inserted)
  }

  /** Messages went out in row order, and none that may still go out can break it. */
  ghost predicate Ordered(s: State) {
    && History(s)
    && Subsequence(s.sent, s.inserted)
    && forall i, j :: !Overtakable(s, i, j)
  }

  /** Without a new row, an ordered state stays ordered. */
  lemma OrderedKeeps(s: State, a: Action)
    requires Ordered(s) && Step(s, a).Some? && !(a.Insert? && a.works)
    ensures Ordered(Step(s, a).value)
  {
    var next := Step(s, a).value;
    HistoryKeeps(s, a);
    if a.PublishRow? && a.delivered {
      PublishInOrder(s, a.id);
    }
    forall i: nat, j: nat ensures !Overtakable(next, i, j) {
      assert !Overtakable(s, i, j);
      if i < j < |s.inserted| {
        WaitingIsOlder(s, a, s.inserted[i]);
        WaitingIsOlder(s, a, s.inserted[j]);
      }
    }
  }

  /** Without a new row, what waits in the next state waited before, and what is out then waited or was
      out before. */
  lemma WaitingIsOlder(s: State, a: Action, id: nat)
    requires Stages(s) && Step(s, a).Some? && !(a.Insert? && a.works) && id in s.inserted
    ensures var next := Step(s, a).value;
            && next.inserted == s.inserted
            && (next.threads[id].stage == Inserted ==> s.threads[id].stage == Inserted)
            && (id in next.sent ==> id in s.sent || s.threads[id].stage == Inserted)
  {
  }

  lemma PublishInOrder(s: State, id: nat)
    requires Ordered(s) && id in s.threads && s.threads[id].stage == Inserted
    ensures Subsequence(s.sent + [id], s.inserted)
  {
    assert id in s.inserted;
    var p :| 0 <= p < |s.inserted| && s.inserted[p] == id;
    forall j | p <= j < |s.inserted| ensures s.inserted[j] !in s.sent {
      assert !Overtakable(s, p, j);
    }
    SubsequenceExtend(s.sent, s.inserted, p);
  }

  /** No further row is inserted. */
  function SettleStep(s: State, a: Action): Option<State> {
    if a.Insert? && a.works then None else Step(s, a)
  }

  function Settler(): (State, Action) -> Option<State> { (s, a) => SettleStep(s, a) }

  lemma OrderedSettles(s: State, more: seq<Action>)
    requires Ordered(s) && Runs.Run(Settler(), s, more).Some?
    ensures Ordered(Runs.Run(Settler(), s, more).value)
  {
    var inv := (t: State) => Ordered(t);
    forall t, a | inv(t) && Settler()(t, a).Some? ensures inv(Settler()(t, a).value) {
      OrderedKeeps(t, a);
    }
    assert Runs.Inductive(Settler(), inv);
    Runs.Keeps(Settler(), inv, s, more);
  }

  /** The later row's message goes out, if it is not out already, and then the earlier one's. */
  lemma Overtake(s: State, i: nat, j: nat) returns (more: seq<Action>, end: State)
    requires History(s) && Overtakable(s, i, j)
    ensures Runs.Run(Settler(), s, more) == Some(end) && end.inserted == s.inserted
    ensures s.inserted[j] in s.sent ==> end.sent == s.sent + [s.inserted[i]]
    ensures s.inserted[j] !in s.sent ==> end.sent == s.sent + [s.inserted[j], s.inserted[i]]
    ensures !Subsequence(end.sent, end.inserted)
  {
    var x, y := s.inserted[i], s.inserted[j];
    var mid := s;
    if y in s.sent {
      more := [PublishRow(x, true)];
      end := Step(s, PublishRow(x, true)).value;
      Runs.Path(Settler(), [s, end], more);
    } else {
      mid := Step(s, PublishRow(y, true)).value;
      more := [PublishRow(y, true), PublishRow(x, true)];
      end := Step(mid, PublishRow(x, true)).value;
      Runs.Path(Settler(), [s, mid, end], more);
      assert s.sent + [y] + [x] == s.sent + [y, x];
    }
    assert end.sent == mid.sent + [x] && y in mid.sent;
    if Subsequence(end.sent, s.inserted) {
      SubsequenceBefore(mid.sent, s.inserted, i);
      assert false;
    }
  }

  lemma HistoryReachable(acts: seq<Action>)
    requires Runs.Run(Stepper(), Init(), acts).Some?
    ensures History(Runs.Run(Stepper(), Init(), acts).value)
  {
    var inv := (s: State) => History(s);
    forall s, a | inv(s) && Stepper()(s, a).Some? ensures inv(Stepper()(s, a).value) {
      HistoryKeeps(s, a);
    }
    assert Runs.Inductive(Stepper(), inv);
    Runs.Keeps(Stepper(), inv, Init(), acts);
  }

  /** Exactly when messages keep the order of their rows: take any state of any interleaving that is in
      order so far. Whatever its goroutines do without inserting another row, order is kept if and only
      if no row that still waits for its message stands before one whose message is out or waits too. */
  lemma OrderKeptIff(acts: seq<Action>, s: State)
    requires Runs.Run(Stepper(), Init(), acts) == Some(s) && Subsequence(s.sent, s.inserted)
    ensures History(s)
    ensures (forall more, end :: Runs.Run(Settler(), s, more) == Some(end) ==> Subsequence(end.sent, end.inserted))
            <==> forall i, j :: !Overtakable(s, i, j)
  {
    HistoryReachable(acts);
    if i, j :| Overtakable(s, i, j) {
      var more, end := Overtake(s, i, j);
    } else {
      forall more, end | Runs.Run(Settler(), s, more) == Some(end) ensures Subsequence(end.sent, end.inserted) {
        OrderedSettles(s, more);
      }
    }
  }

  predicate Waits(s: State, id: nat) { id in s.threads && s.threads[id].stage == Inserted }

  /** At most one goroutine stands between its insert and its publish. */
  ghost predicate Alone(s: State) {
    forall a, b :: Waits(s, a) && Waits(s, b) ==> a == b
  }

  ghost function SoloStep(s: State, a: Action): Option<State> {
    match Step(s, a)
    case None => None
    case Some(next) => if Alone(next) then Some(next) else None
  }

  ghost function SoloStepper(): (State, Action) -> Option<State> { (s, a) => SoloStep(s, a) }

  /** The one waiting goroutine has the last row, so nothing stands behind it. */
  lemma LastIsNotOvertaken(s: State, id: nat)
    requires Stages(s) && Alone(s) && s.inserted != [] && s.inserted[|s.inserted| - 1] == id
    requires s.threads[id].stage == Inserted
    ensures forall i, j :: !Overtakable(s, i, j)
  {
    assert Waits(s, id);
    assert forall i :: 0 <= i < |s.inserted| && Waits(s, s.inserted[i]) ==> s.inserted[i] == id;
  }

  lemma SoloKeeps(s: State, a: Action)
    requires Ordered(s) && SoloStep(s, a).Some?
    ensures Ordered(SoloStep(s, a).value)
  {
    var next := Step(s, a).value;
    if a.Insert? && a.works {
      HistoryKeeps(s, a);
      SubsequencePad(s.sent, s.inserted, [a.id]);
      LastIsNotOvertaken(next, a.id);
    } else {
      OrderedKeeps(s, a);
    }
  }

  /** Saves that never overlap between insert and publish, in any other interleaving, publish a
      subsequence of the rows in insertion order. */
  lemma SoloKeepsOrder(acts: seq<Action>, s: State)
    requires Runs.Run(SoloStepper(), Init(), acts) == Some(s)
    ensures Subsequence(s.sent, s.inserted) && Subsequence(s.published, s.rows)
  {
    var inv := (t: State) => Ordered(t);
    forall t, a | inv(t) && SoloStepper()(t, a).Some? ensures inv(SoloStepper()(t, a).value) {
      SoloKeeps(t, a);
    }
    assert Runs.Inductive(SoloStepper(), inv);
    Runs.Keeps(SoloStepper(), inv, Init(), acts);
    SubsequenceMap(RecordAt(s.threads), s.sent, s.inserted);
  }

  /** Concurrent saves may publish in another order than they inserted. */
  lemma ConcurrentOrderMayDiffer(a: SaveJob, b: SaveJob) returns (acts: seq<Action>, s: State)
    requires RecordOf(a) != RecordOf(b)
    ensures Runs.Run(Stepper(), Init(), acts) == Some(s)
    ensures s.rows == [RecordOf(a), RecordOf(b)] && s.published == [RecordOf(b), RecordOf(a)]
    ensures !Subsequence(s.published, s.rows)
  {
    var x, y := RecordOf(a), RecordOf(b);
    acts := [Start(0, a), Start(1, b), Marshal(0, true), Marshal(1, true), Insert(0, true), Insert(1, true),
             PublishRow(1, true), PublishRow(0, true)];
    var states := Both(x, y);
    s := states[8];
    Starting(a, b);
    BothInsert(x, y);
    Overtaking(x, y);
    forall i | 0 <= i < 8 ensures Stepper()(states[i], acts[i]) == Some(states[i + 1]) {
    }
    assert s.published[..1] == [y] && s.rows[..1] == [x] && [y][..0] == [] && [x][..0] == [];
    assert !Subsequence([y], []) && !Subsequence(s.published, []);
    assert !Subsequence(s.published, [x]);
    Runs.Path(Stepper(), states, acts);
  }

  function Pair(x: Record, p: Stage, y: Record, q: Stage): map<nat, Thread> {
    map[0 := Thread(x, p), 1 := Thread(y, q)]
  }

  /** The states of a run in which the second save overtakes the first between insert and publish. */
  function Both(x: Record, y: Record): (states: seq<State>)
    ensures |states| == 9 && states[0] == Init()
  {
    [ Init(),
      State(map[0 := Thread(x, Started)], [], [], multiset{}, [], []),
      State(Pair(x, Started, y, Started), [], [], multiset{}, [], []),
      State(Pair(x, Marshalled, y, Started), [], [], multiset{}, [], []),
      State(Pair(x, Marshalled, y, Marshalled), [], [], multiset{}, [], []),
      State(Pair(x, Inserted, y, Marshalled), [x], [], multiset{}, [0], []),
      State(Pair(x, Inserted, y, Inserted), [x, y], [], multiset{}, [0, 1], []),
      State(Pair(x, Inserted, y, Done(true)), [x, y], [y], multiset{}, [0, 1], [1]),
      State(Pair(x, Done(true), y, Done(true)), [x, y], [y, x], multiset{}, [0, 1], [1, 0]) ]
  }

  lemma PairUpdate(x: Record, p: Stage, y: Record, q: Stage, next: Stage)
    ensures Pair(x, p, y, q)[0 := Thread(x, next)] == Pair(x, next, y, q)
    ensures Pair(x, p, y, q)[1 := Thread(y, next)] == Pair(x, p, y, next)
  {
  }

  lemma Starting(a: SaveJob, b: SaveJob)
    ensures var states := Both(RecordOf(a), RecordOf(b));
            && Step(states[0], Start(0, a)) == Some(states[1])
            && Step(states[1], Start(1, b)) == Some(states[2])
  {
    var states := Both(RecordOf(a), RecordOf(b));
    assert Step(states[0], Start(0, a)).value.threads == states[1].threads;
    assert Step(states[1], Start(1, b)).value.threads == states[2].threads;
  }

  lemma BothInsert(x: Record, y: Record)
    ensures var states := Both(x, y);
            && Step(states[2], Marshal(0, true)) == Some(states[3])
            && Step(states[3], Marshal(1, true)) == Some(states[4])
            && Step(states[4], Insert(0, true)) == Some(states[5])
            && Step(states[5], Insert(1, true)) == Some(states[6])
  {
    PairUpdate(x, Started, y, Started, Marshalled);
    PairUpdate(x, Marshalled, y, Started, Marshalled);
    PairUpdate(x, Marshalled, y, Marshalled, Inserted);
    PairUpdate(x, Inserted, y, Marshalled, Inserted);
    assert [] + [x] == [x] && [x] + [y] == [x, y] && [] + [0] == [0] && [0] + [1] == [0, 1];
  }

  lemma Overtaking(x: Record, y: Record)
    ensures var states := Both(x, y);
            && Step(states[6], PublishRow(1, true)) == Some(states[7])
            && Step(states[7], PublishRow(0, true)) == Some(states[8])
  {
    PairUpdate(x, Inserted, y, Inserted, Done(true));
    PairUpdate(x, Inserted, y, Done(true), Done(true));
    assert [] + [y] == [y] && [y] + [x] == [y, x] && [] + [1] == [1] && [1] + [0] == [1, 0];
  }
}
