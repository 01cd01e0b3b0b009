/**
  * snmpclient/snmp.go: the walk scheduler as a ticker loop with a stop channel and a wait group, and
  * the walks it makes.
  */
module Scheduler {
  import opened Prelude
  import T = Topics

  const SECOND := 1_000_000_000  // nanoseconds

  /** Two's complement wrap-around of a 64-bit signed integer. */
  function Wrap64(n: int): int {
    (n + 0x8000_0000_0000_0000) % 0x1_0000_0000_0000_0000 - 0x8000_0000_0000_0000
  }

  /** `time.Duration(c.config.Term) * time.Second`. */
  function Period(term: int): int { Wrap64(term * SECOND) }

  // ----- one walk ---------------------------------------------------------------------------

  datatype Pdu = Pdu(name: string, kind: string, value: string)

  /** What is published and stored for one operation. */
  datatype Batch = Batch(operation: string, source: string, results: seq<Pdu>)

  /** How a walk goes: no connection; broken off after some PDUs; or complete, and then whether its
      batch reaches the broker and whether its row goes in. */
  datatype WalkOutcome = NoConnection | BrokenOff(partial: seq<Pdu>) | Complete(pdus: seq<Pdu>, luck: Luck)

  datatype Luck = Luck(delivered: bool, inserted: bool)

  datatype WalkCall = WalkCall(target: string, outcome: WalkOutcome)

  /** What a walk leaves at the broker: its batch, on the topic of its own source. */
  function MessageOf(w: WalkCall): seq<(string, Batch)> {
    if w.outcome.Complete? && w.outcome.luck.delivered
    then [(T.SnmpTopic("walk", w.target), Batch("walk", w.target, w.outcome.pdus))] else []
  }

  function RowOf(w: WalkCall): seq<Batch> {
    if w.outcome.Complete? && w.outcome.luck.inserted then [Batch("walk", w.target, w.outcome.pdus)] else []
  }

  function Messages(walks: seq<WalkCall>): seq<(string, Batch)> {
    if walks == [] then [] else Messages(walks[..|walks| - 1]) + MessageOf(walks[|walks| - 1])
  }

  function Rows(walks: seq<WalkCall>): seq<Batch> {
    if walks == [] then [] else Rows(walks[..|walks| - 1]) + RowOf(walks[|walks| - 1])
  }

  /** One more walk adds its target, and what came through of its batch. */
  lemma AfterWalk(walks: seq<WalkCall>, w: WalkCall)
    ensures Targets(walks + [w]) == Targets(walks) + [w.target]
    ensures Messages(walks + [w]) == Messages(walks) + MessageOf(w)
    ensures Rows(walks + [w]) == Rows(walks) + RowOf(w)
  {
    assert (walks + [w])[..|walks|] == walks;
  }

  /** What a complete walk that came through sends: its target and exactly its PDUs. */
  predicate SentBy(w: WalkCall, m: (string, Batch)) {
    && w.outcome.Complete? && w.outcome.luck.delivered
    && m == (T.SnmpTopic("walk", w.target), Batch("walk", w.target, w.outcome.pdus))
  }

  predicate StoredBy(w: WalkCall, b: Batch) {
    w.outcome.Complete? && w.outcome.luck.inserted && b == Batch("walk", w.target, w.outcome.pdus)
  }

  /** `from` names, in order, the walks that left the outputs. */
  ghost predicate Traced<M>(walks: seq<WalkCall>, outs: seq<M>, left: (WalkCall, M) -> bool, from: seq<nat>) {
    && |from| == |outs|
    && (forall i :: 0 <= i < |from| ==> from[i] < |walks| && left(walks[from[i]], outs[i]))
    && (forall i, j :: 0 <= i < j < |from| ==> from[i] < from[j])
  }

  lemma TracedSnoc<M>(walks: seq<WalkCall>, w: WalkCall, outs: seq<M>, more: seq<M>,
                      left: (WalkCall, M) -> bool, from: seq<nat>)
    returns (longer: seq<nat>)
    requires Traced(walks, outs, left, from) && (more == [] || (|more| == 1 && left(w, more[0])))
    ensures Traced(walks + [w], outs + more, left, longer)
  {
    longer := if more == [] then from else from + [|walks|];
  }

  /** The messages and rows of a run are those of complete walks that came through, one each, in order. */
  lemma {:induction false} OutputsTraced(walks: seq<WalkCall>) returns (sent: seq<nat>, stored: seq<nat>)
    ensures Traced(walks, Messages(walks), SentBy, sent) && Traced(walks, Rows(walks), StoredBy, stored)
  {
    if walks == [] {
      sent, stored := [], [];
    } else {
      var init, last := walks[..|walks| - 1], walks[|walks| - 1];
      assert walks == init + [last];
      sent, stored := OutputsTraced(init);
      sent := TracedSnoc(init, last, Messages(init), MessageOf(last), SentBy, sent);
      stored := TracedSnoc(init, last, Rows(init), RowOf(last), StoredBy, stored);
    }
  }

  function Targets(walks: seq<WalkCall>): seq<string> {
    seq(|walks|, i requires 0 <= i < |walks| => walks[i].target)
  }

  /** `k` whole sweeps. */
  function Repeat(targets: seq<string>, k: nat): seq<string> {
    if k == 0 then [] else Repeat(targets, k - 1) + targets
  }

  /** The walks of `k` sweeps, by position: walk `p` of sweep `j` is of target `p`. */
  lemma {:induction false} RepeatAt(targets: seq<string>, k: nat, j: nat, p: nat)
    requires j < k && p < |targets|
    ensures |Repeat(targets, k)| == k * |targets|
    ensures j * |targets| + p < k * |targets| && Repeat(targets, k)[j * |targets| + p] == targets[p]
  {
    var n := |targets|;
    RepeatLength(targets, k - 1);
    assert k * n == (k - 1) * n + n;
    if j < k - 1 {
      RepeatAt(targets, k - 1, j, p);
    }
  }

  lemma {:induction false} RepeatLength(targets: seq<string>, k: nat)
    ensures |Repeat(targets, k)| == k * |targets|
  {
    if k == 0 {
    } else {
      RepeatLength(targets, k - 1);
      assert k * |targets| == (k - 1) * |targets| + |targets|;
    }
  }

  // ----- the client object ------------------------------------------------------------------

  datatype Wakeup = Tick(outcomes: seq<WalkOutcome>) | StopSeen

  /** How often the loop swept before it saw the stop channel. */
  function Sweeps(wakeups: seq<Wakeup>): nat {
    if wakeups == [] || wakeups[0].StopSeen? then 0 else 1 + Sweeps(wakeups[1..])
  }

  /** Every wake-up before the first sight of the stop channel is a sweep. */
  lemma {:induction false} SweepsUntilStop(wakeups: seq<Wakeup>)
    ensures var k := Sweeps(wakeups);
            && k <= |wakeups| && (k < |wakeups| ==> wakeups[k].StopSeen?)
            && forall i :: 0 <= i < k ==> wakeups[i].Tick?
  {
    if wakeups == [] || wakeups[0].StopSeen? {
    } else {
      SweepsUntilStop(wakeups[1..]);
      assert forall i :: 0 < i < |wakeups| ==> wakeups[i] == wakeups[1..][i - 1];
    }
  }

  lemma {:induction false} SweepsAre(wakeups: seq<Wakeup>, k: nat)
    requires k <= |wakeups| && (k < |wakeups| ==> wakeups[k].StopSeen?)
    requires forall i :: 0 <= i < k ==> wakeups[i].Tick?
    ensures Sweeps(wakeups) == k
  {
    if k == 0 {
    } else {
      assert forall i :: 0 < i < |wakeups| ==> wakeups[1..][i - 1] == wakeups[i];
      SweepsAre(wakeups[1..], k - 1);
    }
  }

  lemma Prefixes(before: seq<string>, targets: seq<string>)
    ensures before + targets[..0] == before && targets[..|targets|] == targets
  {
  }

  lemma Longer(before: seq<string>, targets: seq<string>, i: nat)
    requires i < |targets|
    ensures before + targets[..i] + [targets[i]] == before + targets[..i + 1]
  {
  }

  class SNMPClient {
    const term: int
    const targets: seq<string>
    const hasDb: bool
    var walks: seq<WalkCall>
    var published: seq<(string, Batch)>  // topic as it reaches the broker, and payload
    var stored: seq<Batch>

    constructor (term: int, targets: seq<string>, hasDb: bool)
      ensures this.term == term && this.targets == targets && this.hasDb == hasDb
      ensures walks == [] && published == [] && stored == []
    {
      this.term, this.targets, this.hasDb := term, targets, hasDb;
      walks, published, stored := [], [], [];
    }

    /** Publish the batch on the nested topic, and store it when there is a database, whether or not
        publishing worked; neither failure is reported. */
    method ProcessResults(operation: string, source: string, pdus: seq<Pdu>, luck: Luck)
      modifies this`published, this`stored
      ensures published == old(published) +
                if luck.delivered then [(T.SnmpTopic(operation, source), Batch(operation, source, pdus))] else []
      ensures stored == old(stored) + if hasDb && luck.inserted then [Batch(operation, source, pdus)] else []
    {
      var results := [];
      for i := 0 to |pdus|
        invariant results == pdus[..i]
      {
        results := results + [pdus[i]];
      }
      assert pdus[..|pdus|] == pdus;
      var data := Batch(operation, source, results);
      var kafkaTopic := "snmp." + operation + "." + T.SanitizeTopic(source);
      if luck.delivered {
        published := published + [(T.SanitizeTopic(kafkaTopic), data)];
      }
      if hasDb {
        if luck.inserted {
          stored := stored + [data];
        }
      }
    }

    /** All or nothing: a walk that breaks off publishes and stores none of the PDUs it had collected;
        a complete one sends and stores all of them, as far as broker and database take them. */
    method WalkV3(target: string, outcome: WalkOutcome) returns (ok: bool)
      modifies this
      ensures walks == old(walks) + [WalkCall(target, outcome)]
      ensures ok <==> outcome.Complete?
      ensures !ok ==> published == old(published) && stored == old(stored)
      ensures ok && outcome.luck.delivered ==>
                published == old(published) + [(T.SnmpTopic("walk", target), Batch("walk", target, outcome.pdus))]
      ensures ok && !outcome.luck.delivered ==> published == old(published)
      ensures ok && hasDb && outcome.luck.inserted ==> stored == old(stored) + [Batch("walk", target, outcome.pdus)]
      ensures ok && !(hasDb && outcome.luck.inserted) ==> stored == old(stored)
    {
      walks := walks + [WalkCall(target, outcome)];
      if outcome.NoConnection? {
        return false;
      }
      var incoming := if outcome.Complete? then outcome.pdus else outcome.partial;
      var pdus := [];
      for i := 0 to |incoming|
        invariant pdus == incoming[..i]
      {
        pdus := pdus + [incoming[i]];
      }
      assert incoming[..|incoming|] == incoming;
      if outcome.BrokenOff? {
        return false;
      }
      ProcessResults("walk", target, pdus, outcome.luck);
      return true;
    }

    ghost predicate InStep()
      reads this
    {
      published == Messages(walks) && stored == if hasDb then Rows(walks) else []
    }

    /** Every message sent and every row stored is that of one complete walk, in order. */
    ghost predicate OutputsOfWalks()
      reads this
    {
      && (exists sent :: Traced(walks, published, SentBy, sent))
      && (hasDb ==> exists rows :: Traced(walks, stored, StoredBy, rows))
    }

    lemma InStepIsTraced()
      requires InStep()
      ensures OutputsOfWalks()
    {
      var sent, rows := OutputsTraced(walks);
    }

    /** One walk keeps messages and rows in step with the walks made. */
    method WalkInStep(target: string, outcome: WalkOutcome)
      requires InStep()
      modifies this
      ensures InStep() && Targets(walks) == Targets(old(walks)) + [target]
    {
      AfterWalk(walks, WalkCall(target, outcome));
      var _ := WalkV3(target, outcome);
    }

    /** One tick: every target in order, whichever walks fail. */
    method Sweep(outcomes: seq<WalkOutcome>)
      requires |outcomes| == |targets| && InStep()
      modifies this
      ensures InStep()
      ensures Targets(walks) == Targets(old(walks)) + targets
    {
      ghost var before := Targets(walks);
      Prefixes(before, targets);
      for i := 0 to |targets|
        invariant InStep()
        invariant Targets(walks) == before + targets[..i]
      {
        Longer(before, targets, i);
        WalkInStep(targets[i], outcomes[i]);
      }
    }

    /** One more whole sweep. */
    method SweepAgain(outcomes: seq<WalkOutcome>, ghost before: seq<string>, ghost k: nat)
      requires |outcomes| == |targets| && InStep() && Targets(walks) == before + Repeat(targets, k)
      modifies this
      ensures InStep() && Targets(walks) == before + Repeat(targets, k + 1)
    {
      Assoc(before, Repeat(targets, k), targets);
      Sweep(outcomes);
    }

    /** The loop over the wake-ups its select receives: whole sweeps until the stop channel is seen. */
    method Loop(wakeups: seq<Wakeup>)
      requires InStep()
      requires forall i :: 0 <= i < |wakeups| && wakeups[i].Tick? ==> |wakeups[i].outcomes| == |targets|
      modifies this
      ensures InStep()
      ensures Targets(walks) == Targets(old(walks)) + Repeat(targets, Sweeps(wakeups))
    {
      ghost var before := Targets(walks);
      assert before == before + Repeat(targets, 0);
      var i := 0;
      while i < |wakeups| && wakeups[i].Tick?
        invariant 0 <= i <= |wakeups| && InStep()
        invariant forall j :: 0 <= j < i ==> wakeups[j].Tick?
        invariant Targets(walks) == before + Repeat(targets, i)
      {
        SweepAgain(wakeups[i].outcomes, before, i);
        i := i + 1;
      }
      SweepsAre(wakeups, i);
    }

    /** The scheduler goroutine: the targets are walked in whole sweeps, and only complete walks are
        published and stored, in order, with all their PDUs. A term that is not positive walks nothing. */
    method RunScheduler(wakeups: seq<Wakeup>)
      requires InStep()
      requires forall i :: 0 <= i < |wakeups| && wakeups[i].Tick? ==> |wakeups[i].outcomes| == |targets|
      modifies this
      ensures InStep() && OutputsOfWalks()
      ensures Targets(walks) == Targets(old(walks)) + Repeat(targets, if term <= 0 then 0 else Sweeps(wakeups))
    {
      if term > 0 {
        Loop(wakeups);
      }
      InStepIsTraced();
    }
  }
}
