/** metrics/metrics.go `RecordKafkaPublish` and kafka/kafka.go `Publish`, one call at a time: the
    collectors updated in place, and what one call leaves in them. */
module Metrics {
  import opened Prelude
  import opened Publish
  import T = Topics

  class Collectors {
    var total: map<(string, Status), nat>
    var durations: map<string, seq<nat>>

    function Count(topic: string, status: Status): nat
      reads this
    {
      if (topic, status) in total then total[(topic, status)] else 0
    }

    function Seen(topic: string): seq<nat>
      reads this
    {
      if topic in durations then durations[topic] else []
    }

    /** Between calls every topic's counters add up to its observations. */
    ghost predicate Balanced()
      reads this
    {
      forall topic :: Count(topic, Success) + Count(topic, Failed) + Count(topic, TimedOut) == |Seen(topic)|
    }

    constructor ()
      ensures Balanced()
      ensures forall topic, status :: Count(topic, status) == 0
    {
      total, durations := map[], map[];
    }

    method RecordKafkaPublish(topic: string, status: Status, took: nat)
      requires Balanced()
      modifies this
      ensures Balanced()
      ensures forall t, st :: Count(t, st) == old(Count(t, st)) + (if (t, st) == (topic, status) then 1 else 0)
      ensures forall t :: Seen(t) == old(Seen(t)) + (if t == topic then [took] else [])
    {
      total := total[(topic, status) := Count(topic, status) + 1];
      durations := durations[topic := Seen(topic) + [took]];
      forall t ensures Count(t, Success) + Count(t, Failed) + Count(t, TimedOut) == |Seen(t)| {
        assert old(Count(t, Success) + Count(t, Failed) + Count(t, TimedOut) == |Seen(t)|);
        assert forall st :: Count(t, st) == old(Count(t, st)) + if (t, st) == (topic, status) then 1 else 0;
        assert status == Success || status == Failed || status == TimedOut;
      }
    }
  }

  /** How the select ends: the promise's result, or the timer. */
  datatype Verdict = Result(acked: bool) | Timer

  class KafkaPublisher {
    const metrics: Collectors

    constructor (metrics: Collectors)
      ensures this.metrics == metrics
    {
      this.metrics := metrics;
    }

    /** `Publish` for a call whose select ends with `verdict` after `took` milliseconds. It returns nil
        exactly when the record was acknowledged in time, and counts the verdict and observes it once,
        under the sanitised topic; data that does not marshal leaves no trace. */
    method Publish(topic: string, marshals: bool, verdict: Verdict, took: nat) returns (ok: bool)
      requires metrics.Balanced()
      modifies metrics
      ensures metrics.Balanced()
      ensures ok <==> marshals && verdict == Result(true)
      ensures !marshals ==> metrics.total == old(metrics.total) && metrics.durations == old(metrics.durations)
      ensures marshals ==> forall t :: t != T.SanitizeTopic(topic) ==>
                && metrics.Seen(t) == old(metrics.Seen(t))
                && forall st :: metrics.Count(t, st) == old(metrics.Count(t, st))
      ensures marshals ==> metrics.Seen(T.SanitizeTopic(topic)) == old(metrics.Seen(T.SanitizeTopic(topic))) + [took]
      ensures marshals ==> forall st ::
                metrics.Count(T.SanitizeTopic(topic), st) == old(metrics.Count(T.SanitizeTopic(topic), st)) +
                match verdict {
                  case Result(true) => if st == Success then 1 else 0
                  case Result(false) => if st == Failed then 1 else 0
                  case Timer => if st == TimedOut then 1 else 0
                }
    {
      var sanitizedTopic := T.SanitizeTopic(topic);
      if !marshals {
        return false;
      }
      match verdict {
        case Result(acked) =>
          if !acked {
            metrics.RecordKafkaPublish(sanitizedTopic, Failed, took);
            return false;
          }
          metrics.RecordKafkaPublish(sanitizedTopic, Success, took);
          return true;
        case Timer =>
          metrics.RecordKafkaPublish(sanitizedTopic, TimedOut, took);
          return false;
      }
    }
  }
}
