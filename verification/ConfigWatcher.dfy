/** config/watcher.go as the object it is: the debouncer replaced in place, the servers reloaded in a
    loop. Its timer steps are those of the state machine in `Watcher`. */
module ConfigWatcher {
  import opened Prelude
  import opened Templates
  import opened HttpSpec
  import W = Watcher
  import DS = DynamicServer

  /** An event, the time at which the loop handles it, and whether the runtime has got round to a timer
      that was due by then. */
  datatype Arrival = Arrival(e: W.FsEvent, at: nat, fires: bool)

  /** A reload goroutine: the timer that started it, its deadline, and when. */
  datatype Started = Started(id: nat, deadline: nat, at: nat)

  /** The last accepted event of a batch. */
  ghost predicate LastAccepted(path: string, batch: seq<Arrival>, i: nat) {
    i < |batch| && W.Accepts(path, batch[i].e) && forall j :: i < j < |batch| ==> !W.Accepts(path, batch[j].e)
  }

  function Accepted(path: string, batch: seq<Arrival>): nat {
    if batch == [] then 0
    else Accepted(path, batch[..|batch| - 1]) + if W.Accepts(path, batch[|batch| - 1].e) then 1 else 0
  }

  class ConfigWatcher {
    const configPath: string
    const servers: seq<DS.DynamicServer?>
    var timers: W.Timers
    var started: seq<Started>
    var closed: bool

    constructor (path: string, servers: seq<DS.DynamicServer?>)
      ensures configPath == path && this.servers == servers
      ensures timers == W.Timers(map[], None, 0) && started == [] && !closed && OneTimer()
    {
      configPath := path;
      this.servers := servers;
      timers := W.Timers(map[], None, 0);
      started := [];
      closed := false;
    }

    /** The only armed timer is the debouncer's; each timer starts at most one reload, in order and never
        before its deadline. */
    ghost predicate OneTimer()
      reads this
    {
      && (forall id :: id in timers.armed ==> timers.debouncer == Some(id))
      && (timers.debouncer.Some? ==> timers.debouncer.value == timers.next - 1)
      && (forall k :: 0 <= k < |started| ==>
            var x := started[k]; x.id < timers.next && x.id !in timers.armed && x.deadline <= x.at)
      && (forall k, l :: 0 <= k < l < |started| ==> started[k].id < started[l].id)
    }

    method ScheduleReload(now: nat)
      requires OneTimer()
      modifies this`timers
      ensures OneTimer()
      ensures timers == W.ArmDebouncer(W.StopDebouncer(old(timers)), now)
      ensures timers.armed == map[old(timers.next) := now + W.DEBOUNCE]
    {
      if timers.debouncer.Some? {
        timers := timers.(armed := timers.armed - {timers.debouncer.value});
      }
      var id := timers.next;
      timers := timers.(armed := timers.armed[id := now + W.DEBOUNCE], next := id + 1);
      timers := timers.(debouncer := Some(id));
    }

    /** The runtime: a timer that is due expires and starts its reload. */
    method Expire(at: nat)
      requires OneTimer()
      modifies this`timers, this`started
      ensures OneTimer()
      ensures forall id :: old(id in timers.armed && timers.armed[id] <= at) ==>
                && timers == old(timers).(armed := map[])
                && started == old(started) + [Started(id, old(timers.armed[id]), at)]
      ensures (forall id :: old(id in timers.armed) ==> at < old(timers.armed[id])) ==>
                timers == old(timers) && started == old(started)
    {
      if timers.debouncer.Some? {
        var id := timers.debouncer.value;
        if id in timers.armed && timers.armed[id] <= at {
          started := started + [Started(id, timers.armed[id], at)];
          timers := timers.(armed := timers.armed - {id});
        }
      }
    }

    /** The debouncer's timer has this deadline, and is armed or has started the latest reload. */
    ghost predicate Scheduled(deadline: nat)
      reads this
    {
      timers.debouncer.Some? &&
      var id := timers.debouncer.value;
      || timers.armed == map[id := deadline]
      || (timers.armed == map[] && started != []
          && started[|started| - 1].id == id && started[|started| - 1].deadline == deadline)
    }

    /** One event through the loop body: a write or creation of the watched file restarts the timer. */
    method WatchEvent(a: Arrival)
      requires OneTimer()
      modifies this`timers, this`started
      ensures OneTimer() && old(started) <= started && (!a.fires ==> started == old(started))
      ensures a.e.path == configPath && (W.Write in a.e.ops || W.Create in a.e.ops) ==>
                timers.next == old(timers.next) + 1 && Scheduled(a.at + W.DEBOUNCE)
      ensures !(a.e.path == configPath && (W.Write in a.e.ops || W.Create in a.e.ops)) ==>
                && (timers == old(timers) || timers == old(timers).(armed := map[]))
                && forall deadline :: old(Scheduled(deadline)) ==> Scheduled(deadline)
    {
      if a.fires {
        Expire(a.at);
      }
      if W.Accepts(configPath, a.e) {
        ScheduleReload(a.at);
      }
    }

    /** The loop body of `watchLoop` over a batch of events, each handled at its own time, while the timer
        runs on and may expire in between. Every accepted event takes a timer; the last one's, due 500 ms
        after that event, is armed or has started the latest reload; other events arm nothing. */
    method WatchEvents(batch: seq<Arrival>)
      requires OneTimer()
      modifies this`timers, this`started
      ensures OneTimer() && old(started) <= started
      ensures timers.next == old(timers.next) + Accepted(configPath, batch)
      ensures forall i: nat :: LastAccepted(configPath, batch, i) ==> Scheduled(batch[i].at + W.DEBOUNCE)
      ensures (forall i :: 0 <= i < |batch| ==> !W.Accepts(configPath, batch[i].e)) ==>
                timers == old(timers) || timers == old(timers).(armed := map[])
      ensures (forall i :: 0 <= i < |batch| ==> !batch[i].fires) ==> started == old(started)
    {
      var i := 0;
      ghost var last: Option<nat> := None;
      while i < |batch|
        invariant 0 <= i <= |batch| && OneTimer() && old(started) <= started
        invariant timers.next == old(timers.next) + Accepted(configPath, batch[..i])
        invariant last.Some? ==>
                    && last.value < i && W.Accepts(configPath, batch[last.value].e)
                    && (forall j :: last.value < j < i ==> !W.Accepts(configPath, batch[j].e))
                    && Scheduled(batch[last.value].at + W.DEBOUNCE)
        invariant last.None? ==>
                    && (timers == old(timers) || timers == old(timers).(armed := map[]))
                    && forall j :: 0 <= j < i ==> !W.Accepts(configPath, batch[j].e)
        invariant (forall j :: 0 <= j < i ==> !batch[j].fires) ==> started == old(started)
      {
        assert batch[..i + 1][..i] == batch[..i];
        WatchEvent(batch[i]);
        if W.Accepts(configPath, batch[i].e) {
          last := Some(i);
        }
        i := i + 1;
      }
      assert batch[..i] == batch;
      forall k: nat | LastAccepted(configPath, batch, k) ensures last == Some(k) {
        assert W.Accepts(configPath, batch[k].e);
      }
    }

    /** A parsed file reaches every server that is not nil; a file that does not parse changes none. */
    method ReloadConfig(parse: string -> Option<Config>, text: string, ghost engine: Engine)
      requires forall s :: s in servers && s != null ==> s.Valid(engine)
      modifies set s | s in servers && s != null
      ensures forall s :: s in servers && s != null ==> s.Valid(engine) && s.addr == old(s.addr)
      ensures forall s :: s in servers && s != null ==>
                s.config == match parse(text) { case Some(cfg) => cfg case None => old(s.config) }
      ensures parse(text).Some? ==> forall s :: s in servers && s != null ==> s.templates == map[]
    {
      match parse(text) {
        case None => return;
        case Some(cfg) =>
          var i := 0;
          while i < |servers|
            invariant 0 <= i <= |servers|
            invariant forall s :: s in servers && s != null ==> s.Valid(engine) && s.addr == old(s.addr)
            invariant forall j :: 0 <= j < i && servers[j] != null ==>
                        servers[j].config == cfg && servers[j].templates == map[]
            invariant forall s :: s in servers && s != null && s.config != cfg ==> s.config == old(s.config)
          {
            if servers[i] != null {
              servers[i].Reload(cfg);
            }
            i := i + 1;
          }
      }
    }

    /** Once `Stop` returns nothing is armed and the watcher is closed. */
    method Stop()
      requires OneTimer()
      modifies this`timers, this`closed
      ensures timers == W.StopDebouncer(old(timers)) && timers.armed == map[] && closed
    {
      if timers.debouncer.Some? {
        timers := timers.(armed := timers.armed - {timers.debouncer.value});
      }
      closed := true;
    }
  }
}
