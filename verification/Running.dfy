/** The commands of one sandbox that can be stopped. */
module Running {
  import opened Events
  import opened Utf8
  import Exec
  import Pumping

  class Sandbox {
    var running: set<string>

    /** The commands told to stop so far. */
    var cancelled: set<string>
    const bus: Pumping.EventSink

    constructor (bus: Pumping.EventSink)
      ensures this.bus == bus && running == {} && cancelled == {}
    {
      this.bus, running, cancelled := bus, {}, {};
    }

    method Track(id: string)
      modifies `running
      ensures running == old(running) + {id}
    {
      running := running + {id};
    }

    method Untrack(id: string)
      modifies `running
      ensures running == old(running) - {id}
    {
      running := running - {id};
    }

    /** Stops everything running: each command, in some order, is told of, by whom and why,
        and then told to stop. None is taken out here. */
    method KillAll(actor: string, reason: Bytes) returns (n: nat, ghost told: seq<string>)
      modifies `cancelled, bus
      ensures n == |running| == |told| && forall id :: id in told <==> id in running
      ensures cancelled == old(cancelled) + running
      ensures |bus.events| == |old(bus.events)| + n && bus.events[..|old(bus.events)|] == old(bus.events)
      ensures forall i :: 0 <= i < n ==>
                var e := bus.events[|old(bus.events)| + i];
                e.kind == Killed && e.execId == told[i] && e.byActor == actor && e.reason == reason
    {
      told := StopEach(actor, reason);
      n := |running|;
    }

    method StopEach(actor: string, reason: Bytes) returns (ghost told: seq<string>)
      modifies `cancelled, bus
      ensures |told| == |running| && forall id :: id in told <==> id in running
      ensures cancelled == old(cancelled) + running
      ensures bus.events == old(bus.events) + Notices(told, actor, reason)
    {
      hide Notices;
      told := [];
      NoNotices(actor, reason);
      var todo := running;
      while todo != {}
        invariant todo <= running && cancelled == old(cancelled) + (running - todo)
        invariant |told| + |todo| == |running| && forall id :: id in told <==> id in running - todo
        invariant bus.events == old(bus.events) + Notices(told, actor, reason)
      {
        var id :| id in todo;
        OneNotice(told, id, actor, reason);
        bus.Publish(Exec.KilledEvent(id, actor, reason));
        told := told + [id];
        cancelled := cancelled + {id};
        todo := todo - {id};
      }
    }
  }

  lemma NoNotices(actor: string, reason: Bytes)
    ensures Notices([], actor, reason) == []
  {
  }

  lemma OneNotice(ids: seq<string>, id: string, actor: string, reason: Bytes)
    ensures Notices(ids + [id], actor, reason) == Notices(ids, actor, reason) + [Exec.KilledEvent(id, actor, reason)]
  {
  }

  function Notices(ids: seq<string>, actor: string, reason: Bytes): seq<Event> {
    seq(|ids|, i requires 0 <= i < |ids| => Exec.KilledEvent(ids[i], actor, reason))
  }
}
