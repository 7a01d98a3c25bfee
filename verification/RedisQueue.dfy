/** The shared state of one queue as an object, with the commands and the two Lua scripts as they update it in place. */
module RedisQueue {
  import opened Options
  import opened Store

  class Queue {
    var now: int
    var inflight: map<Handle, Hash>
    var visIndex: map<Handle, int>
    var redeliver: seq<Handle>
    var locks: map<string, Lock>
    var pending: map<Partition, set<int>>
    var watermark: map<Partition, int>
    var committed: map<Partition, int>

    ghost function View(): Store
      reads this
    {
      Store(now, inflight, visIndex, redeliver, locks, Offsets(pending, watermark, committed))
    }

    constructor ()
      ensures View() == EmptyStore()
    {
      now := 0;
      inflight, visIndex, redeliver, locks := map[], map[], [], map[];
      pending, watermark, committed := map[], map[], map[];
    }

    method AddPending(e: Slot)
      modifies this
      ensures View() == AddPendingOp(old(View()), e)
    {
      var members := if e.part in pending then pending[e.part] else {};
      pending := pending[e.part := members + {e.offset}];
    }

    /** ZREM on a pending set, the step both scripts share. */
    method RemovePending(e: Slot)
      modifies this
      ensures View() == RemovePendingOp(old(View()), e)
    {
      var members := if e.part in pending then pending[e.part] else {};
      pending := pending[e.part := members - {e.offset}];
    }

    method LeastPending(p: Partition) returns (least: Option<int>)
      ensures least == MinPending(View(), p)
    {
      if p !in pending || pending[p] == {} {
        return None;
      }
      least := Some(Minimum(pending[p]));
    }

    method SetWatermark(p: Partition, offset: int)
      modifies this
      ensures View() == SetWatermarkOp(old(View()), p, offset)
    {
      watermark := watermark[p := offset];
    }

    method CommitOffset(p: Partition, offset: int)
      modifies this
      ensures View() == CommitOp(old(View()), p, offset)
    {
      committed := committed[p := offset];
    }

    method AcquireFIFOLock(group: string, h: Handle, ttl: int) returns (acquired: bool)
      modifies this
      ensures (View(), acquired) == AcquireOp(old(View()), group, h, ttl)
    {
      acquired := group !in locks;
      if acquired {
        locks := locks[group := Lock(h, now + ttl)];
      }
    }

    /** The compare-and-delete on the group's lock, the step both scripts share. */
    method ReleaseFIFOLock(group: string, h: Handle)
      modifies this
      ensures View() == old(View()).(locks := Released(old(locks), group, h))
    {
      if group != "" {
        if group in locks && locks[group].holder == h {
          locks := locks - {group};
        }
      }
    }

    method PutInFlight(h: Handle, fields: InFlight, timeout: int)
      modifies this
      ensures View() == PutInFlightOp(old(View()), h, fields, timeout)
    {
      inflight := inflight[h := Hash(fields, now + timeout + HASH_GRACE)];
      visIndex := visIndex[h := now + timeout];
    }

    method GetInFlight(h: Handle) returns (fields: Option<InFlight>)
      ensures fields == Loaded(View(), h)
    {
      fields := if h in inflight then Some(inflight[h].fields) else None;
    }

    method ExtendVisibility(h: Handle, timeout: int) returns (found: bool)
      modifies this
      ensures found == (h in old(inflight))
      ensures View() == if found then SetVisibleOp(old(View()), h, timeout) else old(View())
    {
      found := h in inflight;
      if found {
        visIndex := visIndex[h := now + timeout];
      }
    }

    method PopRedeliverable() returns (h: Option<Handle>)
      modifies this
      ensures (View(), h) == PopOp(old(View()))
    {
      if |redeliver| == 0 {
        return None;
      }
      h := Some(redeliver[0]);
      redeliver := redeliver[1..];
    }

    method PushRedeliverable(h: Handle)
      modifies this
      ensures View() == PushOp(old(View()), h)
    {
      redeliver := redeliver + [h];
    }

    /** ack.lua. */
    method Ack(h: Handle) returns (outcome: AckOutcome)
      modifies this
      ensures (View(), outcome) == AckOp(old(View()), h)
    {
      if h !in inflight {
        return NotFound;
      }
      var m := inflight[h].fields;
      visIndex := visIndex - {h};
      RemovePending(m.slot);
      inflight := inflight - {h};
      ReleaseFIFOLock(m.group, h);
      outcome := Acked;
    }

    /** reap.lua. */
    method Reap(h: Handle, maxReceive: int) returns (outcome: ReapOutcome)
      modifies this
      ensures (View(), outcome) == ReapOp(old(View()), h, maxReceive)
    {
      if h !in visIndex {
        return Gone;
      }
      visIndex := visIndex - {h};
      if h !in inflight {
        return Gone;
      }
      var m := inflight[h].fields;
      ReleaseFIFOLock(m.group, h);
      if m.receiveCount >= maxReceive {
        RemovePending(m.slot);
        inflight := inflight - {h};
        return DeadLetter(m);
      }
      inflight := inflight[h := inflight[h].(fields := m.(receiveCount := m.receiveCount + 1))];
      redeliver := redeliver + [h];
      outcome := Redeliver(m.receiveCount + 1);
    }
  }
}
