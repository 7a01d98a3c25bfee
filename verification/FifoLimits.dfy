/** Runs in which the lock of a group does not do what it is for: it keeps the time to live it was taken with. */
module FifoLimits {
  import opened Options
  import opened Store
  import opened Protocol
  import opened Frames
  import opened FifoInFlight

  const TIMEOUT := 10
  const GROUP := "g"

  function Grouped(offset: int): InFlight {
    InFlight(Slot(Partition("0", 0), offset), "t", GROUP, "b", 1)
  }

  /** Two messages of one group are in hand, and nothing was ever acked or dead-lettered. */
  predicate BothInFlight(s: Sys, h: Handle, k: Handle) {
    && h != k && InHand(s, h) && InHand(s, k) && GroupOf(s, h) == GroupOf(s, k)
    && s.hist.tally.acks == multiset{} && s.hist.tally.dlqs == multiset{}
  }

  /** At every hand-out of the run the message holds its group's lock. */
  ghost predicate HandsOutUnderLock(s: Sys, run: seq<Step>) {
    |run| > 0 ==>
      && HandsOutUnderLock(s, run[..|run| - 1])
      && UnderLock(Exec(s, run[..|run| - 1]), run[|run| - 1])
  }

  predicate UnderLock(s: Sys, a: Step) {
    a.Receive? && a.r.Deliver? && a.pid in s.procs && s.procs[a.pid].Ready? ==> HoldsLockUntil(s, s.procs[a.pid].h, s.st.now + 1)
  }

  lemma UnderLockSnoc(s: Sys, run: seq<Step>, a: Step)
    ensures HandsOutUnderLock(s, run + [a]) <==> HandsOutUnderLock(s, run) && UnderLock(Exec(s, run), a)
  {
    assert (run + [a])[..|run|] == run;
  }

  lemma {:induction false} UnderLockConcat(s: Sys, a: seq<Step>, b: seq<Step>)
    requires HandsOutUnderLock(s, a) && HandsOutUnderLock(Exec(s, a), b)
    ensures HandsOutUnderLock(s, a + b)
    decreases |b|
  {
    if |b| == 0 {
      assert a + b == a;
    } else {
      var before, last := b[..|b| - 1], b[|b| - 1];
      assert b == before + [last] && a + b == a + before + [last];
      UnderLockSnoc(Exec(s, a), before, last);
      UnderLockConcat(s, a, before);
      ExecConcat(s, a, before);
      UnderLockSnoc(s, a + before, last);
    }
  }

  lemma {:induction false} NothingHandedOut(s: Sys, run: seq<Step>)
    requires forall k :: 0 <= k < |run| ==> !(run[k].Receive? && run[k].r.Deliver?)
    ensures HandsOutUnderLock(s, run)
  {
    if |run| > 0 {
      NothingHandedOut(s, run[..|run| - 1]);
    }
  }

  predicate NobodyChangesVisibility(run: seq<Step>) {
    forall k :: 0 <= k < |run| ==> !run[k].Client?
  }

  lemma StoredState(s: Sys, pid: Pid, offset: int, h: Handle)
    requires Idle(s, pid) && h !in s.hist.ledger.issued
    ensures
      var f := Grouped(offset);
      var b := Next(Next(s, Receive(pid, Track(f))), Receive(pid, Put(h, TIMEOUT)));
      && b.procs == s.procs[pid := Stored(h, f)]
      && b.st == PutInFlightOp(AddPendingOp(s.st, f.slot), h, f, TIMEOUT) && b.maxReceive == s.maxReceive
      && b.hist == s.hist.(ledger := b.hist.ledger) && b.hist.ledger.issued == s.hist.ledger.issued[h := f.slot]
  {
    var a := Next(s, Receive(pid, Track(Grouped(offset))));
    assert a.procs == s.procs[pid := Tracked(Grouped(offset))];
  }

  lemma LockTaken(b: Sys, pid: Pid, h: Handle, f: InFlight)
    requires pid in b.procs && b.procs[pid] == Stored(h, f) && f.group == GROUP && GROUP !in b.st.locks
    ensures
      var t := Next(b, Receive(pid, LockFresh(TIMEOUT)));
      && t.procs == b.procs[pid := Ready(h, f, Some(|b.hist.leases.tenures|))] && t.maxReceive == b.maxReceive
      && t.st == b.st.(locks := b.st.locks[GROUP := Lock(h, b.st.now + TIMEOUT)])
      && t.hist == b.hist.(leases := t.hist.leases)
  {
  }

  /** The state after tracking, storing and locking a fresh record of a group nobody holds. */
  lemma LockedState(s: Sys, pid: Pid, offset: int, h: Handle)
    requires Idle(s, pid) && h !in s.hist.ledger.issued && GROUP !in s.st.locks
    ensures
      var f := Grouped(offset);
      var t := Next(Next(Next(s, Receive(pid, Track(f))), Receive(pid, Put(h, TIMEOUT))), Receive(pid, LockFresh(TIMEOUT)));
      t.procs == s.procs[pid := Ready(h, f, Some(|s.hist.leases.tenures|))] && HandedOver(s, offset, h, t)
  {
    var f := Grouped(offset);
    StoredState(s, pid, offset, h);
    var b := Next(Next(s, Receive(pid, Track(f))), Receive(pid, Put(h, TIMEOUT)));
    LockTaken(b, pid, h, f);
  }

  predicate HandedOver(s: Sys, offset: int, h: Handle, t: Sys) {
    && t.st.locks == s.st.locks[GROUP := Lock(h, s.st.now + TIMEOUT)]
    && t.st.inflight == s.st.inflight[h := Hash(Grouped(offset), s.st.now + TIMEOUT + HASH_GRACE)]
    && t.st.visIndex == s.st.visIndex[h := s.st.now + TIMEOUT]
    && t.st.redeliver == s.st.redeliver && t.maxReceive == s.maxReceive
    && t.st.now == s.st.now && t.hist.tally == s.hist.tally && t.hist.delivered == s.hist.delivered
    && t.hist.ledger.issued == s.hist.ledger.issued[h := Grouped(offset).slot]
  }

  lemma TakeLock(s: Sys, pid: Pid, offset: int, h: Handle) returns (run: seq<Step>)
    requires Idle(s, pid) && h !in s.hist.ledger.issued && GROUP !in s.st.locks
    ensures
      var t := Exec(s, run);
      && t.procs == s.procs[pid := Ready(h, Grouped(offset), Some(|s.hist.leases.tenures|))]
      && HandedOver(s, offset, h, t)
    ensures forall k :: 0 <= k < |run| ==> run[k].Receive? && !run[k].r.Deliver?
  {
    var f := Grouped(offset);
    var track, put, lock := Receive(pid, Track(f)), Receive(pid, Put(h, TIMEOUT)), Receive(pid, LockFresh(TIMEOUT));
    LockedState(s, pid, offset, h);
    ExecTwo(s, track, put);
    ExecAppend(s, [track, put], lock);
    run := [track, put] + [lock];
  }

  lemma HandOutLocked(s: Sys, offset: int, h: Handle) returns (run: seq<Step>)
    requires s.procs == map[] && h !in s.hist.ledger.issued && GROUP !in s.st.locks
    ensures
      var t := Exec(s, run);
      t.procs == map[] && HandedOver(s, offset, h, t.(hist := t.hist.(delivered := s.hist.delivered)))
      && t.hist.delivered == s.hist.delivered + multiset{h}
    ensures HandsOutUnderLock(s, run) && NobodyChangesVisibility(run)
  {
    var lock := TakeLock(s, 0, offset, h);
    NothingHandedOut(s, lock);
    ExecAppend(s, lock, Receive(0, Deliver));
    run := lock + [Receive(0, Deliver)];
    assert Exec(s, run).procs == map[];
  }

  /** A call that is slow to return hands its message out although another handle holds the group's lock by then. */
  lemma SlowCallOutlivesItsLock() returns (run: seq<Step>)
    ensures
      var s := Exec(Init(3, false), run);
      && 0 in s.procs && s.procs[0].Ready? && s.procs[0].h == 1 && s.procs[0].fields.group == GROUP
      && GROUP in s.st.locks && s.st.locks[GROUP].holder == 2
  {
    var s0 := Init(3, false);
    var first := TakeLock(s0, 0, 0, 1);
    var s1 := Exec(s0, first);
    ExecTwo(s1, Tick(TIMEOUT), ExpireLock(GROUP));
    var pause := [Tick(TIMEOUT), ExpireLock(GROUP)];
    var s2 := Exec(s1, pause);
    var second := TakeLock(s2, 1, 1, 2);
    run := first + pause + second;
    ExecConcat(s0, first, pause);
    ExecConcat(s0, first + pause, second);
  }

  lemma VisibilityChanged(s: Sys, h: Handle)
    requires s.procs == map[] && h in s.st.inflight
    ensures Next(Next(s, Client(0, CheckChange(h))), Client(0, Change(1000)))
      == s.(st := s.st.(visIndex := s.st.visIndex[h := s.st.now + 1000]))
  {
    var a := Next(s, Client(0, CheckChange(h)));
    assert a.procs == map[0 := Changing(h)];
    assert a.procs - {0} == map[];
  }

  /** Extending a message's visibility, until after its lock's time to live has passed. */
  lemma OutliveLock(s: Sys, h: Handle) returns (run: seq<Step>)
    requires s.procs == map[] && h in s.st.inflight && GROUP in s.st.locks
    requires s.st.locks[GROUP].expiresAt == s.st.now + TIMEOUT
    ensures
      var t := Exec(s, run);
      && t.procs == map[] && GROUP !in t.st.locks && t.st.inflight == s.st.inflight
      && t.st.now == s.st.now + TIMEOUT && t.st.visIndex == s.st.visIndex[h := s.st.now + 1000]
      && t.hist.tally == s.hist.tally && t.hist.delivered == s.hist.delivered && t.hist.ledger == s.hist.ledger
  {
    var check, change := Client(0, CheckChange(h)), Client(0, Change(1000));
    ExecTwo(s, check, change);
    VisibilityChanged(s, h);
    ExecAppend(s, [check, change], Tick(TIMEOUT));
    ExecAppend(s, [check, change] + [Tick(TIMEOUT)], ExpireLock(GROUP));
    run := [check, change] + [Tick(TIMEOUT)] + [ExpireLock(GROUP)];
  }

  /**
   ChangeMessageVisibility moves a message's visibility deadline but not its group's lock. Once the lock's time to live
   is over the next message of the group is handed out while the first is still in flight and invisible.
   */
  lemma ExtendedMessageLosesItsLock() returns (run: seq<Step>)
    ensures BothInFlight(Exec(Init(3, false), run), 1, 2)
  {
    var s0 := Init(3, false);
    var first := HandOutLocked(s0, 0, 1);
    var s1 := Exec(s0, first);
    var outlive := OutliveLock(s1, 1);
    var s2 := Exec(s1, outlive);
    var second := HandOutLocked(s2, 1, 2);
    run := first + outlive + second;
    ExecConcat(s0, first, outlive);
    ExecConcat(s0, first + outlive, second);
  }

  /** A sweep of the one message, with nothing else going on. */
  lemma SweepOne(s: Sys, h: Handle) returns (run: seq<Step>)
    requires s.procs == map[] && h in s.st.inflight && h in s.st.visIndex && s.st.visIndex[h] <= s.st.now
    requires s.st.inflight[h].fields.receiveCount < s.maxReceive
    ensures
      var t := Exec(s, run);
      && t.procs == map[] && t.st == ReapOp(s.st, h, s.maxReceive).0 && t.hist.delivered == s.hist.delivered
      && t.hist.ledger == s.hist.ledger && t.hist.tally.acks == s.hist.tally.acks && t.hist.tally.dlqs == s.hist.tally.dlqs
    ensures HandsOutUnderLock(s, run) && NobodyChangesVisibility(run)
  {
    var begin, reap := Reaper(0, BeginSweep([h])), Reaper(0, RunReap);
    assert h in [h] && forall x :: x in [h] ==> x == h;
    ExecTwo(s, begin, reap);
    var a := Next(s, begin);
    assert 0 in a.procs && a.procs[0] == Sweeping([h]);
    ExecAppend(s, [begin, reap], reap);
    run := [begin, reap] + [reap];
    NothingHandedOut(s, run);
    assert Exec(s, run).procs == map[];
  }

  /** Redelivery with a pause of one tick between taking the lock and moving the deadline. */
  function LateRedelivery(): seq<Step> {
    [Receive(0, Pop), Receive(0, LoadPopped)] + [Receive(0, LockPopped(TIMEOUT)), Tick(1)]
    + [Receive(0, CheckPopped), Receive(0, ExtendPopped(TIMEOUT))]
  }

  lemma PoppedUnderLock(s: Sys, h: Handle)
    requires s.procs == map[] && s.st.redeliver == [h] && h in s.st.inflight
    requires s.st.inflight[h].fields.group == GROUP && GROUP !in s.st.locks
    ensures
      var a := Next(Next(s, Receive(0, Pop)), Receive(0, LoadPopped));
      var t := Next(Next(a, Receive(0, LockPopped(TIMEOUT))), Tick(1));
      && t.procs == map[0 := Cleared(h, s.st.inflight[h].fields, Some(|s.hist.leases.tenures|))]
      && t.st == s.st.(now := s.st.now + 1, redeliver := [], locks := s.st.locks[GROUP := Lock(h, s.st.now + TIMEOUT)])
      && t.hist == s.hist.(leases := t.hist.leases)
  {
    var a := Next(s, Receive(0, Pop));
    assert 0 in a.procs && a.procs[0] == Popped(h);
    var b := Next(a, Receive(0, LoadPopped));
    assert 0 in b.procs && b.procs[0] == Loaded(h, s.st.inflight[h].fields);
  }

  function LateState(s: Sys): Sys {
    Next(Next(Next(Next(s, Receive(0, Pop)), Receive(0, LoadPopped)), Receive(0, LockPopped(TIMEOUT))), Tick(1))
  }

  lemma LateRun(s: Sys)
    ensures Exec(s, LateRedelivery()) == Next(Next(LateState(s), Receive(0, CheckPopped)), Receive(0, ExtendPopped(TIMEOUT)))
  {
    var lock, tick := Receive(0, LockPopped(TIMEOUT)), Tick(1);
    var s1 := Exec(s, [Receive(0, Pop), Receive(0, LoadPopped)]);
    ExecTwo(s, Receive(0, Pop), Receive(0, LoadPopped));
    ExecTwo(s1, lock, tick);
    ExecConcat(s, [Receive(0, Pop), Receive(0, LoadPopped)], [lock, tick]);
    ExecTwo(LateState(s), Receive(0, CheckPopped), Receive(0, ExtendPopped(TIMEOUT)));
    ExecConcat(s, [Receive(0, Pop), Receive(0, LoadPopped)] + [lock, tick],
               [Receive(0, CheckPopped), Receive(0, ExtendPopped(TIMEOUT))]);
  }

  lemma CheckedAndExtended(t: Sys, h: Handle, f: InFlight, ticket: Ticket)
    requires t.procs == map[0 := Cleared(h, f, ticket)] && h in t.st.inflight
    ensures
      var u := Next(Next(t, Receive(0, CheckPopped)), Receive(0, ExtendPopped(TIMEOUT)));
      && u.procs == map[0 := Ready(h, f, ticket)] && u.hist == t.hist
      && u.st == t.st.(visIndex := t.st.visIndex[h := t.st.now + TIMEOUT])
  {
  }

  lemma ExtendedLate(s: Sys, h: Handle)
    requires s.procs == map[] && s.st.redeliver == [h] && h in s.st.inflight
    requires s.st.inflight[h].fields.group == GROUP && GROUP !in s.st.locks
    ensures
      var t := Exec(s, LateRedelivery());
      && t.procs == map[0 := Ready(h, s.st.inflight[h].fields, Some(|s.hist.leases.tenures|))]
      && t.st == s.st.(now := s.st.now + 1, redeliver := [], locks := s.st.locks[GROUP := Lock(h, s.st.now + TIMEOUT)],
                       visIndex := s.st.visIndex[h := s.st.now + 1 + TIMEOUT])
      && t.hist == s.hist.(leases := t.hist.leases)
  {
    PoppedUnderLock(s, h);
    var t := LateState(s);
    CheckedAndExtended(t, h, s.st.inflight[h].fields, t.procs[0].ticket);
    LateRun(s);
  }

  lemma RedeliverLate(s: Sys, h: Handle) returns (run: seq<Step>)
    requires s.procs == map[] && s.st.redeliver == [h] && h in s.st.inflight
    requires s.st.inflight[h].fields.group == GROUP && GROUP !in s.st.locks
    ensures
      var t := Exec(s, run);
      && t.procs == map[]
      && t.st == s.st.(now := s.st.now + 1, redeliver := [], locks := s.st.locks[GROUP := Lock(h, s.st.now + TIMEOUT)],
                       visIndex := s.st.visIndex[h := s.st.now + 1 + TIMEOUT])
      && t.hist.ledger == s.hist.ledger && t.hist.tally == s.hist.tally
      && t.hist.delivered == s.hist.delivered + multiset{h}
    ensures HandsOutUnderLock(s, run) && NobodyChangesVisibility(run)
  {
    ExtendedLate(s, h);
    var deliver := Receive(0, Deliver);
    ExecAppend(s, LateRedelivery(), deliver);
    NothingHandedOut(s, LateRedelivery());
    run := LateRedelivery() + [deliver];
    assert run[..|run| - 1] == LateRedelivery();
    assert Exec(s, run).procs == map[];
  }

  lemma WaitForLock(s: Sys) returns (run: seq<Step>)
    requires GROUP in s.st.locks && s.st.locks[GROUP].expiresAt == s.st.now + TIMEOUT - 1
    ensures
      var t := Exec(s, run);
      && t.procs == s.procs && t.st == s.st.(now := s.st.now + TIMEOUT - 1, locks := s.st.locks - {GROUP})
      && t.hist == s.hist.(leases := t.hist.leases)
    ensures HandsOutUnderLock(s, run) && NobodyChangesVisibility(run)
  {
    run := [Tick(TIMEOUT - 1), ExpireLock(GROUP)];
    ExecTwo(s, Tick(TIMEOUT - 1), ExpireLock(GROUP));
    NothingHandedOut(s, run);
  }

  lemma Joined(s: Sys, a: seq<Step>, b: seq<Step>)
    requires HandsOutUnderLock(s, a) && HandsOutUnderLock(Exec(s, a), b)
    requires NobodyChangesVisibility(a) && NobodyChangesVisibility(b)
    ensures Exec(s, a + b) == Exec(Exec(s, a), b)
    ensures HandsOutUnderLock(s, a + b) && NobodyChangesVisibility(a + b)
  {
    ExecConcat(s, a, b);
    UnderLockConcat(s, a, b);
  }

  /** What the history of t has in common with that of s. */
  predicate SameRecord(s: Sys, t: Sys) {
    t.hist.ledger == s.hist.ledger && t.hist.tally.acks == s.hist.tally.acks && t.hist.tally.dlqs == s.hist.tally.dlqs
  }

  lemma SweepWhenDue(s: Sys, h: Handle) returns (run: seq<Step>, t: Sys)
    requires s.procs == map[] && s.st.redeliver == [] && h in s.st.inflight && s.st.inflight[h].fields.group == GROUP
    requires h in s.st.visIndex && s.st.visIndex[h] == s.st.now + TIMEOUT && s.st.inflight[h].fields.receiveCount < s.maxReceive
    requires GROUP in s.st.locks && s.st.locks[GROUP].holder == h
    ensures t == Exec(s, run) && t.procs == map[] && GROUP !in t.st.locks && t.st.redeliver == [h]
    ensures h in t.st.inflight && t.st.inflight[h].fields.group == GROUP
    ensures t.hist.delivered == s.hist.delivered && SameRecord(s, t)
    ensures HandsOutUnderLock(s, run) && NobodyChangesVisibility(run)
  {
    var tick := [Tick(TIMEOUT)];
    ExecOne(s, tick[0]);
    NothingHandedOut(s, tick);
    var sweep := SweepOne(Exec(s, tick), h);
    Joined(s, tick, sweep);
    run := tick + sweep;
    t := Exec(s, run);
  }

  lemma RedeliverAndWait(s: Sys, h: Handle) returns (run: seq<Step>, t: Sys)
    requires s.procs == map[] && s.st.redeliver == [h] && h in s.st.inflight
    requires s.st.inflight[h].fields.group == GROUP && GROUP !in s.st.locks
    ensures t == Exec(s, run) && t.procs == map[] && GROUP !in t.st.locks && IsGrouped(t, h) && GroupOf(t, h) == GROUP
    ensures h in t.st.visIndex && t.st.visIndex[h] == t.st.now + 1
    ensures t.hist.delivered == s.hist.delivered + multiset{h} && SameRecord(s, t)
    ensures HandsOutUnderLock(s, run) && NobodyChangesVisibility(run)
  {
    var late := RedeliverLate(s, h);
    var wait := WaitForLock(Exec(s, late));
    Joined(s, late, wait);
    run := late + wait;
    t := Exec(s, run);
  }

  /**
   A third way, without anybody changing a visibility and with every hand-out under the lock of its own message: a
   redelivery takes the lock first and sets the deadline later, so the lock runs out first.
   */
  lemma LateExtensionOutlivesItsLock() returns (run: seq<Step>)
    ensures BothInFlight(Exec(Init(3, false), run), 1, 2)
    ensures HandsOutUnderLock(Init(3, false), run) && NobodyChangesVisibility(run)
  {
    var s0 := Init(3, false);
    var first := HandOutLocked(s0, 0, 1);
    var s1 := Exec(s0, first);
    var sweep, s2 := SweepWhenDue(s1, 1);
    var again, s3 := RedeliverAndWait(s2, 1);
    var second := HandOutLocked(s3, 1, 2);
    Joined(s0, first, sweep);
    Joined(s0, first + sweep, again);
    Joined(s0, first + sweep + again, second);
    run := first + sweep + again + second;
  }
}
