/**
 How often a message is handed out. Every hand-out uses up what put it off: its arrival, or one redeliver reply of the
 reaper. So a message is never handed out more often than MaxReceiveCount allows, but it may be dead-lettered without
 having been handed out at all.
 */
module Attempts {
  import opened Options
  import opened Store
  import opened Protocol
  import opened Frames
  import opened CommitSafety
  import opened Outcomes
  import opened FifoLimits
  import opened Stranding

  /** A receive call carries the handle: it has yet to hand it out, put it back or find it gone. */
  predicate Carries(pc: Proc, h: Handle) {
    h in HeldBy(pc) || (pc.Stored? && pc.h == h) || (pc.Ready? && pc.h == h)
  }

  function Carriers(s: Sys, h: Handle): set<Pid> {
    set pid | pid in s.procs && Carries(s.procs[pid], h)
  }

  function Load(s: Sys, pid: Pid, h: Handle): nat {
    if pid in s.procs && Carries(s.procs[pid], h) then 1 else 0
  }

  /** The hand-outs of a handle so far, and those that may still come of its places on the list and of the calls with it. */
  function HandOuts(s: Sys, h: Handle): nat {
    s.hist.delivered[h] + multiset(s.st.redeliver)[h] + |Carriers(s, h)|
  }

  /** What a handle may be handed out for: its arrival and its redeliver replies. */
  function Chances(s: Sys, h: Handle): nat {
    if h in s.hist.ledger.issued then 1 + s.hist.tally.redelivers[h] else 0
  }

  ghost predicate HandOutsMatch(s: Sys) {
    forall h :: HandOuts(s, h) <= Chances(s, h)
  }

  lemma CarriersAndOne(s: Sys, pid: Pid, h: Handle)
    ensures |Carriers(s, h)| == |Carriers(s, h) - {pid}| + Load(s, pid, h)
  {
    assert Load(s, pid, h) == 1 <==> pid in Carriers(s, h);
    if pid in Carriers(s, h) {
      assert Carriers(s, h) == Carriers(s, h) - {pid} + {pid};
    } else {
      assert Carriers(s, h) == Carriers(s, h) - {pid};
    }
  }

  lemma OthersCarryOn(s: Sys, s': Sys, pid: Pid, h: Handle)
    requires OnlyMoves(s, s', pid)
    ensures Carriers(s', h) - {pid} == Carriers(s, h) - {pid}
  {
    forall q | q != pid ensures q in Carriers(s', h) <==> q in Carriers(s, h) {
      assert q in s'.procs <==> q in s.procs;
    }
  }

  lemma CarriersMove(s: Sys, s': Sys, pid: Pid, h: Handle)
    requires OnlyMoves(s, s', pid)
    ensures |Carriers(s', h)| + Load(s, pid, h) == |Carriers(s, h)| + Load(s', pid, h)
  {
    CarriersAndOne(s, pid, h);
    CarriersAndOne(s', pid, h);
    OthersCarryOn(s, s', pid, h);
  }

  /** What process pid has handed out, has on its hands and has put on the list comes to no more than before. */
  ghost predicate NoMore(s: Sys, s': Sys, pid: Pid, h: Handle) {
    s'.hist.delivered[h] + multiset(s'.st.redeliver)[h] + Load(s', pid, h)
    <= s.hist.delivered[h] + multiset(s.st.redeliver)[h] + Load(s, pid, h)
  }

  lemma PopHandsOver(s: Sys, pid: Pid, h: Handle)
    ensures NoMore(s, DoPop(s, pid), pid, h)
  {
    if |s.st.redeliver| > 0 {
      assert s.st.redeliver == [s.st.redeliver[0]] + s.st.redeliver[1..];
    }
  }

  lemma ParkHandsOver(s: Sys, pid: Pid, h: Handle)
    ensures NoMore(s, DoPark(s, pid), pid, h)
  {
  }

  lemma DeliverHandsOver(s: Sys, pid: Pid, h: Handle)
    ensures NoMore(s, DoDeliver(s, pid), pid, h)
  {
  }

  /** A fresh handle comes into being in the hands of the call that stores it. */
  lemma PutBringsOne(s: Sys, pid: Pid, h: Handle, timeout: int, g: Handle)
    ensures NoMore(s, DoPut(s, pid, h, timeout), pid, g) || (g == h && h !in s.hist.ledger.issued)
    ensures
      var s' := DoPut(s, pid, h, timeout);
      && s'.hist.delivered == s.hist.delivered && s'.st.redeliver == s.st.redeliver
      && s'.hist.tally == s.hist.tally
      && (s' == s || (h !in s.hist.ledger.issued && s'.hist.ledger.issued.Keys == s.hist.ledger.issued.Keys + {h}))
  {
  }

  lemma OtherReceiveHandsOver(s: Sys, pid: Pid, r: ReceiveStep, h: Handle)
    requires !r.Pop? && !r.Put? && !r.Park? && !r.Deliver?
    ensures NoMore(s, ReceiveNext(s, pid, r), pid, h)
  {
  }

  lemma ReceiveHandsOver(s: Sys, pid: Pid, r: ReceiveStep, h: Handle)
    requires !r.Put?
    ensures NoMore(s, ReceiveNext(s, pid, r), pid, h)
  {
    match r
    case Pop => PopHandsOver(s, pid, h);
    case Park => ParkHandsOver(s, pid, h);
    case Deliver => DeliverHandsOver(s, pid, h);
    case _ => OtherReceiveHandsOver(s, pid, r, h);
  }

  lemma ClientHandsOver(s: Sys, pid: Pid, c: ClientStep, h: Handle)
    ensures NoMore(s, ClientNext(s, pid, c), pid, h)
  {
  }

  lemma ReapQueues(s: Sys, pid: Pid)
    ensures
      var s' := DoRunReap(s, pid);
      && s'.hist.delivered == s.hist.delivered && (s' == s || (At(s, pid) && s.procs[pid].Sweeping?))
      && (pid in s'.procs ==> s' == s || s'.procs[pid].Sweeping? || s'.procs[pid].Routing?)
      && s'.st.redeliver == if Redelivers(s, pid) then s.st.redeliver + [s.procs[pid].todo[0]] else s.st.redeliver
  {
  }

  /** A redeliver reply puts the handle on the list once more. */
  lemma ReapHandsOver(s: Sys, pid: Pid, h: Handle)
    ensures
      var s' := DoRunReap(s, pid);
      s'.hist.delivered[h] + multiset(s'.st.redeliver)[h] + Load(s', pid, h)
      <= s.hist.delivered[h] + multiset(s.st.redeliver)[h] + Load(s, pid, h)
         + if Redelivers(s, pid) && h == s.procs[pid].todo[0] then 1 else 0
  {
    ReapQueues(s, pid);
  }

  lemma SweepHandsOver(s: Sys, pid: Pid, q: ReaperStep, h: Handle)
    requires !q.RunReap?
    ensures NoMore(s, ReaperNext(s, pid, q), pid, h)
  {
  }

  // ---------------------------------------------------------------------------------------------------------------
  // Every step
  // ---------------------------------------------------------------------------------------------------------------

  /** A handle that does not gain a hand-out keeps the bound, whatever chances it gains. */
  lemma NoMoreKeeps(s: Sys, s': Sys, pid: Pid, h: Handle)
    requires OnlyMoves(s, s', pid) && NoMore(s, s', pid, h) && HandOuts(s, h) <= Chances(s, h) <= Chances(s', h)
    ensures HandOuts(s', h) <= Chances(s', h)
  {
    CarriersMove(s, s', pid, h);
  }

  /** The step issues no handle and gets no redeliver reply. */
  predicate SameChances(s: Sys, s': Sys) {
    s'.hist.ledger.issued == s.hist.ledger.issued && s'.hist.tally.redelivers == s.hist.tally.redelivers
  }

  lemma FrameKeepsHandOuts(s: Sys, s': Sys, pid: Pid)
    requires HandOutsMatch(s) && OnlyMoves(s, s', pid) && SameChances(s, s')
    requires forall h :: NoMore(s, s', pid, h)
    ensures HandOutsMatch(s')
  {
    forall h ensures HandOuts(s', h) <= Chances(s', h) {
      NoMoreKeeps(s, s', pid, h);
    }
  }

  lemma ReceiveKeepsHandOuts(s: Sys, pid: Pid, r: ReceiveStep)
    requires HandOutsMatch(s) && !r.Put?
    ensures HandOutsMatch(ReceiveNext(s, pid, r))
  {
    var s' := ReceiveNext(s, pid, r);
    ReceiveMoves(s, pid, r);
    ReceiveIssuesNothing(s, pid, r);
    forall h ensures NoMore(s, s', pid, h) { ReceiveHandsOver(s, pid, r, h); }
    FrameKeepsHandOuts(s, s', pid);
  }

  lemma ReceiveIssuesNothing(s: Sys, pid: Pid, r: ReceiveStep)
    requires !r.Put?
    ensures SameChances(s, ReceiveNext(s, pid, r))
  {
    ReceiveBooks(s, pid, r);
  }

  lemma PutKeepsHandOuts(s: Sys, pid: Pid, h: Handle, timeout: int)
    requires HandOutsMatch(s)
    ensures HandOutsMatch(DoPut(s, pid, h, timeout))
  {
    var s' := DoPut(s, pid, h, timeout);
    ReceiveMoves(s, pid, Put(h, timeout));
    forall g ensures HandOuts(s', g) <= Chances(s', g) {
      PutBringsOne(s, pid, h, timeout, g);
      CarriersMove(s, s', pid, g);
      assert HandOuts(s, g) <= Chances(s, g);
    }
  }

  lemma ClientKeepsHandOuts(s: Sys, pid: Pid, c: ClientStep)
    requires HandOutsMatch(s)
    ensures HandOutsMatch(ClientNext(s, pid, c))
  {
    var s' := ClientNext(s, pid, c);
    ClientMoves(s, pid, c);
    if c.RunAck? { AckBooks(s, pid); } else { ClientBooks(s, pid, c); }
    forall h ensures NoMore(s, s', pid, h) { ClientHandsOver(s, pid, c, h); }
    FrameKeepsHandOuts(s, s', pid);
  }

  lemma ReapAddsChance(s: Sys, pid: Pid, h: Handle)
    requires Issued(s)
    ensures Chances(DoRunReap(s, pid), h) ==
      Chances(s, h) + if Redelivers(s, pid) && h == s.procs[pid].todo[0] then 1 else 0
  {
    ReapBooks(s, pid);
    if Redelivers(s, pid) { RedeliveredTally(s, s.procs[pid].todo[0], DoRunReap(s, pid)); }
  }

  lemma ReapKeepsHandOuts(s: Sys, pid: Pid)
    requires Issued(s) && HandOutsMatch(s)
    ensures HandOutsMatch(DoRunReap(s, pid))
  {
    var s' := DoRunReap(s, pid);
    ReaperMoves(s, pid, RunReap);
    forall h ensures HandOuts(s', h) <= Chances(s', h) {
      ReapAddsChance(s, pid, h);
      ReapHandsOver(s, pid, h);
      CarriersMove(s, s', pid, h);
      assert HandOuts(s, h) <= Chances(s, h);
    }
  }

  lemma SweepKeepsHandOuts(s: Sys, pid: Pid, q: ReaperStep)
    requires HandOutsMatch(s) && !q.RunReap?
    ensures HandOutsMatch(ReaperNext(s, pid, q))
  {
    var s' := ReaperNext(s, pid, q);
    ReaperMoves(s, pid, q);
    forall h ensures NoMore(s, s', pid, h) { SweepHandsOver(s, pid, q, h); }
    FrameKeepsHandOuts(s, s', pid);
  }

  lemma EnvKeepsHandOuts(s: Sys, a: Step)
    requires HandOutsMatch(s) && !a.Receive? && !a.Client? && !a.Reaper?
    ensures HandOutsMatch(Next(s, a))
  {
    var pid := if a.Fail? then a.pid else 0;
    EnvBooks(s, a);
    FrameKeepsHandOuts(s, Next(s, a), pid);
  }

  lemma HandOutsKept(s: Sys, a: Step)
    requires LedgerInv(s) && HandOutsMatch(s)
    ensures HandOutsMatch(Next(s, a))
  {
    match a
    case Receive(pid, r) => if r.Put? { PutKeepsHandOuts(s, pid, r.h, r.timeout); } else { ReceiveKeepsHandOuts(s, pid, r); }
    case Client(pid, c) => ClientKeepsHandOuts(s, pid, c);
    case Reaper(pid, q) => if q.RunReap? { ReapKeepsHandOuts(s, pid); } else { SweepKeepsHandOuts(s, pid, q); }
    case _ => EnvKeepsHandOuts(s, a);
  }

  lemma {:induction false} HandOutsMatchInEveryRun(maxReceive: int, hasDlq: bool, run: seq<Step>)
    ensures HandOutsMatch(Exec(Init(maxReceive, hasDlq), run))
  {
    if |run| > 0 {
      var n := |run| - 1;
      HandOutsMatchInEveryRun(maxReceive, hasDlq, run[..n]);
      LedgerInEveryRun(maxReceive, hasDlq, run[..n]);
      HandOutsKept(Exec(Init(maxReceive, hasDlq), run[..n]), run[n]);
    }
  }

  /**
   In every run and for every handle: what was handed out, what is on the redeliver list and what receive calls carry are
   together at most one more than the redeliver replies. So no message is handed out more than max(1, MaxReceiveCount)
   times, whatever fails, expires or overlaps, and one that was never stored is not handed out at all.
   */
  lemma HandOutsInEveryRun(maxReceive: int, hasDlq: bool, run: seq<Step>, h: Handle)
    ensures
      var s := Exec(Init(maxReceive, hasDlq), run);
      && s.hist.delivered[h] + multiset(s.st.redeliver)[h] + |Carriers(s, h)|
         <= (if h in s.hist.ledger.issued then 1 + s.hist.tally.redelivers[h] else 0)
      && s.hist.delivered[h] <= (if maxReceive < 1 then 1 else maxReceive)
  {
    HandOutsMatchInEveryRun(maxReceive, hasDlq, run);
    OutcomeInvInEveryRun(maxReceive, hasDlq, run);
    assert HandOuts(Exec(Init(maxReceive, hasDlq), run), h) <= Chances(Exec(Init(maxReceive, hasDlq), run), h);
  }

  // ---------------------------------------------------------------------------------------------------------------
  // Fewer than that
  // ---------------------------------------------------------------------------------------------------------------

  lemma RefusedAndParked(b: Sys, h: Handle, f: InFlight)
    requires b.procs == map[0 := Stored(h, f)] && f.group in b.st.locks
    ensures
      var t := Next(Next(b, Receive(0, LockFresh(TIMEOUT))), Receive(0, Park));
      t.procs == map[] && t.st == PushOp(b.st, h) && t.hist == b.hist && t.maxReceive == b.maxReceive
  {
    assert Next(b, Receive(0, LockFresh(TIMEOUT))).procs == map[0 := Refused(h)];
  }

  function ParkingRun(offset: int, h: Handle): seq<Step> {
    [Receive(0, Track(Grouped(offset))), Receive(0, Put(h, TIMEOUT))] + [Receive(0, LockFresh(TIMEOUT)), Receive(0, Park)]
  }

  lemma ParkingRunIs(s: Sys, offset: int, h: Handle)
    ensures
      var b := Next(Next(s, Receive(0, Track(Grouped(offset)))), Receive(0, Put(h, TIMEOUT)));
      Exec(s, ParkingRun(offset, h)) == Next(Next(b, Receive(0, LockFresh(TIMEOUT))), Receive(0, Park))
  {
    var track, put := Receive(0, Track(Grouped(offset))), Receive(0, Put(h, TIMEOUT));
    ExecTwo(s, track, put);
    ExecTwo(Next(Next(s, track), put), Receive(0, LockFresh(TIMEOUT)), Receive(0, Park));
    ExecConcat(s, [track, put], [Receive(0, LockFresh(TIMEOUT)), Receive(0, Park)]);
  }

  /** A fresh record of a locked group is stored and put on the redeliver list, and nobody gets it. */
  lemma ParkFresh(s: Sys, offset: int, h: Handle)
    requires s.procs == map[] && h !in s.hist.ledger.issued && GROUP in s.st.locks
    ensures
      var t := Exec(s, ParkingRun(offset, h));
      && t.procs == map[] && t.st.now == s.st.now && t.maxReceive == s.maxReceive
      && h in t.st.inflight && t.st.inflight[h].fields == Grouped(offset)
      && h in t.st.visIndex && t.st.visIndex[h] == s.st.now + TIMEOUT
      && t.hist.tally == s.hist.tally && t.hist.delivered == s.hist.delivered
  {
    StoredState(s, 0, offset, h);
    var b := Next(Next(s, Receive(0, Track(Grouped(offset)))), Receive(0, Put(h, TIMEOUT)));
    RefusedAndParked(b, h, Grouped(offset));
    ParkingRunIs(s, offset, h);
  }

  lemma SweepLastAttempt(s: Sys, h: Handle) returns (run: seq<Step>)
    requires s.procs == map[] && h in s.st.inflight && h in s.st.visIndex && s.st.visIndex[h] <= s.st.now + TIMEOUT
    requires s.st.inflight[h].fields.receiveCount >= s.maxReceive
    ensures
      var t := Exec(s, run);
      && t.hist.tally.dlqs == s.hist.tally.dlqs + multiset{h} && t.hist.tally.redelivers == s.hist.tally.redelivers
      && t.hist.delivered == s.hist.delivered
  {
    var tick, begin, reap := Tick(TIMEOUT), Reaper(0, BeginSweep([h])), Reaper(0, RunReap);
    assert h in [h] && forall x :: x in [h] ==> x == h;
    ExecTwo(s, tick, begin);
    ExecAppend(s, [tick, begin], reap);
    var a := Next(Next(s, tick), begin);
    assert 0 in a.procs && a.procs[0] == Sweeping([h]);
    run := [tick, begin] + [reap];
  }

  /**
   A message can be dead-lettered without having been handed out. With MaxReceiveCount 1, a second record of a group is
   stored while the first one holds the lock; it is put on the redeliver list, and when its visibility timeout is over the
   reaper finds it on its last attempt.
   */
  lemma DeadLetteredUnseen() returns (run: seq<Step>)
    ensures
      var s := Exec(Init(1, true), run);
      && s.hist.tally.dlqs[2] == 1 && s.hist.delivered[2] == 0 && s.hist.tally.redelivers[2] == 0
      && s.hist.delivered[1] == 1
  {
    var s0 := Init(1, true);
    var first := HandOutLocked(s0, 0, 1);
    var s1 := Exec(s0, first);
    var park := ParkingRun(1, 2);
    ParkFresh(s1, 1, 2);
    var s2 := Exec(s1, park);
    var sweep := SweepLastAttempt(s2, 2);
    ExecConcat(s0, first, park);
    ExecConcat(s0, first + park, sweep);
    run := first + park + sweep;
  }

  // ---------------------------------------------------------------------------------------------------------------
  // After an ack
  // ---------------------------------------------------------------------------------------------------------------

  /** A call has popped and loaded the message of a standard queue when its first consumer acks it. */
  lemma AckedUnderWay(s: Sys, h: Handle)
    requires s.procs == map[] && s.st.redeliver == [h] && h in s.st.inflight && s.st.inflight[h].fields.group == ""
    ensures
      var a := Next(Next(s, Receive(0, Pop)), Receive(0, LoadPopped));
      var b := Next(Next(a, Client(1, LoadDelete(h))), Client(1, RunAck));
      && 0 in b.procs && b.procs[0] == Cleared(h, s.st.inflight[h].fields, None) && h !in b.st.inflight
      && b.hist.tally.acks == s.hist.tally.acks + multiset{h} && b.hist.delivered == s.hist.delivered
  {
    var a := Next(Next(s, Receive(0, Pop)), Receive(0, LoadPopped));
    assert a.procs == map[0 := Cleared(h, s.st.inflight[h].fields, None)];
    assert Next(a, Client(1, LoadDelete(h))).procs[1] == Deleting(h, s.st.inflight[h].fields);
  }

  /** A call that is past its lock returns its message, whether or not that is still there. */
  lemma GoneIsReturned(b: Sys, h: Handle)
    requires 0 in b.procs && b.procs[0].Cleared? && b.procs[0].h == h && h !in b.st.inflight
    ensures
      var t := Next(Next(b, Receive(0, CheckPopped)), Receive(0, Deliver));
      t.hist.delivered == b.hist.delivered + multiset{h} && t.hist.tally == b.hist.tally
  {
  }

  /**
   A message can be handed out after it was acked: the reaper has given it to a receive call by the time its first consumer
   deletes it, and the call does not look again.
   */
  lemma HandedOutAfterItsAck() returns (run: seq<Step>, rest: seq<Step>)
    ensures
      var s, t := Exec(Init(3, false), run), Exec(Init(3, false), run + rest);
      && s.hist.tally.acks[1] == 1 && 1 !in s.st.inflight
      && t.hist.tally.acks[1] == 1 && t.hist.delivered[1] == s.hist.delivered[1] + 1
  {
    var s0 := Init(3, false);
    var first := HandedOutAndDue();
    var sweep := SweepOne(Exec(s0, first), 1);
    ExecConcat(s0, first, sweep);
    var s1 := Exec(s0, first + sweep);
    var popped, acked := [Receive(0, Pop), Receive(0, LoadPopped)], [Client(1, LoadDelete(1)), Client(1, RunAck)];
    ExecTwo(s1, popped[0], popped[1]);
    ExecTwo(Exec(s1, popped), acked[0], acked[1]);
    ExecConcat(s1, popped, acked);
    ExecConcat(s0, first + sweep, popped + acked);
    AckedUnderWay(s1, 1);
    run := first + sweep + (popped + acked);
    rest := [Receive(0, CheckPopped), Receive(0, Deliver)];
    ExecTwo(Exec(s0, run), rest[0], rest[1]);
    ExecConcat(s0, run, rest);
    GoneIsReturned(Exec(s0, run), 1);
    OutcomesInEveryRun(3, false, first + sweep, 1);
  }
}
