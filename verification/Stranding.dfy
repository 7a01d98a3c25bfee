/** Messages that nothing leads to any more: which failing calls leave one behind, and what can still happen to it. */
module Stranding {
  import opened Store
  import opened Protocol
  import opened Frames
  import opened Reachability
  import opened FifoInFlight
  import opened FifoLimits

  /** The message is live, but no reaper will find it, no receive call can pop it, and none has it in hand. */
  ghost predicate Stranded(s: Sys, h: Handle) {
    h in s.st.inflight && !WithinReach(s, h)
  }

  ghost predicate HeldByAnother(s: Sys, pid: Pid, h: Handle) {
    exists q :: q != pid && q in s.procs && h in HeldBy(s.procs[q])
  }

  /**
   A call that fails while it holds a live message strands it if and only if the message is in neither the visibility
   index nor the redeliver list and no other call holds it too.
   */
  lemma FailStrandsIff(s: Sys, pid: Pid, h: Handle)
    requires pid in s.procs && h in HeldBy(s.procs[pid]) && h in s.st.inflight
    ensures Stranded(Next(s, Fail(pid)), h)
            <==> h !in s.st.visIndex && h !in s.st.redeliver && !HeldByAnother(s, pid, h)
  {
    var s' := Next(s, Fail(pid));
    if IsHeld(s', h) {
      var q :| q in s'.procs && h in HeldBy(s'.procs[q]);
      assert q != pid && s.procs[q] == s'.procs[q];
    }
    if HeldByAnother(s, pid, h) {
      var q :| q != pid && q in s.procs && h in HeldBy(s.procs[q]);
      assert s'.procs[q] == s.procs[q];
    }
  }

  // ---------------------------------------------------------------------------------------------------------------
  // What happens to a stranded message
  // ---------------------------------------------------------------------------------------------------------------

  /** ChangeMessageVisibility sets its deadline. */
  predicate IsChanged(s: Sys, a: Step, h: Handle) {
    a.Client? && a.c.Change? && a.pid in s.procs && s.procs[a.pid].Changing? && s.procs[a.pid].h == h
  }

  /** The call that stored it, slow to try the lock, is refused it and will park the message. */
  predicate IsRefused(s: Sys, a: Step, h: Handle) {
    && a.Receive? && a.r.LockFresh? && a.pid in s.procs && s.procs[a.pid].Stored? && s.procs[a.pid].h == h
    && s.procs[a.pid].fields.group in s.st.locks
  }

  predicate IsAcked(s: Sys, a: Step, h: Handle) {
    a.Client? && a.c.RunAck? && a.pid in s.procs && s.procs[a.pid].Deleting? && s.procs[a.pid].h == h
  }

  predicate HashExpires(s: Sys, a: Step, h: Handle) {
    a == ExpireHash(h) && h in s.st.inflight && s.st.inflight[h].expiresAt <= s.st.now
  }

  lemma HeldByTheMover(s: Sys, s': Sys, pid: Pid, h: Handle)
    requires OnlyMoves(s, s', pid) && !IsHeld(s, h)
    ensures IsHeld(s', h) <==> pid in s'.procs && h in HeldBy(s'.procs[pid])
  {
    if IsHeld(s', h) {
      var q :| q in s'.procs && h in HeldBy(s'.procs[q]);
      assert q in s.procs && h in HeldBy(s.procs[q]) ==> IsHeld(s, h);
    }
  }

  lemma StrandedReceive(s: Sys, pid: Pid, r: ReceiveStep, h: Handle)
    requires HandleInv(s) && Stranded(s, h)
    ensures
      var s' := ReceiveNext(s, pid, r);
      && h in s'.st.inflight && h !in s'.st.visIndex && (h in s'.st.redeliver ==> IsHeld(s, h))
      && (pid in s'.procs && h in HeldBy(s'.procs[pid]) <==> IsRefused(s, Receive(pid, r), h))
  {
    assert pid in s.procs && h in HeldBy(s.procs[pid]) ==> IsHeld(s, h);
  }

  lemma StrandedClient(s: Sys, pid: Pid, c: ClientStep, h: Handle)
    requires Stranded(s, h)
    ensures
      var s' := ClientNext(s, pid, c);
      && (h in s'.st.inflight <==> !IsAcked(s, Client(pid, c), h))
      && (h in s'.st.visIndex <==> IsChanged(s, Client(pid, c), h))
      && h !in s'.st.redeliver && !(pid in s'.procs && h in HeldBy(s'.procs[pid]))
  {
    assert pid in s.procs && h in HeldBy(s.procs[pid]) ==> IsHeld(s, h);
  }

  lemma StrandedReaper(s: Sys, pid: Pid, q: ReaperStep, h: Handle)
    requires Stranded(s, h)
    ensures
      var s' := ReaperNext(s, pid, q);
      && h in s'.st.inflight && h !in s'.st.visIndex && h !in s'.st.redeliver
      && !(pid in s'.procs && h in HeldBy(s'.procs[pid]))
  {
    assert pid in s.procs && h in HeldBy(s.procs[pid]) ==> IsHeld(s, h);
  }

  /**
   The fate of a stranded message under every step. Only two kinds of step bring it back within reach: a consumer that
   still has its handle changes its visibility, or the slow call that first stored it is refused the lock. Only two end
   it: its consumer acks it, or its hash expires. Every other step leaves it stranded.
   */
  lemma StrandedUntil(s: Sys, a: Step, h: Handle)
    requires HandleInv(s) && Stranded(s, h)
    ensures h in Next(s, a).st.inflight <==> !IsAcked(s, a, h) && !HashExpires(s, a, h)
    ensures WithinReach(Next(s, a), h) <==> IsChanged(s, a, h) || IsRefused(s, a, h)
    ensures Stranded(Next(s, a), h)
            <==> !IsAcked(s, a, h) && !HashExpires(s, a, h) && !IsChanged(s, a, h) && !IsRefused(s, a, h)
  {
    var s' := Next(s, a);
    match a
    case Receive(pid, r) =>
      ReceiveMoves(s, pid, r);
      StrandedReceive(s, pid, r, h);
      HeldByTheMover(s, s', pid, h);
    case Client(pid, c) =>
      ClientMoves(s, pid, c);
      StrandedClient(s, pid, c, h);
      HeldByTheMover(s, s', pid, h);
    case Reaper(pid, q) =>
      ReaperMoves(s, pid, q);
      StrandedReaper(s, pid, q, h);
      HeldByTheMover(s, s', pid, h);
    case Fail(pid) =>
      HeldByTheMover(s, s', pid, h);
    case _ =>
      EnvBooks(s, a);
      HeldByTheMover(s, s', 0, h);
  }

  // ---------------------------------------------------------------------------------------------------------------
  // An example
  // ---------------------------------------------------------------------------------------------------------------

  function Plain(): InFlight {
    InFlight(Slot(Partition("0", 0), 0), "t", "", "b", 1)
  }

  /** A message of a standard queue, handed out and due for redelivery. */
  predicate IsDue(s: Sys, h: Handle) {
    && s.procs == map[] && h in s.st.inflight && s.st.redeliver == [] && s.maxReceive == 3
    && s.st.inflight[h].fields == Plain() && h in s.st.visIndex && s.st.visIndex[h] <= s.st.now
    && h in s.hist.delivered
  }

  lemma StoredPlain(s: Sys)
    requires s == Init(3, false)
    ensures
      var t := Next(Next(s, Receive(0, Track(Plain()))), Receive(0, Put(1, 10)));
      && t.procs == map[0 := Ready(1, Plain(), t.procs[0].ticket)] && t.st.now == 0 && t.st.redeliver == []
      && t.st.inflight == map[1 := Hash(Plain(), 10 + HASH_GRACE)] && t.st.visIndex == map[1 := 10] && t.maxReceive == 3
  {
    assert Next(s, Receive(0, Track(Plain()))).procs == map[0 := Tracked(Plain())];
  }

  lemma DeliveredAndDue(t: Sys, ticket: Ticket)
    requires t.procs == map[0 := Ready(1, Plain(), ticket)] && t.st.now == 0 && t.st.redeliver == []
    requires t.st.inflight == map[1 := Hash(Plain(), 10 + HASH_GRACE)] && t.st.visIndex == map[1 := 10] && t.maxReceive == 3
    ensures IsDue(Next(Next(t, Receive(0, Deliver)), Tick(10)), 1)
  {
    assert t.procs - {0} == map[];
  }

  lemma HandedOutAndDue() returns (run: seq<Step>)
    ensures IsDue(Exec(Init(3, false), run), 1)
  {
    var s := Init(3, false);
    var track, put, deliver, tick := Receive(0, Track(Plain())), Receive(0, Put(1, 10)), Receive(0, Deliver), Tick(10);
    StoredPlain(s);
    ExecTwo(s, track, put);
    var stored := Exec(s, [track, put]);
    DeliveredAndDue(stored, stored.procs[0].ticket);
    ExecTwo(stored, deliver, tick);
    ExecConcat(s, [track, put], [deliver, tick]);
    run := [track, put] + [deliver, tick];
  }

  lemma PoppedAndFailed(s: Sys, h: Handle)
    requires s.procs == map[] && s.st.redeliver == [h] && h in s.st.inflight && h !in s.st.visIndex
    ensures Stranded(Next(Next(s, Receive(0, Pop)), Fail(0)), h)
  {
    var a := Next(s, Receive(0, Pop));
    assert a.procs == map[0 := Popped(h)];
    FailStrandsIff(a, 0, h);
  }

  lemma ChangedBack(s: Sys, pid: Pid, h: Handle)
    requires HandleInv(s) && Stranded(s, h) && Idle(s, pid)
    ensures h in Exec(s, [Client(pid, CheckChange(h)), Client(pid, Change(1000))]).st.visIndex
  {
    ExecTwo(s, Client(pid, CheckChange(h)), Client(pid, Change(1000)));
  }

  /**
   A message is handed out, reaped and popped, and the call that popped it fails: it is stranded. The consumer that had
   it first still knows its handle, and by changing its visibility brings it back for the reaper to find.
   */
  lemma StrandedAndBroughtBack() returns (run: seq<Step>, back: seq<Step>)
    ensures Stranded(Exec(Init(3, false), run), 1)
    ensures 1 in Exec(Init(3, false), run + back).st.visIndex
  {
    var s := Init(3, false);
    var first := HandedOutAndDue();
    var sweep := SweepOne(Exec(s, first), 1);
    ExecConcat(s, first, sweep);
    var pop, fail := Receive(0, Pop), Fail(0);
    var t := Exec(s, first + sweep);
    PoppedAndFailed(t, 1);
    ExecTwo(t, pop, fail);
    ExecConcat(s, first + sweep, [pop, fail]);
    run := first + sweep + [pop, fail];
    RunKeepsHandles(s, run);
    var pid := Unused(Exec(s, run).procs.Keys);
    back := [Client(pid, CheckChange(1)), Client(pid, Change(1000))];
    ChangedBack(Exec(s, run), pid, 1);
    ExecConcat(s, run, back);
  }
}
