/** The visibility timeout: until its deadline no sweep takes a message away from its consumer. */
module Visibility {
  import opened Store
  import opened Protocol
  import opened Frames
  import opened FifoInFlight

  /** The handles a sweep still has to deal with. */
  function ToSweep(pc: Proc): seq<Handle> {
    match pc
    case Sweeping(todo) => todo
    case Routing(_, _, todo) => todo
    case _ => []
  }

  ghost predicate NoSweepHas(s: Sys, h: Handle) {
    forall pid :: pid in s.procs ==> h !in ToSweep(s.procs[pid])
  }

  /** The message has a deadline to come, and no sweep that read the index earlier still has it on its list. */
  ghost predicate Waits(s: Sys, h: Handle, deadline: int) {
    && h in s.hist.ledger.issued && h in s.st.visIndex && s.st.visIndex[h] == deadline && s.st.now < deadline
    && NoSweepHas(s, h)
  }

  predicate AcksIt(s: Sys, a: Step, h: Handle) {
    a.Client? && a.c.RunAck? && a.pid in s.procs && s.procs[a.pid].Deleting? && s.procs[a.pid].h == h
  }

  /** No step of the run hands the message out, changes its visibility or acks it. */
  ghost predicate LeavesAlone(s: Sys, run: seq<Step>, h: Handle) {
    forall k :: 0 <= k < |run| ==> !Touches(Exec(s, run[..k]), run[k], h) && !AcksIt(Exec(s, run[..k]), run[k], h)
  }

  ghost predicate SameReaps(s: Sys, s': Sys, h: Handle) {
    && s'.hist.tally.redelivers[h] == s.hist.tally.redelivers[h] && s'.hist.tally.dlqs[h] == s.hist.tally.dlqs[h]
  }

  /** The process that moves does not come to have the handle on a sweep's list. */
  ghost predicate StillWaits(s: Sys, s': Sys, pid: Pid, h: Handle) {
    && h in s.st.visIndex && h in s'.st.visIndex && s'.st.visIndex[h] == s.st.visIndex[h] && SameReaps(s, s', h)
    && (pid in s'.procs ==> h !in ToSweep(s'.procs[pid]))
  }

  lemma ReceiveWaits(s: Sys, pid: Pid, r: ReceiveStep, h: Handle, deadline: int)
    requires Waits(s, h, deadline) && !Touches(s, Receive(pid, r), h)
    ensures StillWaits(s, ReceiveNext(s, pid, r), pid, h)
  {
    ReceiveBooks(s, pid, r);
  }

  lemma ClientWaits(s: Sys, pid: Pid, c: ClientStep, h: Handle, deadline: int)
    requires Waits(s, h, deadline) && !Touches(s, Client(pid, c), h) && !AcksIt(s, Client(pid, c), h)
    ensures StillWaits(s, ClientNext(s, pid, c), pid, h)
  {
    if c.RunAck? { AckBooks(s, pid); } else { ClientBooks(s, pid, c); }
  }

  lemma ReapWaits(s: Sys, pid: Pid, h: Handle, deadline: int)
    requires Waits(s, h, deadline)
    ensures StillWaits(s, DoRunReap(s, pid), pid, h)
  {
    ReapBooks(s, pid);
    if Reaps(s, pid) {
      ReapLeaves(s.st, s.procs[pid].todo[0], s.maxReceive);
      assert s.procs[pid].todo[0] in ToSweep(s.procs[pid]);
    }
  }

  /** A sweep begins if and only if its handles' deadlines have come, and there are no more than a hundred of them. */
  lemma SweepBeginsIff(s: Sys, pid: Pid, batch: seq<Handle>)
    requires Idle(s, pid)
    ensures pid in Next(s, Reaper(pid, BeginSweep(batch))).procs
            <==> |batch| <= 100 && forall h :: h in batch ==> h in s.st.visIndex && s.st.visIndex[h] <= s.st.now
  {
  }

  /**
   A visibility change begins if and only if the message is there. Once it has begun, and likewise once a redelivery has seen
   its message, the deadline is set whether or not the message is still there.
   */
  lemma DeadlineIsSetAnyway(s: Sys, pid: Pid, h: Handle, timeout: int)
    ensures Idle(s, pid) ==> (pid in Next(s, Client(pid, CheckChange(h))).procs <==> h in s.st.inflight)
    ensures pid in s.procs && s.procs[pid] == Changing(h) ==>
      Next(s, Client(pid, Change(timeout))).st == s.st.(visIndex := s.st.visIndex[h := s.st.now + timeout])
    ensures pid in s.procs && s.procs[pid].Extending? && s.procs[pid].h == h ==>
      Next(s, Receive(pid, ExtendPopped(timeout))).st == s.st.(visIndex := s.st.visIndex[h := s.st.now + timeout])
  {
  }

  lemma ReaperWaits(s: Sys, pid: Pid, q: ReaperStep, h: Handle, deadline: int)
    requires Waits(s, h, deadline)
    ensures StillWaits(s, ReaperNext(s, pid, q), pid, h)
  {
    match q
    case RunReap => ReapWaits(s, pid, h, deadline);
    case BeginSweep(batch) =>
      if Idle(s, pid) && h in batch && pid in ReaperNext(s, pid, q).procs {
        SweepBeginsIff(s, pid, batch);
      }
    case SendDlq(_) =>
  }

  lemma OthersWait(s: Sys, s': Sys, pid: Pid, h: Handle, deadline: int)
    requires Waits(s, h, deadline) && OnlyMoves(s, s', pid) && StillWaits(s, s', pid, h) && s'.st.now < deadline
    requires h in s'.hist.ledger.issued
    ensures Waits(s', h, deadline)
  {
    forall q | q in s'.procs ensures h !in ToSweep(s'.procs[q]) {
      if q != pid { assert s'.procs[q] == s.procs[q]; }
    }
  }

  lemma StepWaits(s: Sys, a: Step, h: Handle, deadline: int)
    requires Waits(s, h, deadline) && !Touches(s, a, h) && !AcksIt(s, a, h) && Next(s, a).st.now < deadline
    ensures Waits(Next(s, a), h, deadline) && SameReaps(s, Next(s, a), h)
  {
    IssuedStays(s, a, h);
    var s' := Next(s, a);
    match a
    case Receive(pid, r) => ReceiveMoves(s, pid, r); ReceiveWaits(s, pid, r, h, deadline); OthersWait(s, s', pid, h, deadline);
    case Client(pid, c) => ClientMoves(s, pid, c); ClientWaits(s, pid, c, h, deadline); OthersWait(s, s', pid, h, deadline);
    case Reaper(pid, q) => ReaperMoves(s, pid, q); ReaperWaits(s, pid, q, h, deadline); OthersWait(s, s', pid, h, deadline);
    case Fail(pid) => EnvBooks(s, a); OthersWait(s, s', pid, h, deadline);
    case _ => EnvBooks(s, a); OthersWait(s, s', 0, h, deadline);
  }

  lemma IssuedStays(s: Sys, a: Step, h: Handle)
    requires h in s.hist.ledger.issued
    ensures h in Next(s, a).hist.ledger.issued
  {
    match a
    case Receive(pid, r) => if !r.Track? && !r.Put? { ReceiveBooks(s, pid, r); }
    case Client(pid, c) => if c.RunAck? { AckBooks(s, pid); } else { ClientBooks(s, pid, c); }
    case Reaper(pid, q) => if q.RunReap? { ReapBooks(s, pid); }
    case _ => EnvBooks(s, a);
  }

  lemma ClockOfPrefix(s: Sys, run: seq<Step>)
    requires |run| > 0
    ensures Exec(s, run[..|run| - 1]).st.now <= Exec(s, run).st.now
  {
    TimePasses(Exec(s, run[..|run| - 1]), run[|run| - 1]);
  }

  lemma AlonePrefix(s: Sys, run: seq<Step>, h: Handle)
    requires |run| > 0 && LeavesAlone(s, run, h)
    ensures LeavesAlone(s, run[..|run| - 1], h)
  {
    var n := |run| - 1;
    forall k | 0 <= k < n
      ensures !Touches(Exec(s, run[..n][..k]), run[..n][k], h) && !AcksIt(Exec(s, run[..n][..k]), run[..n][k], h)
    {
      assert run[..n][..k] == run[..k];
    }
  }

  /**
   A message stays invisible until its deadline. From the moment it waits for one, whatever other calls, sweeps, expiries
   and crashes do, and as long as the clock has not reached the deadline and nobody hands the message out, changes its
   visibility or acks it, its entry in the index stands, no sweep has it on its list, and it gets no redeliver and no
   dead-letter reply.
   */
  lemma {:induction false} NotReapedBeforeDeadline(s: Sys, run: seq<Step>, h: Handle, deadline: int)
    requires Waits(s, h, deadline) && LeavesAlone(s, run, h) && Exec(s, run).st.now < deadline
    ensures Waits(Exec(s, run), h, deadline) && SameReaps(s, Exec(s, run), h)
  {
    if |run| > 0 {
      var n := |run| - 1;
      ClockOfPrefix(s, run);
      AlonePrefix(s, run, h);
      NotReapedBeforeDeadline(s, run[..n], h, deadline);
      StepWaits(Exec(s, run[..n]), run[n], h, deadline);
    }
  }
}
