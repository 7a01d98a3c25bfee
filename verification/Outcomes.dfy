/** How often a receipt handle can be redelivered, dead-lettered, acked and sent to the dead-letter queue. */
module Outcomes {
  import opened Store
  import opened Protocol
  import opened Frames
  import opened CommitSafety

  /** The most redeliver and dead-letter replies a handle can get; Attempts says how often it can be handed out. */
  function Limit(s: Sys): int {
    if s.maxReceive < 1 then 1 else s.maxReceive
  }

  /** The stored receive count is one more than the redeliveries so far, and stays within the limit. */
  ghost predicate CountsMatch(s: Sys) {
    && (forall h :: h in s.st.inflight ==>
          && s.st.inflight[h].fields.receiveCount == 1 + s.hist.tally.redelivers[h]
          && s.st.inflight[h].fields.receiveCount <= Limit(s))
    && (forall h :: s.hist.tally.redelivers[h] < Limit(s))
    && (forall h :: h in s.hist.tally.redelivers ==> h in s.hist.ledger.issued)
    && (forall pid :: pid in s.procs && s.procs[pid].Tracked? ==> s.procs[pid].fields.receiveCount == 1)
  }

  /** A handle is acked or dead-lettered at most once in all, and is gone afterwards. */
  ghost predicate OneOutcome(s: Sys) {
    && (forall h :: s.hist.tally.acks[h] + s.hist.tally.dlqs[h] <= 1)
    && (forall h :: Terminal(s, h) ==> h !in s.st.inflight)
  }

  /** The step redelivers nothing and neither changes a hash nor adds one. */
  ghost predicate SameCounts(s: Sys, s': Sys) {
    && s'.hist.tally.redelivers == s.hist.tally.redelivers
    && s'.hist.ledger.issued == s.hist.ledger.issued
    && FewerHashes(s, s')
  }

  ghost predicate NewTrackedCountOne(s: Sys, s': Sys) {
    forall pid :: pid in s'.procs && s'.procs[pid].Tracked? ==>
      s'.procs[pid].fields.receiveCount == 1 || (pid in s.procs && s'.procs[pid] == s.procs[pid])
  }

  lemma FrameKeepsCounts(s: Sys, s': Sys)
    requires CountsMatch(s) && SameCounts(s, s') && NewTrackedCountOne(s, s') && s'.maxReceive == s.maxReceive
    ensures CountsMatch(s')
  {
  }

  lemma PutKeepsCounts(s: Sys, pid: Pid, h: Handle, timeout: int)
    requires CountsMatch(s)
    ensures CountsMatch(DoPut(s, pid, h, timeout))
  {
  }

  /** A redelivery brings the count one closer to the limit, never past it. */
  lemma RedeliverKeepsCounts(s: Sys, h: Handle, s': Sys)
    requires LedgerInv(s) && CountsMatch(s) && RedeliveredNow(s, h, s')
    requires NewTrackedCountOne(s, s') && s'.maxReceive == s.maxReceive
    requires s.st.inflight[h].fields.receiveCount < s.maxReceive
    ensures CountsMatch(s')
  {
    RedeliveredTally(s, h, s');
  }

  lemma StepTracksCountOne(s: Sys, a: Step)
    ensures NewTrackedCountOne(s, Next(s, a))
  {
    if a.Receive? && a.r.Track? {
      ReceiveMoves(s, a.pid, a.r);
    } else {
      StepTracksNothing(s, a);
    }
  }

  lemma ReapKeepsCounts(s: Sys, pid: Pid)
    requires LedgerInv(s) && CountsMatch(s) && Redelivers(s, pid)
    ensures CountsMatch(DoRunReap(s, pid))
  {
    var a := Reaper(pid, RunReap);
    ConfigKept(s, a);
    StepTracksCountOne(s, a);
    ReapBooks(s, pid);
    RedeliverKeepsCounts(s, s.procs[pid].todo[0], DoRunReap(s, pid));
  }

  lemma OtherStepKeepsCounts(s: Sys, a: Step)
    requires CountsMatch(s)
    requires a.Receive? ==> !a.r.Put?
    requires a.Reaper? && a.q.RunReap? ==> !Redelivers(s, a.pid)
    ensures CountsMatch(Next(s, a))
  {
    ConfigKept(s, a);
    StepTracksCountOne(s, a);
    StepKeepsHashes(s, a);
    FrameKeepsCounts(s, Next(s, a));
  }

  lemma CountsKept(s: Sys, a: Step)
    requires LedgerInv(s) && CountsMatch(s)
    ensures CountsMatch(Next(s, a))
  {
    if a.Receive? && a.r.Put? {
      PutKeepsCounts(s, a.pid, a.r.h, a.r.timeout);
    } else if a.Reaper? && a.q.RunReap? && Redelivers(s, a.pid) {
      ReapKeepsCounts(s, a.pid);
    } else {
      OtherStepKeepsCounts(s, a);
    }
  }

  lemma StepKeepsHashes(s: Sys, a: Step)
    requires a.Receive? ==> !a.r.Put?
    requires a.Reaper? && a.q.RunReap? ==> !Redelivers(s, a.pid)
    ensures SameCounts(s, Next(s, a))
  {
    match a
    case Receive(pid, r) => ReceiveBooks(s, pid, r);
    case Client(pid, c) => if c.RunAck? { AckBooks(s, pid); } else { ClientBooks(s, pid, c); }
    case Reaper(pid, q) => if q.RunReap? { ReapBooks(s, pid); }
    case _ => EnvBooks(s, a);
  }

  lemma ResolveKeepsOneOutcome(s: Sys, h: Handle, why: Why, s': Sys)
    requires OneOutcome(s) && ResolvedNow(s, h, why, s')
    ensures OneOutcome(s')
  {
    ResolvedTally(s, h, why, s');
  }

  lemma FrameKeepsOneOutcome(s: Sys, s': Sys)
    requires OneOutcome(s) && ResolvedByHandle(s) && ResolvesNothing(s, s')
    ensures OneOutcome(s')
  {
    assert forall h :: Terminal(s', h) == Terminal(s, h);
  }

  lemma OneOutcomeKept(s: Sys, a: Step)
    requires LedgerInv(s) && OneOutcome(s)
    ensures OneOutcome(Next(s, a))
  {
    var s' := Next(s, a);
    if a.Client? && a.c.RunAck? && AcksNow(s, a.pid) {
      AckBooks(s, a.pid);
      ResolveKeepsOneOutcome(s, s.procs[a.pid].h, HolderAcked, s');
    } else if a.Reaper? && a.q.RunReap? && DeadLetters(s, a.pid) {
      ReapBooks(s, a.pid);
      ResolveKeepsOneOutcome(s, s.procs[a.pid].todo[0], HolderReaped, s');
    } else {
      StepResolvesNothing(s, a);
      FrameKeepsOneOutcome(s, s');
    }
  }

  /** The step leaves the outcomes alone, and a new hash belongs to a handle never issued before. */
  ghost predicate ResolvesNothing(s: Sys, s': Sys) {
    && s'.hist.tally.acks == s.hist.tally.acks && s'.hist.tally.dlqs == s.hist.tally.dlqs
    && (forall h :: h in s'.st.inflight ==> h in s.st.inflight || h !in s.hist.ledger.issued)
  }

  lemma StepResolvesNothing(s: Sys, a: Step)
    requires a.Client? && a.c.RunAck? ==> !AcksNow(s, a.pid)
    requires a.Reaper? && a.q.RunReap? ==> !DeadLetters(s, a.pid)
    ensures ResolvesNothing(s, Next(s, a))
  {
    match a
    case Receive(pid, r) => ReceiveBooks(s, pid, r);
    case Client(pid, c) => if c.RunAck? { AckBooks(s, pid); } else { ClientBooks(s, pid, c); }
    case Reaper(pid, q) => if q.RunReap? { ReapBooks(s, pid); }
    case _ => EnvBooks(s, a);
  }

  // ---------------------------------------------------------------------------------------------------------------
  // Calls of the DLQ sender
  // ---------------------------------------------------------------------------------------------------------------

  predicate Routes(s: Sys, p: Pid) {
    p in s.procs && s.procs[p].Routing?
  }

  /** A sweep about to call the sender is the only one to do so for its handle, and has not done so yet. */
  ghost predicate SendInv(s: Sys) {
    && (forall h :: s.hist.tally.sent[h] <= s.hist.tally.dlqs[h])
    && (forall p :: Routes(s, p) ==>
          s.hist.tally.sent[s.procs[p].h] == 0 && s.hist.tally.dlqs[s.procs[p].h] == 1)
    && (forall p, q :: Routes(s, p) && Routes(s, q) && s.procs[p].h == s.procs[q].h ==> p == q)
  }

  ghost predicate SendsNothing(s: Sys, s': Sys) {
    && s'.hist.tally.sent == s.hist.tally.sent
    && s'.hist.tally.dlqs == s.hist.tally.dlqs
    && (forall p :: Routes(s', p) ==> p in s.procs && s'.procs[p] == s.procs[p])
  }

  lemma FrameKeepsSends(s: Sys, s': Sys)
    requires SendInv(s) && SendsNothing(s, s')
    ensures SendInv(s')
  {
  }

  lemma DeadLetterKeepsSends(s: Sys, pid: Pid)
    requires OneOutcome(s) && SendInv(s) && DeadLetters(s, pid)
    ensures SendInv(DoRunReap(s, pid))
  {
    var h := s.procs[pid].todo[0];
    ReapBooks(s, pid);
    ReaperMoves(s, pid, RunReap);
    assert !Terminal(s, h);
    assert DoRunReap(s, pid).hist.tally.sent == s.hist.tally.sent;
  }

  lemma SendKeepsSends(s: Sys, pid: Pid, ok: bool)
    requires SendInv(s)
    ensures SendInv(DoSendDlq(s, pid, ok))
  {
    ReaperMoves(s, pid, SendDlq(ok));
  }

  /** The process that moves does not come to owe a send. */
  predicate OwesNothingNew(s: Sys, s': Sys, pid: Pid) {
    Routes(s', pid) ==> pid in s.procs && s'.procs[pid] == s.procs[pid]
  }

  lemma ReceiveOwesNothing(s: Sys, pid: Pid, r: ReceiveStep)
    ensures OwesNothingNew(s, ReceiveNext(s, pid, r), pid)
  {
  }

  lemma ClientOwesNothing(s: Sys, pid: Pid, c: ClientStep)
    ensures OwesNothingNew(s, ClientNext(s, pid, c), pid)
  {
  }

  lemma ClientSendsNothing(s: Sys, pid: Pid, c: ClientStep)
    ensures SendsNothing(s, ClientNext(s, pid, c))
  {
    ClientMoves(s, pid, c);
    ClientOwesNothing(s, pid, c);
    if c.RunAck? { AckBooks(s, pid); } else { ClientBooks(s, pid, c); }
  }

  lemma ReaperSendsNothing(s: Sys, pid: Pid, q: ReaperStep)
    requires q.BeginSweep? || (q.RunReap? && !DeadLetters(s, pid))
    ensures SendsNothing(s, ReaperNext(s, pid, q))
  {
    ReaperMoves(s, pid, q);
    if q.RunReap? { ReapBooks(s, pid); }
  }

  lemma StepSendsNothing(s: Sys, a: Step)
    requires a.Reaper? ==> a.q.BeginSweep? || (a.q.RunReap? && !DeadLetters(s, a.pid))
    ensures SendsNothing(s, Next(s, a))
  {
    match a
    case Receive(pid, r) => ReceiveMoves(s, pid, r); ReceiveOwesNothing(s, pid, r); ReceiveBooks(s, pid, r);
    case Client(pid, c) => ClientSendsNothing(s, pid, c);
    case Reaper(pid, q) => ReaperSendsNothing(s, pid, q);
    case _ => EnvBooks(s, a);
  }

  lemma SendsKept(s: Sys, a: Step)
    requires OneOutcome(s) && SendInv(s)
    ensures SendInv(Next(s, a))
  {
    if a.Reaper? && a.q.SendDlq? {
      SendKeepsSends(s, a.pid, a.q.ok);
    } else if a.Reaper? && a.q.RunReap? && DeadLetters(s, a.pid) {
      DeadLetterKeepsSends(s, a.pid);
    } else {
      StepSendsNothing(s, a);
      FrameKeepsSends(s, Next(s, a));
    }
  }

  // ---------------------------------------------------------------------------------------------------------------
  // Whole runs
  // ---------------------------------------------------------------------------------------------------------------

  ghost predicate OutcomeInv(s: Sys) {
    LedgerInv(s) && CountsMatch(s) && OneOutcome(s) && SendInv(s)
  }

  lemma {:induction false} OutcomeInvInEveryRun(maxReceive: int, hasDlq: bool, run: seq<Step>)
    ensures OutcomeInv(Exec(Init(maxReceive, hasDlq), run))
    ensures Exec(Init(maxReceive, hasDlq), run).maxReceive == maxReceive
  {
    if |run| > 0 {
      var n := |run| - 1;
      var s := Exec(Init(maxReceive, hasDlq), run[..n]);
      OutcomeInvInEveryRun(maxReceive, hasDlq, run[..n]);
      LedgerKept(s, run[n]);
      CountsKept(s, run[n]);
      OneOutcomeKept(s, run[n]);
      SendsKept(s, run[n]);
      ConfigKept(s, run[n]);
    }
  }

  /**
   In every run and for every handle: at most one terminal outcome, at most one call of the DLQ sender and only after
   a dead-letter reply, and at most max(1, MaxReceiveCount) redeliver and dead-letter replies together. A live message
   has been handed over to redelivery exactly receiveCount - 1 times.
   */
  lemma OutcomesInEveryRun(maxReceive: int, hasDlq: bool, run: seq<Step>, h: Handle)
    ensures
      var s := Exec(Init(maxReceive, hasDlq), run);
      && s.hist.tally.acks[h] + s.hist.tally.dlqs[h] <= 1
      && s.hist.tally.sent[h] <= s.hist.tally.dlqs[h]
      && s.hist.tally.redelivers[h] + s.hist.tally.dlqs[h] <= (if maxReceive < 1 then 1 else maxReceive)
      && (h in s.st.inflight ==>
            s.hist.tally.acks[h] + s.hist.tally.dlqs[h] == 0
            && s.st.inflight[h].fields.receiveCount == 1 + s.hist.tally.redelivers[h])
  {
    OutcomeInvInEveryRun(maxReceive, hasDlq, run);
    var s := Exec(Init(maxReceive, hasDlq), run);
    assert Terminal(s, h) <==> s.hist.tally.acks[h] + s.hist.tally.dlqs[h] > 0;
  }

  /** A message is dead-lettered on its last attempt and on no earlier one. */
  lemma DeadLetteredOnLastAttempt(s: Sys, pid: Pid)
    requires CountsMatch(s) && Reaps(s, pid) && !ReapReply(s, pid).Gone?
    ensures DeadLetters(s, pid) <==> s.hist.tally.redelivers[s.procs[pid].todo[0]] == Limit(s) - 1
  {
  }
}
