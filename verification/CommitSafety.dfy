/**
 The at-least-once guarantee: a restart, which resumes every partition at its committed offset, never skips a tracked
 record that is not resolved. Two facts carry it: a tracked and unresolved offset is always in its pending set, and a
 minimum read from that set stays a safe commit point however late it is committed.
 */
module CommitSafety {
  import opened Store
  import opened Protocol
  import opened Frames

  // ---------------------------------------------------------------------------------------------------------------
  // The ledger
  // ---------------------------------------------------------------------------------------------------------------

  datatype Status = Unseen | Outstanding | Resolved

  function StatusOf(s: Sys, e: Slot): Status {
    if e in s.hist.ledger.resolved then Resolved
    else if e in s.hist.ledger.seen then Outstanding
    else Unseen
  }

  /** Every handle was issued for a tracked offset, and an in-flight hash belongs to an issued handle. */
  ghost predicate Issued(s: Sys) {
    var l := s.hist.ledger;
    && (forall h :: h in s.st.inflight ==> h in l.issued && l.issued[h] == s.st.inflight[h].fields.slot)
    && (forall h :: h in l.issued ==> l.issued[h] in l.seen)
    && (forall pid :: pid in s.procs && s.procs[pid].Tracked? ==> s.procs[pid].fields.slot in l.seen)
  }

  /** Resolved means that some handle issued for the offset was acked or dead-lettered. */
  ghost predicate ResolvedByHandle(s: Sys) {
    var l := s.hist.ledger;
    && (forall h :: Terminal(s, h) ==> h in l.issued && l.issued[h] in l.resolved)
    && (forall e :: e in l.resolved ==>
          var h := l.resolved[e]; h in l.issued && l.issued[h] == e && Terminal(s, h))
  }

  /** The coupling invariant: an outstanding offset is in its pending set, and every pending offset was tracked. */
  ghost predicate Coupled(s: Sys) {
    && (forall e :: e in s.hist.ledger.seen && e !in s.hist.ledger.resolved ==> IsPending(s.st, e))
    && (forall e :: IsPending(s.st, e) ==> e in s.hist.ledger.seen)
  }

  ghost predicate LedgerInv(s: Sys) {
    Issued(s) && ResolvedByHandle(s) && Coupled(s)
  }

  ghost predicate NoNewTracked(s: Sys, s': Sys) {
    forall pid :: pid in s'.procs && s'.procs[pid].Tracked? ==> pid in s.procs && s'.procs[pid] == s.procs[pid]
  }

  /** No hash is new, and those still there belong to the same record. */
  ghost predicate SameRecords(s: Sys, s': Sys) {
    forall h :: h in s'.st.inflight ==>
      h in s.st.inflight && s'.st.inflight[h].fields.slot == s.st.inflight[h].fields.slot
  }

  /** The step touches nothing the ledger is about: no offset is tracked or resolved and no handle issued. */
  ghost predicate Stutters(s: Sys, s': Sys) {
    && s'.hist.ledger == s.hist.ledger
    && s'.hist.tally == s.hist.tally.(redelivers := s'.hist.tally.redelivers, sent := s'.hist.tally.sent)
    && s'.st.offsets == s.st.offsets.(watermark := s'.st.offsets.watermark, committed := s'.st.offsets.committed)
    && SameRecords(s, s')
  }

  lemma StutterKeepsLedger(s: Sys, s': Sys)
    requires LedgerInv(s) && Stutters(s, s') && NoNewTracked(s, s')
    ensures LedgerInv(s')
  {
    assert forall e :: IsPending(s'.st, e) == IsPending(s.st, e);
    assert forall h :: Terminal(s', h) == Terminal(s, h);
  }

  lemma ResolveKeepsIssued(s: Sys, h: Handle, why: Why, s': Sys)
    requires Issued(s) && ResolvedNow(s, h, why, s') && NoNewTracked(s, s')
    ensures Issued(s')
  {
  }

  lemma ResolveKeepsResolved(s: Sys, h: Handle, why: Why, s': Sys)
    requires Issued(s) && ResolvedByHandle(s) && ResolvedNow(s, h, why, s')
    ensures ResolvedByHandle(s')
  {
    ResolvedTally(s, h, why, s');
  }

  lemma ResolveKeepsCoupling(s: Sys, h: Handle, why: Why, s': Sys)
    requires Issued(s) && Coupled(s) && ResolvedNow(s, h, why, s')
    ensures Coupled(s')
  {
  }

  lemma ResolveKeepsLedger(s: Sys, h: Handle, why: Why, s': Sys)
    requires LedgerInv(s) && ResolvedNow(s, h, why, s') && NoNewTracked(s, s')
    ensures LedgerInv(s')
  {
    ResolveKeepsIssued(s, h, why, s');
    ResolveKeepsResolved(s, h, why, s');
    ResolveKeepsCoupling(s, h, why, s');
  }

  lemma TrackKeepsLedger(s: Sys, pid: Pid, f: InFlight)
    requires LedgerInv(s)
    ensures LedgerInv(DoTrack(s, pid, f))
  {
  }

  lemma PutKeepsLedger(s: Sys, pid: Pid, h: Handle, timeout: int)
    requires LedgerInv(s)
    ensures LedgerInv(DoPut(s, pid, h, timeout))
  {
  }

  /** The three kinds of step the ledger can see. */
  ghost predicate LedgerStep(s: Sys, a: Step, s': Sys) {
    || Stutters(s, s')
    || (a.Client? && a.c.RunAck? && AcksNow(s, a.pid) && ResolvedNow(s, s.procs[a.pid].h, HolderAcked, s'))
    || (a.Reaper? && a.q.RunReap? && DeadLetters(s, a.pid)
        && ResolvedNow(s, s.procs[a.pid].todo[0], HolderReaped, s'))
  }

  lemma StepIsLedgerStep(s: Sys, a: Step)
    requires a.Receive? ==> !a.r.Track? && !a.r.Put?
    ensures LedgerStep(s, a, Next(s, a))
  {
    match a
    case Receive(pid, r) => ReceiveBooks(s, pid, r);
    case Client(pid, c) => if c.RunAck? { AckBooks(s, pid); } else { ClientBooks(s, pid, c); }
    case Reaper(pid, q) => if q.RunReap? { ReapBooks(s, pid); }
    case _ => EnvBooks(s, a);
  }

  lemma StepTracksNothing(s: Sys, a: Step)
    requires a.Receive? ==> !a.r.Track?
    ensures NoNewTracked(s, Next(s, a))
  {
    match a
    case Receive(pid, r) => ReceiveMoves(s, pid, r);
    case Client(pid, c) => ClientMoves(s, pid, c);
    case Reaper(pid, q) => ReaperMoves(s, pid, q);
    case _ =>
  }

  lemma LedgerKept(s: Sys, a: Step)
    requires LedgerInv(s)
    ensures LedgerInv(Next(s, a))
  {
    if a.Receive? && a.r.Track? {
      TrackKeepsLedger(s, a.pid, a.r.fields);
    } else if a.Receive? && a.r.Put? {
      PutKeepsLedger(s, a.pid, a.r.h, a.r.timeout);
    } else {
      StepIsLedgerStep(s, a);
      StepTracksNothing(s, a);
      LedgerStepKeeps(s, a, Next(s, a));
    }
  }

  lemma LedgerStepKeeps(s: Sys, a: Step, s': Sys)
    requires LedgerInv(s) && LedgerStep(s, a, s') && NoNewTracked(s, s')
    ensures LedgerInv(s')
  {
    if Stutters(s, s') {
      StutterKeepsLedger(s, s');
    } else if a.Client? {
      ResolveKeepsLedger(s, s.procs[a.pid].h, HolderAcked, s');
    } else {
      ResolveKeepsLedger(s, s.procs[a.pid].todo[0], HolderReaped, s');
    }
  }

  /** The ledger invariant holds after every run, whatever the order in which records are tracked. */
  lemma {:induction false} LedgerInEveryRun(maxReceive: int, hasDlq: bool, run: seq<Step>)
    ensures LedgerInv(Exec(Init(maxReceive, hasDlq), run))
  {
    if |run| > 0 {
      var n := |run| - 1;
      LedgerInEveryRun(maxReceive, hasDlq, run[..n]);
      LedgerKept(Exec(Init(maxReceive, hasDlq), run[..n]), run[n]);
    }
  }

  /** Step a tracks offset e. */
  predicate Tracks(s: Sys, a: Step, e: Slot) {
    a.Receive? && a.r.Track? && Idle(s, a.pid) && a.r.fields.slot == e
  }

  /** Step a acks, or dead-letters, a live handle issued for offset e. */
  predicate Resolves(s: Sys, a: Step, e: Slot) {
    || (a.Client? && a.c.RunAck? && AcksNow(s, a.pid) && s.st.inflight[s.procs[a.pid].h].fields.slot == e)
    || (a.Reaper? && a.q.RunReap? && DeadLetters(s, a.pid)
        && s.st.inflight[s.procs[a.pid].todo[0]].fields.slot == e)
  }

  lemma TrackMovesStatus(s: Sys, pid: Pid, f: InFlight, e: Slot)
    ensures StatusOf(DoTrack(s, pid, f), e) ==
      if StatusOf(s, e) == Unseen && Idle(s, pid) && f.slot == e then Outstanding else StatusOf(s, e)
  {
  }

  lemma PutMovesNoStatus(s: Sys, pid: Pid, h: Handle, timeout: int, e: Slot)
    ensures StatusOf(DoPut(s, pid, h, timeout), e) == StatusOf(s, e)
  {
  }

  lemma ResolveMovesStatus(s: Sys, h: Handle, why: Why, s': Sys, e: Slot)
    requires LedgerInv(s) && ResolvedNow(s, h, why, s')
    ensures StatusOf(s', e) == if s.st.inflight[h].fields.slot == e then Resolved else StatusOf(s, e)
    ensures StatusOf(s, s.st.inflight[h].fields.slot) != Unseen
  {
  }

  lemma AckMovesStatus(s: Sys, pid: Pid, e: Slot)
    requires LedgerInv(s)
    ensures
      var acked := AcksNow(s, pid) && s.st.inflight[s.procs[pid].h].fields.slot == e;
      && StatusOf(DoRunAck(s, pid), e) == (if acked then Resolved else StatusOf(s, e))
      && (acked ==> StatusOf(s, e) != Unseen)
  {
    AckBooks(s, pid);
    if AcksNow(s, pid) { ResolveMovesStatus(s, s.procs[pid].h, HolderAcked, DoRunAck(s, pid), e); }
  }

  lemma ReapMovesStatus(s: Sys, pid: Pid, e: Slot)
    requires LedgerInv(s)
    ensures
      var dead := DeadLetters(s, pid) && s.st.inflight[s.procs[pid].todo[0]].fields.slot == e;
      && StatusOf(DoRunReap(s, pid), e) == (if dead then Resolved else StatusOf(s, e))
      && (dead ==> StatusOf(s, e) != Unseen)
  {
    ReapBooks(s, pid);
    if DeadLetters(s, pid) { ResolveMovesStatus(s, s.procs[pid].todo[0], HolderReaped, DoRunReap(s, pid), e); }
  }

  lemma OtherStepKeepsLedger(s: Sys, a: Step)
    requires a.Receive? ==> !a.r.Track? && !a.r.Put?
    requires (a.Client? ==> !a.c.RunAck?) && (a.Reaper? ==> !a.q.RunReap?)
    ensures Next(s, a).hist.ledger == s.hist.ledger
  {
    match a
    case Receive(pid, r) => ReceiveBooks(s, pid, r);
    case Client(pid, c) => ClientBooks(s, pid, c);
    case Reaper(pid, q) =>
    case _ => EnvBooks(s, a);
  }

  /**
   The machine refines the three-state ledger. Tracking is the only step into Outstanding, and it comes from Unseen;
   an ack or a DLQ reap of a live handle is the only step into Resolved, and it never comes from Unseen; no other step,
   be it an expiry, a crash or a commit, changes the status of any offset.
   */
  lemma LedgerRefinement(s: Sys, a: Step, e: Slot)
    requires LedgerInv(s)
    ensures
      StatusOf(Next(s, a), e) ==
        if Resolves(s, a, e) then Resolved
        else if StatusOf(s, e) == Unseen && Tracks(s, a, e) then Outstanding
        else StatusOf(s, e)
    ensures Resolves(s, a, e) ==> StatusOf(s, e) != Unseen
  {
    if a.Receive? && a.r.Track? {
      TrackMovesStatus(s, a.pid, a.r.fields, e);
    } else if a.Receive? && a.r.Put? {
      PutMovesNoStatus(s, a.pid, a.r.h, a.r.timeout, e);
    } else if a.Client? && a.c.RunAck? {
      AckMovesStatus(s, a.pid, e);
    } else if a.Reaper? && a.q.RunReap? {
      ReapMovesStatus(s, a.pid, e);
    } else {
      OtherStepKeepsLedger(s, a);
    }
  }

  // ---------------------------------------------------------------------------------------------------------------
  // Commit points
  // ---------------------------------------------------------------------------------------------------------------

  /** Resuming partition p at offset m skips no tracked record that is still outstanding. */
  ghost predicate SafePoint(s: Sys, p: Partition, m: int) {
    forall e :: e in s.hist.ledger.seen && e.part == p && e.offset < m ==> e in s.hist.ledger.resolved
  }

  /** The call has read a minimum it has not committed yet. */
  predicate HasRead(pc: Proc) {
    pc.Storing? || pc.Committing?
  }

  /** The committed offsets, and every minimum still on its way to being committed, are safe points. */
  ghost predicate CommitInv(s: Sys) {
    && (forall p :: p in s.st.offsets.committed ==> SafePoint(s, p, s.st.offsets.committed[p]))
    && (forall pid :: pid in s.procs && HasRead(s.procs[pid]) ==>
          SafePoint(s, s.procs[pid].part, s.procs[pid].least))
  }

  predicate BelowCommit(s: Sys, e: Slot) {
    e.part in s.st.offsets.committed && e.offset < s.st.offsets.committed[e.part]
  }

  /** What a restart relies on: everything below the committed offset that was ever tracked is resolved. */
  ghost predicate RestartSkipsNothing(s: Sys) {
    forall e :: e in s.hist.ledger.seen && BelowCommit(s, e) ==> e in s.hist.ledger.resolved
  }

  /** No commit point, settled or on its way, lies above this offset. */
  ghost predicate AboveCommits(s: Sys, e: Slot) {
    && (e.part in s.st.offsets.committed ==> s.st.offsets.committed[e.part] <= e.offset)
    && (forall pid :: pid in s.procs && HasRead(s.procs[pid]) && s.procs[pid].part == e.part ==>
          s.procs[pid].least <= e.offset)
  }

  /** A record enters its pending set for the first time. */
  predicate TracksNew(s: Sys, a: Step) {
    a.Receive? && a.r.Track? && Idle(s, a.pid) && a.r.fields.slot !in s.hist.ledger.seen
  }

  /** Every newly tracked record of the run is above the commit points of its partition at that moment. */
  ghost predicate TracksAboveCommits(s: Sys, run: seq<Step>) {
    forall k :: 0 <= k < |run| && TracksNew(Exec(s, run[..k]), run[k]) ==>
      AboveCommits(Exec(s, run[..k]), run[k].r.fields.slot)
  }

  /** s' has no commit point that s has not, sees no new offset and forgets no resolved one. */
  ghost predicate NoNewCommits(s: Sys, s': Sys) {
    && s'.hist.ledger.seen == s.hist.ledger.seen
    && (forall e :: e in s.hist.ledger.resolved ==> e in s'.hist.ledger.resolved)
    && s'.st.offsets.committed == s.st.offsets.committed
    && (forall pid :: pid in s'.procs && HasRead(s'.procs[pid]) ==>
          && pid in s.procs && HasRead(s.procs[pid])
          && s.procs[pid].part == s'.procs[pid].part && s.procs[pid].least == s'.procs[pid].least)
  }

  lemma FrameKeepsCommits(s: Sys, s': Sys)
    requires CommitInv(s) && NoNewCommits(s, s')
    ensures CommitInv(s')
  {
    forall p, m | SafePoint(s, p, m) ensures SafePoint(s', p, m) {}
  }

  lemma ReceiveCommits(s: Sys, pid: Pid, r: ReceiveStep)
    requires !r.Track?
    ensures NoNewCommits(s, ReceiveNext(s, pid, r))
  {
    ReceiveMoves(s, pid, r);
    if r.Put? {
    } else {
      ReceiveBooks(s, pid, r);
    }
  }

  lemma ClientCommits(s: Sys, pid: Pid, c: ClientStep)
    requires !c.ReadMin? && !c.Commit?
    ensures NoNewCommits(s, ClientNext(s, pid, c))
  {
    ClientMoves(s, pid, c);
    if c.RunAck? {
      AckBooks(s, pid);
    } else {
      ClientBooks(s, pid, c);
    }
  }

  lemma ReaperCommits(s: Sys, pid: Pid, q: ReaperStep)
    ensures NoNewCommits(s, ReaperNext(s, pid, q))
  {
    ReaperMoves(s, pid, q);
    if q.RunReap? { ReapBooks(s, pid); }
  }

  lemma EnvCommits(s: Sys, a: Step)
    requires !a.Receive? && !a.Client? && !a.Reaper?
    ensures NoNewCommits(s, Next(s, a))
  {
    EnvBooks(s, a);
  }

  /** The heart of the argument: the least pending offset is a safe point, by the coupling invariant. */
  lemma MinPendingIsSafe(s: Sys, p: Partition)
    requires Coupled(s) && MinPending(s.st, p).Some?
    ensures SafePoint(s, p, MinPending(s.st, p).value)
  {
    forall e | e in s.hist.ledger.seen && e.part == p && e.offset < MinPending(s.st, p).value
      ensures e in s.hist.ledger.resolved
    {
      assert !IsPending(s.st, e);
    }
  }

  lemma ReadMinKeepsCommits(s: Sys, pid: Pid)
    requires Coupled(s) && CommitInv(s)
    ensures CommitInv(DoReadMin(s, pid))
  {
    var s' := DoReadMin(s, pid);
    if At(s, pid) && s.procs[pid].Advancing? && MinPending(s.st, s.procs[pid].part).Some? {
      MinPendingIsSafe(s, s.procs[pid].part);
    }
    forall p, m | SafePoint(s, p, m) ensures SafePoint(s', p, m) {}
  }

  lemma CommitKeepsCommits(s: Sys, pid: Pid)
    requires CommitInv(s)
    ensures CommitInv(DoCommit(s, pid))
  {
    var s' := DoCommit(s, pid);
    forall p, m | SafePoint(s, p, m) ensures SafePoint(s', p, m) {}
  }

  lemma TrackKeepsCommits(s: Sys, pid: Pid, f: InFlight)
    requires CommitInv(s)
    requires Idle(s, pid) && f.slot !in s.hist.ledger.seen ==> AboveCommits(s, f.slot)
    ensures CommitInv(DoTrack(s, pid, f))
  {
    var s' := DoTrack(s, pid, f);
    forall p, m | SafePoint(s, p, m) && (f.slot in s.hist.ledger.seen || p != f.slot.part || m <= f.slot.offset)
      ensures SafePoint(s', p, m) {}
  }

  lemma CommitsKept(s: Sys, a: Step)
    requires LedgerInv(s) && CommitInv(s)
    requires TracksNew(s, a) ==> AboveCommits(s, a.r.fields.slot)
    ensures CommitInv(Next(s, a))
  {
    match a
    case Receive(pid, r) =>
      if r.Track? { TrackKeepsCommits(s, pid, r.fields); }
      else { ReceiveCommits(s, pid, r); FrameKeepsCommits(s, Next(s, a)); }
    case Client(pid, c) =>
      if c.ReadMin? { ReadMinKeepsCommits(s, pid); }
      else if c.Commit? { CommitKeepsCommits(s, pid); }
      else { ClientCommits(s, pid, c); FrameKeepsCommits(s, Next(s, a)); }
    case Reaper(pid, q) => ReaperCommits(s, pid, q); FrameKeepsCommits(s, Next(s, a));
    case _ => EnvCommits(s, a); FrameKeepsCommits(s, Next(s, a));
  }

  /**
   After any run that tracks new records above the commit points, a restart skips nothing, and neither would it if
   any advanceWatermark call, however slow, committed what it has read.
   */
  lemma {:induction false} RestartSkipsNothingInEveryRun(maxReceive: int, hasDlq: bool, run: seq<Step>)
    requires TracksAboveCommits(Init(maxReceive, hasDlq), run)
    ensures CommitInv(Exec(Init(maxReceive, hasDlq), run))
    ensures RestartSkipsNothing(Exec(Init(maxReceive, hasDlq), run))
  {
    if |run| > 0 {
      var n, init := |run| - 1, Init(maxReceive, hasDlq);
      forall k | 0 <= k < n && TracksNew(Exec(init, run[..n][..k]), run[..n][k])
        ensures AboveCommits(Exec(init, run[..n][..k]), run[..n][k].r.fields.slot)
      {
        assert run[..n][..k] == run[..k];
      }
      RestartSkipsNothingInEveryRun(maxReceive, hasDlq, run[..n]);
      LedgerInEveryRun(maxReceive, hasDlq, run[..n]);
      CommitsKept(Exec(init, run[..n]), run[n]);
    }
  }
}
