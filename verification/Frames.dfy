/** What the steps of each call leave alone, proved once for all the invariants. */
module Frames {
  import opened Store
  import opened Protocol

  /** Only process pid moved. */
  ghost predicate OnlyMoves(s: Sys, s': Sys, pid: Pid) {
    forall q :: q != pid ==> (q in s'.procs <==> q in s.procs) && (q in s.procs ==> s'.procs[q] == s.procs[q])
  }

  /** No hash is new, and those still there have not changed. */
  ghost predicate FewerHashes(s: Sys, s': Sys) {
    forall h :: h in s'.st.inflight ==> h in s.st.inflight && s'.st.inflight[h] == s.st.inflight[h]
  }

  lemma ReceiveMoves(s: Sys, pid: Pid, r: ReceiveStep)
    ensures OnlyMoves(s, ReceiveNext(s, pid, r), pid)
  {
  }

  lemma ClientMoves(s: Sys, pid: Pid, c: ClientStep)
    ensures OnlyMoves(s, ClientNext(s, pid, c), pid)
  {
  }

  lemma ReaperMoves(s: Sys, pid: Pid, q: ReaperStep)
    ensures OnlyMoves(s, ReaperNext(s, pid, q), pid)
  {
  }

  /** A hand-out resolves nothing; only its first command tracks an offset and only PutInFlight issues a handle. */
  lemma ReceiveBooks(s: Sys, pid: Pid, r: ReceiveStep)
    ensures ReceiveNext(s, pid, r).hist.tally == s.hist.tally
    ensures !r.Track? ==> ReceiveNext(s, pid, r).st.offsets == s.st.offsets
    ensures !r.Track? && !r.Put? ==> ReceiveNext(s, pid, r).hist.ledger == s.hist.ledger
    ensures !r.Put? ==> ReceiveNext(s, pid, r).st.inflight == s.st.inflight
  {
  }

  lemma ClientBooks(s: Sys, pid: Pid, c: ClientStep)
    requires !c.RunAck?
    ensures ClientNext(s, pid, c).hist == s.hist
    ensures ClientNext(s, pid, c).st.inflight == s.st.inflight
    ensures ClientNext(s, pid, c).st.offsets.pending == s.st.offsets.pending
    ensures !c.StoreWatermark? && !c.Commit? ==> ClientNext(s, pid, c).st.offsets == s.st.offsets
  {
  }

  lemma EnvBooks(s: Sys, a: Step)
    requires !a.Receive? && !a.Client? && !a.Reaper?
    ensures Next(s, a).hist.ledger == s.hist.ledger && Next(s, a).hist.tally == s.hist.tally
    ensures Next(s, a).st.offsets == s.st.offsets
    ensures FewerHashes(s, Next(s, a))
    ensures !a.Fail? ==> Next(s, a).procs == s.procs
  {
  }

  /** What an "acked" or a "dlq" reply for handle h does to the books. */
  ghost predicate ResolvedNow(s: Sys, h: Handle, why: Why, s': Sys) {
    && h in s.st.inflight
    && s'.hist.ledger == s.hist.ledger.(resolved := s.hist.ledger.resolved[s.st.inflight[h].fields.slot := h])
    && s'.hist.tally == (if why.HolderAcked? then s.hist.tally.(acks := s.hist.tally.acks + multiset{h})
                         else s.hist.tally.(dlqs := s.hist.tally.dlqs + multiset{h}))
    && s'.st.inflight == s.st.inflight - {h}
    && s'.st.offsets == RemovePendingOp(s.st, s.st.inflight[h].fields.slot).offsets
  }

  /** What a "redeliver" reply for handle h does to the books. */
  ghost predicate RedeliveredNow(s: Sys, h: Handle, s': Sys) {
    && h in s.st.inflight
    && s'.hist.ledger == s.hist.ledger
    && s'.hist.tally == s.hist.tally.(redelivers := s.hist.tally.redelivers + multiset{h})
    && s'.st.offsets == s.st.offsets
    && s'.st.inflight == s.st.inflight[h := s.st.inflight[h].(
         fields := s.st.inflight[h].fields.(receiveCount := s.st.inflight[h].fields.receiveCount + 1))]
  }

  ghost predicate SameBooks(s: Sys, s': Sys) {
    && s'.hist.ledger == s.hist.ledger && s'.hist.tally == s.hist.tally
    && s'.st.offsets == s.st.offsets && s'.st.inflight == s.st.inflight
  }

  /** Handle h was acked or dead-lettered. */
  predicate Terminal(s: Sys, h: Handle) {
    h in s.hist.tally.acks || h in s.hist.tally.dlqs
  }

  lemma ResolvedTally(s: Sys, h: Handle, why: Why, s': Sys)
    requires ResolvedNow(s, h, why, s')
    ensures forall g :: Terminal(s', g) <==> g == h || Terminal(s, g)
    ensures forall g :: s'.hist.tally.acks[g] + s'.hist.tally.dlqs[g]
                        == s.hist.tally.acks[g] + s.hist.tally.dlqs[g] + if g == h then 1 else 0
  {
  }

  lemma RedeliveredTally(s: Sys, h: Handle, s': Sys)
    requires RedeliveredNow(s, h, s')
    ensures s'.hist.tally.redelivers[h] == s.hist.tally.redelivers[h] + 1
    ensures forall g :: g != h ==> s'.hist.tally.redelivers[g] == s.hist.tally.redelivers[g]
    ensures s'.hist.tally == s.hist.tally.(redelivers := s'.hist.tally.redelivers)
  {
  }

  predicate AcksNow(s: Sys, pid: Pid) {
    At(s, pid) && s.procs[pid].Deleting? && s.procs[pid].h in s.st.inflight
  }

  lemma AckBooks(s: Sys, pid: Pid)
    ensures
      if AcksNow(s, pid) then ResolvedNow(s, s.procs[pid].h, HolderAcked, DoRunAck(s, pid))
      else SameBooks(s, DoRunAck(s, pid))
  {
  }

  predicate Reaps(s: Sys, pid: Pid) {
    At(s, pid) && s.procs[pid].Sweeping? && |s.procs[pid].todo| > 0
  }

  function ReapReply(s: Sys, pid: Pid): ReapOutcome
    requires Reaps(s, pid)
  {
    ReapOp(s.st, s.procs[pid].todo[0], s.maxReceive).1
  }

  predicate DeadLetters(s: Sys, pid: Pid) {
    Reaps(s, pid) && ReapReply(s, pid).DeadLetter?
  }

  predicate Redelivers(s: Sys, pid: Pid) {
    Reaps(s, pid) && ReapReply(s, pid).Redeliver?
  }

  lemma ReapBooks(s: Sys, pid: Pid)
    ensures
      var s' := DoRunReap(s, pid);
      if DeadLetters(s, pid) then ResolvedNow(s, s.procs[pid].todo[0], HolderReaped, s')
      else if Redelivers(s, pid) then RedeliveredNow(s, s.procs[pid].todo[0], s')
      else SameBooks(s, s')
  {
  }

  lemma ConfigKept(s: Sys, a: Step)
    ensures Next(s, a).maxReceive == s.maxReceive && Next(s, a).hasDlq == s.hasDlq
  {
  }

  // Runs of one and two steps, and runs put together.

  lemma ExecOne(s: Sys, a: Step)
    ensures Exec(s, [a]) == Next(s, a)
  {
    assert [a][..0] == [];
  }

  lemma ExecTwo(s: Sys, a: Step, b: Step)
    ensures Exec(s, [a, b]) == Next(Next(s, a), b)
  {
    assert [a, b][..1] == [a];
    ExecOne(s, a);
  }

  lemma ExecAppend(s: Sys, run: seq<Step>, a: Step)
    ensures Exec(s, run + [a]) == Next(Exec(s, run), a)
  {
    assert (run + [a])[..|run|] == run;
  }

  lemma {:induction false} ExecConcat(s: Sys, a: seq<Step>, b: seq<Step>)
    ensures Exec(s, a + b) == Exec(Exec(s, a), b)
  {
    if |b| == 0 {
      assert a + b == a;
    } else {
      assert a + b == (a + b[..|b| - 1]) + [b[|b| - 1]];
      ExecAppend(s, a + b[..|b| - 1], b[|b| - 1]);
      ExecConcat(s, a, b[..|b| - 1]);
    }
  }
}
