/** When tracking a record is safe: log order suffices, and the exact condition is a comparison with the commit points. */
module CommitOrder {
  import opened Store
  import opened Protocol
  import opened Frames
  import opened CommitSafety

  // ---------------------------------------------------------------------------------------------------------------
  // Log order
  // ---------------------------------------------------------------------------------------------------------------

  ghost predicate AboveSeen(s: Sys, e: Slot) {
    forall x :: x in s.hist.ledger.seen && x.part == e.part ==> x.offset < e.offset
  }

  /** The records of a partition are first tracked in log order. Gaps and replays are allowed. */
  ghost predicate TracksInLogOrder(s: Sys, run: seq<Step>) {
    forall k :: 0 <= k < |run| && TracksNew(Exec(s, run[..k]), run[k]) ==>
      AboveSeen(Exec(s, run[..k]), run[k].r.fields.slot)
  }

  /** Every commit point is an offset that was tracked. */
  ghost predicate CommitsWereSeen(s: Sys) {
    && (forall p :: p in s.st.offsets.committed ==> Slot(p, s.st.offsets.committed[p]) in s.hist.ledger.seen)
    && (forall pid :: pid in s.procs && HasRead(s.procs[pid]) ==>
          Slot(s.procs[pid].part, s.procs[pid].least) in s.hist.ledger.seen)
  }

  lemma CommitsWereSeenKept(s: Sys, a: Step)
    requires Coupled(s) && CommitsWereSeen(s)
    ensures CommitsWereSeen(Next(s, a))
  {
    match a
    case Receive(pid, r) => if !r.Track? { ReceiveCommits(s, pid, r); }
    case Client(pid, c) =>
      if c.ReadMin? {
        if At(s, pid) && s.procs[pid].Advancing? && MinPending(s.st, s.procs[pid].part).Some? {
          assert IsPending(s.st, Slot(s.procs[pid].part, MinPending(s.st, s.procs[pid].part).value));
        }
      } else if !c.Commit? {
        ClientCommits(s, pid, c);
      }
    case Reaper(pid, q) => ReaperCommits(s, pid, q);
    case _ => EnvCommits(s, a);
  }

  lemma {:induction false} CommitsWereSeenInEveryRun(maxReceive: int, hasDlq: bool, run: seq<Step>)
    ensures CommitsWereSeen(Exec(Init(maxReceive, hasDlq), run))
  {
    if |run| > 0 {
      var n := |run| - 1;
      CommitsWereSeenInEveryRun(maxReceive, hasDlq, run[..n]);
      LedgerInEveryRun(maxReceive, hasDlq, run[..n]);
      CommitsWereSeenKept(Exec(Init(maxReceive, hasDlq), run[..n]), run[n]);
    }
  }

  /** Every stored watermark is one below an offset that was tracked. */
  ghost predicate WatermarksWereSeen(s: Sys) {
    forall p :: p in s.st.offsets.watermark ==> Slot(p, s.st.offsets.watermark[p] + 1) in s.hist.ledger.seen
  }

  lemma SeenStays(s: Sys, a: Step)
    ensures s.hist.ledger.seen <= Next(s, a).hist.ledger.seen
    ensures !(a.Client? && a.c.StoreWatermark?) ==> Next(s, a).st.offsets.watermark == s.st.offsets.watermark
  {
    match a
    case Receive(pid, r) => if !r.Track? { ReceiveBooks(s, pid, r); }
    case Client(pid, c) => if c.RunAck? { AckBooks(s, pid); } else { ClientBooks(s, pid, c); }
    case Reaper(pid, q) => if q.RunReap? { ReapBooks(s, pid); }
    case _ => EnvBooks(s, a);
  }

  lemma {:induction false} WatermarksWereSeenInEveryRun(maxReceive: int, hasDlq: bool, run: seq<Step>)
    ensures WatermarksWereSeen(Exec(Init(maxReceive, hasDlq), run))
  {
    if |run| > 0 {
      var n := |run| - 1;
      var s := Exec(Init(maxReceive, hasDlq), run[..n]);
      WatermarksWereSeenInEveryRun(maxReceive, hasDlq, run[..n]);
      CommitsWereSeenInEveryRun(maxReceive, hasDlq, run[..n]);
      SeenStays(s, run[n]);
    }
  }

  /** If records reach AddPending in log order, a restart never skips a tracked record that is not resolved. */
  lemma LogOrderMakesRestartsSafe(maxReceive: int, hasDlq: bool, run: seq<Step>)
    requires TracksInLogOrder(Init(maxReceive, hasDlq), run)
    ensures RestartSkipsNothing(Exec(Init(maxReceive, hasDlq), run))
    ensures CommitInv(Exec(Init(maxReceive, hasDlq), run))
  {
    var init := Init(maxReceive, hasDlq);
    forall k | 0 <= k < |run| && TracksNew(Exec(init, run[..k]), run[k])
      ensures AboveCommits(Exec(init, run[..k]), run[k].r.fields.slot)
    {
      CommitsWereSeenInEveryRun(maxReceive, hasDlq, run[..k]);
      var s, e := Exec(init, run[..k]), run[k].r.fields.slot;
      assert AboveSeen(s, e);
    }
    RestartSkipsNothingInEveryRun(maxReceive, hasDlq, run);
  }

  // ---------------------------------------------------------------------------------------------------------------
  // The exact condition
  // ---------------------------------------------------------------------------------------------------------------

  predicate TracksNothing(run: seq<Step>) {
    forall k :: 0 <= k < |run| ==> !(run[k].Receive? && run[k].r.Track?)
  }

  lemma {:induction false} NothingTrackedKeepsCommits(s: Sys, run: seq<Step>)
    requires LedgerInv(s) && CommitInv(s) && TracksNothing(run)
    ensures LedgerInv(Exec(s, run)) && CommitInv(Exec(s, run))
  {
    if |run| > 0 {
      var n := |run| - 1;
      NothingTrackedKeepsCommits(s, run[..n]);
      LedgerKept(Exec(s, run[..n]), run[n]);
      CommitsKept(Exec(s, run[..n]), run[n]);
    }
  }

  /** A commit point above an outstanding offset does its harm within two steps of the call that holds it. */
  lemma CommitPointPassesOffset(s: Sys, e: Slot) returns (run: seq<Step>)
    requires e in s.hist.ledger.seen && e !in s.hist.ledger.resolved && !AboveCommits(s, e)
    ensures TracksNothing(run) && !RestartSkipsNothing(Exec(s, run))
  {
    if BelowCommit(s, e) {
      run := [];
      return;
    }
    var pid :| pid in s.procs && HasRead(s.procs[pid]) && s.procs[pid].part == e.part && s.procs[pid].least > e.offset;
    if s.procs[pid].Committing? {
      run := [Client(pid, Commit)];
      ExecOne(s, run[0]);
    } else {
      run := [Client(pid, StoreWatermark), Client(pid, Commit)];
      ExecTwo(s, run[0], run[1]);
    }
    assert BelowCommit(Exec(s, run), e);
  }

  lemma TrackedAboveIsSafe(s: Sys, pid: Pid, f: InFlight, run: seq<Step>)
    requires LedgerInv(s) && CommitInv(s) && TracksNew(s, Receive(pid, Track(f))) && AboveCommits(s, f.slot)
    requires TracksNothing(run)
    ensures RestartSkipsNothing(Exec(DoTrack(s, pid, f), run))
  {
    TrackKeepsLedger(s, pid, f);
    TrackKeepsCommits(s, pid, f);
    NothingTrackedIsSafe(DoTrack(s, pid, f), run);
  }

  /**
   Tracking a record for the first time is safe, whatever all other calls do next, if and only if its offset is not
   below the committed offset of its partition nor below a minimum some advanceWatermark call has read and not yet
   committed.
   */
  lemma FirstTrackingIsSafeIff(s: Sys, pid: Pid, f: InFlight)
    requires LedgerInv(s) && CommitInv(s) && TracksNew(s, Receive(pid, Track(f)))
    ensures
      AboveCommits(s, f.slot) <==>
      forall run :: TracksNothing(run) ==> RestartSkipsNothing(Exec(DoTrack(s, pid, f), run))
  {
    if AboveCommits(s, f.slot) {
      forall run | TracksNothing(run) ensures RestartSkipsNothing(Exec(DoTrack(s, pid, f), run)) {
        TrackedAboveIsSafe(s, pid, f, run);
      }
    } else {
      TrackedBelowCommits(s, pid, f);
      var run := CommitPointPassesOffset(DoTrack(s, pid, f), f.slot);
    }
  }

  lemma NothingTrackedIsSafe(s: Sys, run: seq<Step>)
    requires LedgerInv(s) && CommitInv(s) && TracksNothing(run)
    ensures RestartSkipsNothing(Exec(s, run))
  {
    NothingTrackedKeepsCommits(s, run);
    var t := Exec(s, run);
    forall e | e in t.hist.ledger.seen && BelowCommit(t, e) ensures e in t.hist.ledger.resolved {
      assert SafePoint(t, e.part, t.st.offsets.committed[e.part]);
    }
  }

  lemma TrackedBelowCommits(s: Sys, pid: Pid, f: InFlight)
    requires LedgerInv(s) && TracksNew(s, Receive(pid, Track(f))) && !AboveCommits(s, f.slot)
    ensures
      var s' := DoTrack(s, pid, f);
      f.slot in s'.hist.ledger.seen && f.slot !in s'.hist.ledger.resolved && !AboveCommits(s', f.slot)
  {
    var s' := DoTrack(s, pid, f);
    if !BelowCommit(s, f.slot) {
      var q :| q in s.procs && HasRead(s.procs[q]) && s.procs[q].part == f.slot.part && s.procs[q].least > f.slot.offset;
      assert s'.procs[q] == s.procs[q];
    }
  }

  // ---------------------------------------------------------------------------------------------------------------
  // The condition is needed
  // ---------------------------------------------------------------------------------------------------------------

  function Plain(offset: int): InFlight {
    InFlight(Slot(Partition("0", 0), offset), "t", "", "b", 1)
  }

  /** One uninterrupted hand-out of a fresh record of a standard queue. */
  lemma HandOut(s: Sys, pid: Pid, offset: int, h: Handle) returns (run: seq<Step>)
    requires Idle(s, pid) && h !in s.hist.ledger.issued
    ensures
      var t, f := Exec(s, run), Plain(offset);
      && t.procs == s.procs
      && PendingOf(t.st, f.slot.part) == PendingOf(s.st, f.slot.part) + {offset}
      && t.st.offsets.committed == s.st.offsets.committed
      && h in t.st.inflight && t.st.inflight[h].fields == f
      && (forall g :: g != h ==> (g in t.st.inflight <==> g in s.st.inflight)
                                 && (g in s.st.inflight ==> t.st.inflight[g] == s.st.inflight[g]))
      && t.hist.ledger == s.hist.ledger.(
           seen := s.hist.ledger.seen + {f.slot}, issued := s.hist.ledger.issued[h := f.slot])
  {
    var f := Plain(offset);
    run := [Receive(pid, Track(f)), Receive(pid, Put(h, 1)), Receive(pid, Deliver)];
    ExecTwo(s, run[0], run[1]);
    assert run == run[..2] + [run[2]] && run[..2] == [run[0], run[1]];
    ExecAppend(s, run[..2], run[2]);
    var t := Exec(s, run);
    assert t.procs == s.procs;
  }

  /** One uninterrupted DeleteMessage of a live message of a standard queue, while others of its partition are pending. */
  lemma DeleteOne(s: Sys, pid: Pid, h: Handle) returns (run: seq<Step>)
    requires Idle(s, pid) && h in s.st.inflight && s.st.inflight[h].fields.group == ""
    requires PendingOf(s.st, s.st.inflight[h].fields.slot.part) - {s.st.inflight[h].fields.slot.offset} != {}
    ensures
      var t, f := Exec(s, run), s.st.inflight[h].fields;
      && t.procs == s.procs && t.hist.ledger.seen == s.hist.ledger.seen
      && t.hist.ledger.resolved == s.hist.ledger.resolved[f.slot := h]
      && f.slot.part in t.st.offsets.committed
      && t.st.offsets.committed[f.slot.part] == Minimum(PendingOf(s.st, f.slot.part) - {f.slot.offset})
  {
    var load, ack := Client(pid, LoadDelete(h)), Client(pid, RunAck);
    var part := s.st.inflight[h].fields.slot.part;
    ExecTwo(s, load, ack);
    AckedState(s, pid, h);
    var acked := Exec(s, [load, ack]);
    var advance := AdvanceOne(acked, pid, part);
    run := [load, ack] + advance;
    ExecConcat(s, [load, ack], advance);
    assert s.procs[pid := Advancing(part)] - {pid} == s.procs;
  }

  /** One uninterrupted advanceWatermark of a partition with pending offsets. */
  lemma AdvanceOne(s: Sys, pid: Pid, part: Partition) returns (run: seq<Step>)
    requires pid in s.procs && s.procs[pid] == Advancing(part) && PendingOf(s.st, part) != {}
    ensures
      var t := Exec(s, run);
      && t.procs == s.procs - {pid} && t.hist == s.hist
      && part in t.st.offsets.committed && t.st.offsets.committed[part] == Minimum(PendingOf(s.st, part))
  {
    var read, store, commit := Client(pid, ReadMin), Client(pid, StoreWatermark), Client(pid, Commit);
    run := [read, store] + [commit];
    ExecTwo(s, read, store);
    ExecAppend(s, [read, store], commit);
    assert Exec(s, run).procs == s.procs - {pid};
  }

  lemma AckedState(s: Sys, pid: Pid, h: Handle)
    requires Idle(s, pid) && h in s.st.inflight && s.st.inflight[h].fields.group == ""
    ensures
      var t, f := Next(Next(s, Client(pid, LoadDelete(h))), Client(pid, RunAck)), s.st.inflight[h].fields;
      && t.procs == s.procs[pid := Advancing(f.slot.part)] && t.hist.ledger.seen == s.hist.ledger.seen
      && t.hist.ledger.resolved == s.hist.ledger.resolved[f.slot := h]
      && PendingOf(t.st, f.slot.part) == PendingOf(s.st, f.slot.part) - {f.slot.offset}
  {
    var t := Next(Next(s, Client(pid, LoadDelete(h))), Client(pid, RunAck));
    assert t.procs == s.procs[pid := Advancing(s.st.inflight[h].fields.slot.part)];
  }

  /**
   Out of log order a restart can skip a tracked record. Two calls share one consumer and have polled consecutive
   batches: the later batch, offsets 5 and 6, is handed out first, and acking 5 commits 6; then the earlier batch is
   tracked, and its offset 4 lies below the commit.
   */
  lemma OverlappingReceivesCanSkip() returns (run: seq<Step>)
    ensures !RestartSkipsNothing(Exec(Init(3, false), run))
  {
    var s0 := Init(3, false);
    var first := HandOut(s0, 0, 5, 1);
    var s1 := Exec(s0, first);
    var second := HandOut(s1, 0, 6, 2);
    var s2 := Exec(s1, second);
    assert PendingOf(s2.st, Partition("0", 0)) - {5} == {6};
    var delete := DeleteOne(s2, 1, 1);
    var s3 := Exec(s2, delete);
    run := first + second + delete;
    ExecConcat(s0, first, second);
    ExecConcat(s0, first + second, delete);
    var late := Receive(2, Track(Plain(4)));
    ExecAppend(s0, run, late);
    run := run + [late];
    assert BelowCommit(Exec(s0, run), Slot(Partition("0", 0), 4));
  }
}
