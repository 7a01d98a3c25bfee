/** No live message is lost from sight: some structure or some call still leads to it. */
module Reachability {
  import opened Store
  import opened Protocol
  import opened Frames

  ghost predicate IsHeld(s: Sys, h: Handle) {
    exists pid :: pid in s.procs && h in HeldBy(s.procs[pid])
  }

  /** A reaper can find the message, a receive call can pop it, or a receive call has it in hand. */
  ghost predicate WithinReach(s: Sys, h: Handle) {
    h in s.st.visIndex || h in s.st.redeliver || IsHeld(s, h)
  }

  /** Every live message is within reach, unless a receive call failed while it was holding it. */
  ghost predicate NoneStranded(s: Sys) {
    forall h :: h in s.st.inflight ==> WithinReach(s, h) || h in s.hist.dropped
  }

  lemma StillHeld(s: Sys, s': Sys, pid: Pid, h: Handle)
    requires OnlyMoves(s, s', pid) && IsHeld(s, h)
    ensures IsHeld(s', h) || (pid in s.procs && h in HeldBy(s.procs[pid]))
  {
    var q :| q in s.procs && h in HeldBy(s.procs[q]);
    if q != pid {
      assert s'.procs[q] == s.procs[q];
    }
  }

  /** What has to hold of one handle after a step of process pid for it to stay within reach. */
  ghost predicate PassedOn(s: Sys, s': Sys, pid: Pid, h: Handle) {
    && (h in s.st.visIndex ==> WithinReach(s', h))
    && (h in s.st.redeliver ==> WithinReach(s', h))
    && (pid in s.procs && h in HeldBy(s.procs[pid]) ==> WithinReach(s', h) || h in s'.hist.dropped)
    && (h in s.hist.dropped ==> h in s'.hist.dropped)
  }

  lemma PassedOnKeeps(s: Sys, s': Sys, pid: Pid)
    requires NoneStranded(s) && OnlyMoves(s, s', pid)
    requires forall h :: h in s'.st.inflight && h in s.st.inflight ==> PassedOn(s, s', pid, h)
    requires forall h :: h in s'.st.inflight && h !in s.st.inflight ==> WithinReach(s', h)
    ensures NoneStranded(s')
  {
    forall h | h in s'.st.inflight ensures WithinReach(s', h) || h in s'.hist.dropped {
      if h in s.st.inflight && IsHeld(s, h) {
        StillHeld(s, s', pid, h);
      }
    }
  }

  lemma PutPassesOn(s: Sys, pid: Pid, r: ReceiveStep, h: Handle)
    requires r.Put? && h in ReceiveNext(s, pid, r).st.inflight
    ensures h in s.st.inflight ==> PassedOn(s, ReceiveNext(s, pid, r), pid, h)
    ensures h !in s.st.inflight ==> WithinReach(ReceiveNext(s, pid, r), h)
  {
  }

  /** The steps that take a lock or are refused it, load, check, track or deliver. */
  predicate LeavesLists(r: ReceiveStep) {
    !r.Put? && !r.Pop? && !r.Park? && !r.ExtendPopped?
  }

  lemma HoldingPassesOn(s: Sys, pid: Pid, r: ReceiveStep, h: Handle)
    requires LeavesLists(r) && h in ReceiveNext(s, pid, r).st.inflight
    ensures h in s.st.inflight && PassedOn(s, ReceiveNext(s, pid, r), pid, h)
  {
    var s' := ReceiveNext(s, pid, r);
    assert pid in s'.procs && h in HeldBy(s'.procs[pid]) ==> IsHeld(s', h);
  }

  lemma ListsPassOn(s: Sys, pid: Pid, r: ReceiveStep, h: Handle)
    requires !LeavesLists(r) && !r.Put? && h in ReceiveNext(s, pid, r).st.inflight
    ensures h in s.st.inflight && PassedOn(s, ReceiveNext(s, pid, r), pid, h)
  {
    var s' := ReceiveNext(s, pid, r);
    assert pid in s'.procs && h in HeldBy(s'.procs[pid]) ==> IsHeld(s', h);
  }

  lemma ReceivePassesOn(s: Sys, pid: Pid, r: ReceiveStep, h: Handle)
    requires h in ReceiveNext(s, pid, r).st.inflight
    ensures h in s.st.inflight ==> PassedOn(s, ReceiveNext(s, pid, r), pid, h)
    ensures h !in s.st.inflight ==> WithinReach(ReceiveNext(s, pid, r), h)
  {
    if r.Put? {
      PutPassesOn(s, pid, r, h);
    } else if LeavesLists(r) {
      HoldingPassesOn(s, pid, r, h);
    } else {
      ListsPassOn(s, pid, r, h);
    }
  }

  lemma ClientPassesOn(s: Sys, pid: Pid, c: ClientStep, h: Handle)
    requires h in ClientNext(s, pid, c).st.inflight
    ensures h in s.st.inflight && PassedOn(s, ClientNext(s, pid, c), pid, h)
  {
    var s' := ClientNext(s, pid, c);
    assert pid in s'.procs && h in HeldBy(s'.procs[pid]) ==> IsHeld(s', h);
  }

  lemma ReaperPassesOn(s: Sys, pid: Pid, q: ReaperStep, h: Handle)
    requires h in ReaperNext(s, pid, q).st.inflight
    ensures h in s.st.inflight && PassedOn(s, ReaperNext(s, pid, q), pid, h)
  {
  }

  lemma NoneStrandedKept(s: Sys, a: Step)
    requires NoneStranded(s)
    ensures NoneStranded(Next(s, a))
  {
    var s' := Next(s, a);
    match a
    case Receive(pid, r) =>
      ReceiveMoves(s, pid, r);
      forall h | h in s'.st.inflight
        ensures h in s.st.inflight ==> PassedOn(s, s', pid, h)
        ensures h !in s.st.inflight ==> WithinReach(s', h)
      { ReceivePassesOn(s, pid, r, h); }
      PassedOnKeeps(s, s', pid);
    case Client(pid, c) =>
      ClientMoves(s, pid, c);
      forall h | h in s'.st.inflight ensures h in s.st.inflight && PassedOn(s, s', pid, h) { ClientPassesOn(s, pid, c, h); }
      PassedOnKeeps(s, s', pid);
    case Reaper(pid, q) =>
      ReaperMoves(s, pid, q);
      forall h | h in s'.st.inflight ensures h in s.st.inflight && PassedOn(s, s', pid, h) { ReaperPassesOn(s, pid, q, h); }
      PassedOnKeeps(s, s', pid);
    case Fail(pid) =>
      PassedOnKeeps(s, s', pid);
    case _ =>
      EnvBooks(s, a);
      PassedOnKeeps(s, s', 0);
  }

  /** In every run, every live message is within reach or was in the hands of a receive call that failed. */
  lemma {:induction false} NoneStrandedInEveryRun(maxReceive: int, hasDlq: bool, run: seq<Step>)
    ensures NoneStranded(Exec(Init(maxReceive, hasDlq), run))
  {
    if |run| > 0 {
      var n := |run| - 1;
      NoneStrandedInEveryRun(maxReceive, hasDlq, run[..n]);
      NoneStrandedKept(Exec(Init(maxReceive, hasDlq), run[..n]), run[n]);
    }
  }

  predicate NoCallFails(run: seq<Step>) {
    forall k :: 0 <= k < |run| ==> !run[k].Fail?
  }

  lemma {:induction false} NothingDropped(maxReceive: int, hasDlq: bool, run: seq<Step>)
    requires NoCallFails(run)
    ensures Exec(Init(maxReceive, hasDlq), run).hist.dropped == {}
  {
    if |run| > 0 {
      var n := |run| - 1;
      NothingDropped(maxReceive, hasDlq, run[..n]);
      OnlyFailuresDrop(Exec(Init(maxReceive, hasDlq), run[..n]), run[n]);
    }
  }

  lemma OnlyFailuresDrop(s: Sys, a: Step)
    requires !a.Fail?
    ensures Next(s, a).hist.dropped == s.hist.dropped
  {
    match a
    case Client(pid, c) => if !c.RunAck? { ClientBooks(s, pid, c); }
    case _ =>
  }

  /** While no call fails, every live message can be reaped, popped, or is in the hands of a call that will go on. */
  lemma WithinReachUnlessCallsFail(maxReceive: int, hasDlq: bool, run: seq<Step>, h: Handle)
    requires NoCallFails(run) && h in Exec(Init(maxReceive, hasDlq), run).st.inflight
    ensures WithinReach(Exec(Init(maxReceive, hasDlq), run), h)
  {
    NoneStrandedInEveryRun(maxReceive, hasDlq, run);
    NothingDropped(maxReceive, hasDlq, run);
  }
}
