/**
 Exclusion among messages in flight: when no two messages of a group are ever in consumers' hands at once, and the exact
 condition on the steps that put a message there.
 */
module FifoInFlight {
  import opened Store
  import opened Protocol
  import opened Frames
  import opened Fifo

  // ---------------------------------------------------------------------------------------------------------------
  // In hand, and under a lock
  // ---------------------------------------------------------------------------------------------------------------

  predicate IsGrouped(s: Sys, h: Handle) {
    h in s.st.inflight && s.st.inflight[h].fields.group != ""
  }

  function GroupOf(s: Sys, h: Handle): string {
    if h in s.st.inflight then s.st.inflight[h].fields.group else ""
  }

  /** A consumer has the message: it was handed out, it is live, and it is still invisible. */
  predicate InHand(s: Sys, h: Handle) {
    IsGrouped(s, h) && h in s.hist.delivered && h in s.st.visIndex && s.st.now < s.st.visIndex[h]
  }

  /** What the lock of a group is for: no two of its messages are in hand. */
  ghost predicate OneInHand(s: Sys) {
    forall h, k :: InHand(s, h) && InHand(s, k) && GroupOf(s, h) == GroupOf(s, k) ==> h == k
  }

  /** The handle holds its group's lock, and the lock lasts until the given time. */
  predicate HoldsLockUntil(s: Sys, h: Handle, time: int) {
    var g := GroupOf(s, h);
    g in s.st.locks && s.st.locks[g].holder == h && time <= s.st.locks[g].expiresAt
  }

  /** The group's lock lasts until the given time, and its holder is the handle itself or a message that is gone. */
  predicate GuardedUntil(s: Sys, h: Handle, time: int) {
    var g := GroupOf(s, h);
    && g in s.st.locks && time <= s.st.locks[g].expiresAt
    && (s.st.locks[g].holder == h || s.st.locks[g].holder !in s.st.inflight)
  }

  /** The step hands h out, or sets the deadline until which it is invisible. */
  predicate Touches(s: Sys, a: Step, h: Handle) {
    || (a.Receive? && a.pid in s.procs && s.procs[a.pid].Ready? && a.r.Deliver? && s.procs[a.pid].h == h)
    || (a.Receive? && a.pid in s.procs && s.procs[a.pid].Extending? && a.r.ExtendPopped? && s.procs[a.pid].h == h)
    || (a.Client? && a.pid in s.procs && s.procs[a.pid].Changing? && a.c.Change? && s.procs[a.pid].h == h)
  }

  /** The deadline of h after a step that touches it. */
  function DeadlineAfter(s: Sys, a: Step, h: Handle): int
    requires Touches(s, a, h)
  {
    if a.Client? then s.st.now + a.c.timeout
    else if a.r.ExtendPopped? then s.st.now + a.r.timeout
    else if h in s.st.visIndex then s.st.visIndex[h] else s.st.now
  }

  /** The step leaves h in a consumer's hands. */
  predicate PutsInHand(s: Sys, a: Step, h: Handle) {
    && Touches(s, a, h) && IsGrouped(s, h) && s.st.now < DeadlineAfter(s, a, h)
    && (h in s.hist.delivered || (a.Receive? && a.r.Deliver?))
  }

  /** Whatever the step leaves in hand has a deadline within its own lock. */
  ghost predicate Covered(s: Sys, a: Step) {
    forall h :: PutsInHand(s, a, h) ==> HoldsLockUntil(s, h, DeadlineAfter(s, a, h))
  }

  ghost predicate CoveredRun(s: Sys, run: seq<Step>) {
    |run| > 0 ==> CoveredRun(s, run[..|run| - 1]) && Covered(Exec(s, run[..|run| - 1]), run[|run| - 1])
  }

  lemma PutsInHandMeans(s: Sys, a: Step, h: Handle)
    requires Touches(s, a, h)
    ensures InHand(Next(s, a), h) <==> PutsInHand(s, a, h)
    ensures InHand(Next(s, a), h) ==> Next(s, a).st.visIndex[h] == DeadlineAfter(s, a, h)
    ensures Next(s, a).st.locks == s.st.locks && Next(s, a).st.inflight == s.st.inflight
  {
  }

  // ---------------------------------------------------------------------------------------------------------------
  // Handles and groups
  // ---------------------------------------------------------------------------------------------------------------

  /** A call on its way to a lock or past it knows an issued handle and its group. */
  predicate KnowsItsGroup(s: Sys, pc: Proc) {
    pc.Loaded? || pc.Stored? || pc.Cleared? || pc.Extending? || pc.Ready? ==>
      && pc.h in s.hist.ledger.issued
      && (pc.h in s.st.inflight ==> s.st.inflight[pc.h].fields.group == pc.fields.group)
  }

  /** A lock's holder was issued and, while it is live, belongs to the lock's group. */
  predicate HolderBelongs(s: Sys, g: string) {
    g in s.st.locks ==>
      && s.st.locks[g].holder in s.hist.ledger.issued
      && (s.st.locks[g].holder in s.st.inflight ==> s.st.inflight[s.st.locks[g].holder].fields.group == g)
  }

  ghost predicate HandleInv(s: Sys) {
    && (forall h :: h in s.st.inflight ==> h in s.hist.ledger.issued)
    && (forall h :: h in s.hist.delivered ==> h in s.hist.ledger.issued)
    && (forall pid :: pid in s.procs ==> KnowsItsGroup(s, s.procs[pid]))
    && (forall g :: HolderBelongs(s, g))
  }

  /** Handles stay issued, and a live one either was live with the same group or has just been issued. */
  ghost predicate GroupsStay(s: Sys, s': Sys) {
    && (forall h :: h in s.hist.ledger.issued ==> h in s'.hist.ledger.issued)
    && (forall h :: h in s'.st.inflight ==>
          || (h in s.st.inflight && s'.st.inflight[h].fields.group == s.st.inflight[h].fields.group)
          || (h !in s.hist.ledger.issued && h in s'.hist.ledger.issued))
  }

  lemma StepGroupsStay(s: Sys, a: Step)
    ensures GroupsStay(s, Next(s, a))
  {
    match a
    case Receive(pid, r) => ReceiveBooks(s, pid, r);
    case Client(pid, c) => if c.RunAck? { AckBooks(s, pid); } else { ClientBooks(s, pid, c); }
    case Reaper(pid, q) => if q.RunReap? { ReapBooks(s, pid); }
    case _ => EnvBooks(s, a);
  }

  lemma ReceiveKnows(s: Sys, pid: Pid, r: ReceiveStep)
    requires forall h :: h in s.st.inflight ==> h in s.hist.ledger.issued
    requires pid in s.procs ==> KnowsItsGroup(s, s.procs[pid])
    ensures pid in ReceiveNext(s, pid, r).procs ==> KnowsItsGroup(ReceiveNext(s, pid, r), ReceiveNext(s, pid, r).procs[pid])
  {
  }

  /** A process that did not move, or has nothing to do with locks, still knows its group. */
  lemma StillKnows(s: Sys, s': Sys, pc: Proc)
    requires GroupsStay(s, s') && (KnowsItsGroup(s, pc) || (!BeforeLock(pc) && !PastLock(pc)))
    ensures KnowsItsGroup(s', pc)
  {
  }

  lemma StepKnows(s: Sys, a: Step, pid: Pid)
    requires HandleInv(s) && pid in Next(s, a).procs
    ensures KnowsItsGroup(Next(s, a), Next(s, a).procs[pid])
  {
    StepGroupsStay(s, a);
    var s' := Next(s, a);
    match a
    case Receive(p, r) =>
      ReceiveMoves(s, p, r);
      if pid == p { ReceiveKnows(s, p, r); } else { StillKnows(s, s', s.procs[pid]); }
    case Client(p, c) =>
      ClientMoves(s, p, c);
      ClientStaysOut(s, p, c);
      StillKnows(s, s', s'.procs[pid]);
    case Reaper(p, q) =>
      ReaperMoves(s, p, q);
      ReaperStaysOut(s, p, q);
      StillKnows(s, s', s'.procs[pid]);
    case _ => StillKnows(s, s', s.procs[pid]);
  }

  lemma StepDelivers(s: Sys, a: Step, h: Handle)
    requires h in Next(s, a).hist.delivered
    ensures h in s.hist.delivered || (Touches(s, a, h) && a.Receive? && a.r.Deliver?)
  {
    match a
    case Client(pid, c) => if c.RunAck? { AckDelivers(s, pid); } else { ClientBooks(s, pid, c); }
    case Reaper(pid, q) => ReaperDelivers(s, pid, q);
    case _ =>
  }

  lemma AckDelivers(s: Sys, pid: Pid)
    ensures DoRunAck(s, pid).hist.delivered == s.hist.delivered
  {
  }

  lemma ReaperDelivers(s: Sys, pid: Pid, q: ReaperStep)
    ensures ReaperNext(s, pid, q).hist.delivered == s.hist.delivered
  {
  }

  /** A lock that is there after a step was there before, or its holder has just taken it. */
  lemma StepHolders(s: Sys, a: Step, g: string)
    requires g in Next(s, a).st.locks
    ensures
      || (g in s.st.locks && Next(s, a).st.locks[g] == s.st.locks[g])
      || (a.Receive? && TriesLock(s, a.pid, a.r) && g == s.procs[a.pid].fields.group
          && Next(s, a).st.locks[g].holder == s.procs[a.pid].h)
  {
    match a
    case Receive(pid, r) => ReceiveLocks(s, pid, r);
    case Client(pid, c) => if c.RunAck? { AckLocks(s, pid); } else { ClientLocks(s, pid, c); }
    case Reaper(pid, q) => if q.RunReap? { ReapLocks(s, pid); }
    case _ =>
  }

  lemma HolderStillBelongs(s: Sys, a: Step, g: string)
    requires HandleInv(s)
    ensures HolderBelongs(Next(s, a), g)
  {
    if g in Next(s, a).st.locks {
      StepGroupsStay(s, a);
      StepHolders(s, a, g);
      assert HolderBelongs(s, g);
      assert a.Receive? && a.pid in s.procs ==> KnowsItsGroup(s, s.procs[a.pid]);
    }
  }

  lemma HandlesKept(s: Sys, a: Step)
    requires HandleInv(s)
    ensures HandleInv(Next(s, a))
  {
    var s' := Next(s, a);
    StepGroupsStay(s, a);
    forall h | h in s'.hist.delivered ensures h in s'.hist.ledger.issued {
      StepDelivers(s, a, h);
      assert Touches(s, a, h) ==> KnowsItsGroup(s, s.procs[a.pid]) || a.Client?;
    }
    forall pid | pid in s'.procs ensures KnowsItsGroup(s', s'.procs[pid]) { StepKnows(s, a, pid); }
    forall g ensures HolderBelongs(s', g) { HolderStillBelongs(s, a, g); }
  }

  lemma {:induction false} RunKeepsHandles(s: Sys, run: seq<Step>)
    requires HandleInv(s)
    ensures HandleInv(Exec(s, run))
  {
    if |run| > 0 {
      var n := |run| - 1;
      RunKeepsHandles(s, run[..n]);
      HandlesKept(Exec(s, run[..n]), run[n]);
    }
  }

  // ---------------------------------------------------------------------------------------------------------------
  // Covered steps keep messages under their locks
  // ---------------------------------------------------------------------------------------------------------------

  ghost predicate AllCovered(s: Sys) {
    forall h :: InHand(s, h) ==> HoldsLockUntil(s, h, s.st.visIndex[h])
  }

  ghost predicate AllGuarded(s: Sys) {
    forall h :: InHand(s, h) ==> GuardedUntil(s, h, s.st.visIndex[h])
  }

  lemma CoveredMeansOne(s: Sys)
    requires AllCovered(s)
    ensures OneInHand(s) && AllGuarded(s)
  {
  }

  /** A deadline that a step does not touch stays, or goes away, or belongs to a handle that has just been issued. */
  lemma UntouchedDeadline(s: Sys, a: Step, h: Handle)
    requires h in Next(s, a).st.visIndex && h in s.hist.ledger.issued && !Touches(s, a, h)
    ensures h in s.st.visIndex && Next(s, a).st.visIndex[h] == s.st.visIndex[h]
  {
    match a
    case Receive(pid, r) => ReceiveDeadline(s, pid, r, h);
    case Client(pid, c) => ClientDeadline(s, pid, c, h);
    case Reaper(pid, q) => ReaperDeadline(s, pid, q, h);
    case _ =>
  }

  lemma ReceiveDeadline(s: Sys, pid: Pid, r: ReceiveStep, h: Handle)
    requires h in ReceiveNext(s, pid, r).st.visIndex && h in s.hist.ledger.issued && !Touches(s, Receive(pid, r), h)
    ensures h in s.st.visIndex && ReceiveNext(s, pid, r).st.visIndex[h] == s.st.visIndex[h]
  {
  }

  lemma ClientDeadline(s: Sys, pid: Pid, c: ClientStep, h: Handle)
    requires h in ClientNext(s, pid, c).st.visIndex && !Touches(s, Client(pid, c), h)
    ensures h in s.st.visIndex && ClientNext(s, pid, c).st.visIndex[h] == s.st.visIndex[h]
  {
  }

  lemma ReaperDeadline(s: Sys, pid: Pid, q: ReaperStep, h: Handle)
    requires h in ReaperNext(s, pid, q).st.visIndex
    ensures h in s.st.visIndex && ReaperNext(s, pid, q).st.visIndex[h] == s.st.visIndex[h]
  {
  }

  lemma TimePasses(s: Sys, a: Step)
    ensures s.st.now <= Next(s, a).st.now
  {
    match a
    case Client(pid, c) => ClientClock(s, pid, c);
    case Reaper(pid, q) => ReaperClock(s, pid, q);
    case _ =>
  }

  lemma ClientClock(s: Sys, pid: Pid, c: ClientStep)
    ensures ClientNext(s, pid, c).st.now == s.st.now
  {
  }

  lemma ReaperClock(s: Sys, pid: Pid, q: ReaperStep)
    ensures ReaperNext(s, pid, q).st.now == s.st.now
  {
  }

  /** A message in hand that a step does not touch was in hand before, with the same deadline and group. */
  lemma UntouchedInHand(s: Sys, a: Step, h: Handle)
    requires HandleInv(s) && InHand(Next(s, a), h) && !Touches(s, a, h)
    ensures InHand(s, h) && GroupOf(s, h) == GroupOf(Next(s, a), h) && Next(s, a).st.visIndex[h] == s.st.visIndex[h]
  {
    StepDelivers(s, a, h);
    StepGroupsStay(s, a);
    UntouchedDeadline(s, a, h);
    TimePasses(s, a);
  }

  /** Who ends a lock: its own holder, acked or reaped while it was live, or the time. */
  lemma LockEnds(s: Sys, a: Step, g: string)
    requires HandleInv(s) && g in s.st.locks
    ensures
      || (g in Next(s, a).st.locks && Next(s, a).st.locks[g] == s.st.locks[g])
      || s.st.locks[g].expiresAt <= s.st.now
      || (s.st.locks[g].holder in s.st.inflight && s.st.locks[g].holder !in Next(s, a).st.visIndex)
  {
    match a
    case Receive(pid, r) => ReceiveLocks(s, pid, r);
    case Client(pid, c) => if c.RunAck? { AckLocks(s, pid); AckHides(s, pid); } else { ClientLocks(s, pid, c); }
    case Reaper(pid, q) => if q.RunReap? { ReapLocks(s, pid); ReapHides(s, pid); }
    case _ =>
  }

  lemma AckHides(s: Sys, pid: Pid)
    ensures AcksNow(s, pid) ==> s.procs[pid].h !in DoRunAck(s, pid).st.visIndex
  {
  }

  lemma ReapHides(s: Sys, pid: Pid)
    ensures Reaps(s, pid) ==> s.procs[pid].todo[0] !in DoRunReap(s, pid).st.visIndex
  {
  }

  /** The lock over a message in hand stays, unless the message leaves the consumer's hands. */
  lemma GuardStays(s: Sys, a: Step, h: Handle)
    requires HandleInv(s) && InHand(s, h) && GuardedUntil(s, h, s.st.visIndex[h]) && InHand(Next(s, a), h)
    ensures
      var g := GroupOf(s, h);
      && GroupOf(Next(s, a), h) == g
      && g in Next(s, a).st.locks && Next(s, a).st.locks[g] == s.st.locks[g]
      && (s.st.locks[g].holder !in s.st.inflight ==> s.st.locks[g].holder !in Next(s, a).st.inflight)
  {
    var g := GroupOf(s, h);
    LockEnds(s, a, g);
    StepGroupsStay(s, a);
    assert HolderBelongs(s, g);
  }

  lemma CoveredKeepsCovered(s: Sys, a: Step)
    requires HandleInv(s) && AllCovered(s) && Covered(s, a)
    ensures AllCovered(Next(s, a))
  {
    var s' := Next(s, a);
    forall h | InHand(s', h) ensures HoldsLockUntil(s', h, s'.st.visIndex[h]) {
      if Touches(s, a, h) {
        PutsInHandMeans(s, a, h);
      } else {
        UntouchedInHand(s, a, h);
        GuardStays(s, a, h);
      }
    }
  }

  lemma CoveredKeepsGuarded(s: Sys, a: Step)
    requires HandleInv(s) && AllGuarded(s) && Covered(s, a)
    ensures AllGuarded(Next(s, a))
  {
    var s' := Next(s, a);
    forall h | InHand(s', h) ensures GuardedUntil(s', h, s'.st.visIndex[h]) {
      if Touches(s, a, h) {
        PutsInHandMeans(s, a, h);
      } else {
        UntouchedInHand(s, a, h);
        GuardStays(s, a, h);
      }
    }
  }

  /** A message that a covered step puts in hand holds the lock, so no other message of its group is in hand. */
  lemma CoveredMeetsNobody(s: Sys, a: Step, h: Handle, k: Handle)
    requires HandleInv(s) && AllGuarded(s) && Covered(s, a) && Touches(s, a, h) && !Touches(s, a, k)
    requires InHand(Next(s, a), h) && InHand(Next(s, a), k)
    ensures GroupOf(Next(s, a), h) != GroupOf(Next(s, a), k)
  {
    PutsInHandMeans(s, a, h);
    UntouchedInHand(s, a, k);
  }

  lemma CoveredKeepsOne(s: Sys, a: Step)
    requires HandleInv(s) && AllGuarded(s) && OneInHand(s) && Covered(s, a)
    ensures OneInHand(Next(s, a))
  {
    var s' := Next(s, a);
    forall h, k | InHand(s', h) && InHand(s', k) && GroupOf(s', h) == GroupOf(s', k) ensures h == k {
      if Touches(s, a, h) {
        if !Touches(s, a, k) { CoveredMeetsNobody(s, a, h, k); }
      } else if Touches(s, a, k) {
        CoveredMeetsNobody(s, a, k, h);
      } else {
        UntouchedInHand(s, a, h);
        UntouchedInHand(s, a, k);
      }
    }
  }

  lemma {:induction false} CoveredRunKeepsOne(s: Sys, run: seq<Step>)
    requires HandleInv(s) && AllGuarded(s) && OneInHand(s) && CoveredRun(s, run)
    ensures HandleInv(Exec(s, run)) && AllGuarded(Exec(s, run)) && OneInHand(Exec(s, run))
  {
    if |run| > 0 {
      var n := |run| - 1;
      CoveredRunKeepsOne(s, run[..n]);
      HandlesKept(Exec(s, run[..n]), run[n]);
      CoveredKeepsGuarded(Exec(s, run[..n]), run[n]);
      CoveredKeepsOne(Exec(s, run[..n]), run[n]);
    }
  }

  /**
   Exclusion in flight: in every run that hands messages out, and moves their deadlines, only within locks they hold
   themselves, no two messages of a group are ever in hand at once.
   */
  lemma {:induction false} OneInHandInCoveredRuns(maxReceive: int, hasDlq: bool, run: seq<Step>)
    requires CoveredRun(Init(maxReceive, hasDlq), run)
    ensures AllCovered(Exec(Init(maxReceive, hasDlq), run)) && OneInHand(Exec(Init(maxReceive, hasDlq), run))
  {
    if |run| > 0 {
      var n := |run| - 1;
      OneInHandInCoveredRuns(maxReceive, hasDlq, run[..n]);
      RunKeepsHandles(Init(maxReceive, hasDlq), run[..n]);
      CoveredKeepsCovered(Exec(Init(maxReceive, hasDlq), run[..n]), run[n]);
    }
    CoveredMeansOne(Exec(Init(maxReceive, hasDlq), run));
  }

  // ---------------------------------------------------------------------------------------------------------------
  // The exact condition
  // ---------------------------------------------------------------------------------------------------------------

  lemma CoveredSnoc(s: Sys, run: seq<Step>, a: Step)
    requires CoveredRun(s, run) && Covered(Exec(s, run), a)
    ensures CoveredRun(s, run + [a])
  {
    assert (run + [a])[..|run|] == run;
  }

  lemma {:induction false} CoveredConcat(s: Sys, first: seq<Step>, second: seq<Step>)
    requires CoveredRun(s, first) && CoveredRun(Exec(s, first), second)
    ensures CoveredRun(s, first + second)
  {
    if |second| == 0 {
      assert first + second == first;
    } else {
      var n := |second| - 1;
      CoveredConcat(s, first, second[..n]);
      ExecConcat(s, first, second[..n]);
      CoveredSnoc(s, first + second[..n], second[n]);
      assert first + second[..n] + [second[n]] == first + second;
    }
  }

  predicate Quiet(run: seq<Step>) {
    forall k :: 0 <= k < |run| ==>
      (run[k].Receive? ==> !run[k].r.Deliver? && !run[k].r.ExtendPopped?) && (run[k].Client? ==> !run[k].c.Change?)
  }

  lemma {:induction false} QuietIsCovered(s: Sys, run: seq<Step>)
    requires Quiet(run)
    ensures CoveredRun(s, run)
  {
    if |run| > 0 {
      QuietIsCovered(s, run[..|run| - 1]);
    }
  }

  lemma {:induction false} Unused(used: set<nat>) returns (n: nat)
    ensures forall x :: x in used ==> x < n
  {
    n := 0;
    if used != {} {
      var x := Pick(used);
      var m := Unused(used - {x});
      n := if m <= x then x + 1 else m;
      assert forall y :: y in used ==> y == x || y in used - {x};
    }
  }

  /** The state in which a fresh message of group g is about to be handed out under a lock that lasts one tick. */
  predicate IsFresh(s: Sys, t: Sys, pid: Pid, n: Handle, g: string) {
    && pid in t.procs && t.procs[pid].Ready? && t.procs[pid].h == n
    && n in t.st.inflight && t.st.inflight == s.st.inflight[n := t.st.inflight[n]] && t.st.inflight[n].fields.group == g
    && t.st.visIndex == s.st.visIndex[n := s.st.now + 1]
    && t.st.locks == s.st.locks[g := Lock(n, s.st.now + 1)]
    && t.st.now == s.st.now && t.hist.delivered == s.hist.delivered
  }

  function FreshFields(g: string): InFlight {
    InFlight(Slot(Partition("0", 0), 0), "t", g, "b", 1)
  }

  lemma FreshIsStored(s: Sys, pid: Pid, n: Handle, g: string)
    requires Idle(s, pid) && n !in s.hist.ledger.issued && g != ""
    ensures
      var f := FreshFields(g);
      var b := Next(Next(s, Receive(pid, Track(f))), Receive(pid, Put(n, 1)));
      && b.procs == s.procs[pid := Stored(n, f)] && b.st == PutInFlightOp(AddPendingOp(s.st, f.slot), n, f, 1)
      && b.hist == s.hist.(ledger := b.hist.ledger)
  {
    var a := Next(s, Receive(pid, Track(FreshFields(g))));
    assert a.procs == s.procs[pid := Tracked(FreshFields(g))];
  }

  lemma FreshState(s: Sys, pid: Pid, n: Handle, g: string)
    requires Idle(s, pid) && n !in s.hist.ledger.issued && g != "" && g !in s.st.locks
    ensures
      var a := Next(s, Receive(pid, Track(FreshFields(g))));
      IsFresh(s, Next(Next(a, Receive(pid, Put(n, 1))), Receive(pid, LockFresh(1))), pid, n, g)
  {
    FreshIsStored(s, pid, n, g);
  }

  lemma FreshRun(s: Sys, pid: Pid, n: Handle, g: string) returns (run: seq<Step>)
    requires Idle(s, pid) && n !in s.hist.ledger.issued && g != "" && g !in s.st.locks
    ensures CoveredRun(s, run) && IsFresh(s, Exec(s, run), pid, n, g)
  {
    var track, put, lock := Receive(pid, Track(FreshFields(g))), Receive(pid, Put(n, 1)), Receive(pid, LockFresh(1));
    FreshState(s, pid, n, g);
    ExecTwo(s, track, put);
    ExecAppend(s, [track, put], lock);
    run := [track, put] + [lock];
    QuietIsCovered(s, run);
  }

  lemma FreshMeets(s: Sys, t: Sys, pid: Pid, n: Handle, h: Handle)
    requires InHand(s, h) && n != h && IsFresh(s, t, pid, n, GroupOf(s, h))
    ensures Covered(t, Receive(pid, Deliver)) && !OneInHand(Next(t, Receive(pid, Deliver)))
  {
    var u := Next(t, Receive(pid, Deliver));
    assert InHand(u, h) && InHand(u, n) && GroupOf(u, h) == GroupOf(u, n);
  }

  /** While the lock of a group is free, another of its messages can be handed out, and stays under its lock. */
  lemma AnotherIsHandedOut(s: Sys, h: Handle) returns (run: seq<Step>)
    requires HandleInv(s) && InHand(s, h) && GroupOf(s, h) !in s.st.locks
    ensures CoveredRun(s, run) && !OneInHand(Exec(s, run))
  {
    var pid := Unused(s.procs.Keys);
    var n := Unused(s.hist.ledger.issued.Keys);
    var taken := FreshRun(s, pid, n, GroupOf(s, h));
    var t, deliver := Exec(s, taken), Receive(pid, Deliver);
    FreshMeets(s, t, pid, n, h);
    CoveredSnoc(s, taken, deliver);
    ExecAppend(s, taken, deliver);
    run := taken + [deliver];
  }

  /** The message is still in hand, and nobody holds its group's lock. */
  predicate Exposed(s: Sys, h: Handle) {
    InHand(s, h) && GroupOf(s, h) !in s.st.locks
  }

  lemma WaitOutTheLock(s: Sys, h: Handle) returns (run: seq<Step>)
    requires InHand(s, h) && GroupOf(s, h) in s.st.locks && s.st.locks[GroupOf(s, h)].expiresAt < s.st.visIndex[h]
    ensures CoveredRun(s, run) && Exposed(Exec(s, run), h)
  {
    var g := GroupOf(s, h);
    var wait := if s.st.locks[g].expiresAt > s.st.now then s.st.locks[g].expiresAt - s.st.now else 0;
    run := [Tick(wait), ExpireLock(g)];
    ExecTwo(s, Tick(wait), ExpireLock(g));
    QuietIsCovered(s, run);
  }

  /** The consumer of the lock's holder gives it up at once, and a sweep reaps it. */
  function GiveUp(pid: Pid, k: Handle): seq<Step> {
    [Client(pid, CheckChange(k)), Client(pid, Change(0))] + [Reaper(pid, BeginSweep([k])), Reaper(pid, RunReap)]
  }

  lemma GivenUp(s: Sys, pid: Pid, k: Handle)
    requires Idle(s, pid) && k in s.st.inflight
    ensures
      var t := Next(Next(s, Client(pid, CheckChange(k))), Client(pid, Change(0)));
      && t == s.(st := s.st.(visIndex := s.st.visIndex[k := s.st.now]))
      && Covered(Next(s, Client(pid, CheckChange(k))), Client(pid, Change(0)))
  {
    var a := Next(s, Client(pid, CheckChange(k)));
    var t := Next(a, Client(pid, Change(0)));
    assert t.procs == s.procs;
  }

  lemma Swept(s: Sys, pid: Pid, k: Handle)
    requires Idle(s, pid) && k in s.st.inflight && k in s.st.visIndex && s.st.visIndex[k] <= s.st.now
    ensures
      var t := Next(Next(s, Reaper(pid, BeginSweep([k]))), Reaper(pid, RunReap));
      && t.st == ReapOp(s.st, k, s.maxReceive).0 && t.hist.delivered == s.hist.delivered
  {
    assert k in [k] && forall x :: x in [k] ==> x == k;
    var a := Next(s, Reaper(pid, BeginSweep([k])));
    assert pid in a.procs && a.procs[pid] == Sweeping([k]);
  }

  lemma ReapTheHolder(s: Sys, h: Handle) returns (run: seq<Step>)
    requires HandleInv(s) && InHand(s, h) && GroupOf(s, h) in s.st.locks
    requires s.st.locks[GroupOf(s, h)].holder != h && s.st.locks[GroupOf(s, h)].holder in s.st.inflight
    ensures CoveredRun(s, run) && Exposed(Exec(s, run), h)
  {
    var g := GroupOf(s, h);
    var k := s.st.locks[g].holder;
    assert HolderBelongs(s, g);
    var pid := Unused(s.procs.Keys);
    var check, change := Client(pid, CheckChange(k)), Client(pid, Change(0));
    var begin, reap := Reaper(pid, BeginSweep([k])), Reaper(pid, RunReap);
    GivenUp(s, pid, k);
    ExecOne(s, check);
    ExecTwo(s, check, change);
    QuietIsCovered(s, [check]);
    CoveredSnoc(s, [check], change);
    assert [check] + [change] == [check, change];
    var t := Exec(s, [check, change]);
    Swept(t, pid, k);
    ExecTwo(t, begin, reap);
    QuietIsCovered(t, [begin, reap]);
    CoveredConcat(s, [check, change], [begin, reap]);
    ExecConcat(s, [check, change], [begin, reap]);
    run := GiveUp(pid, k);
    assert Exec(s, run).st == ReapOp(t.st, k, t.maxReceive).0;
  }

  /** A message in hand that is not guarded comes to meet another of its group, by covered steps alone. */
  lemma UnguardedMeetsAnother(s: Sys, h: Handle) returns (run: seq<Step>)
    requires HandleInv(s) && InHand(s, h) && !GuardedUntil(s, h, s.st.visIndex[h])
    ensures CoveredRun(s, run) && !OneInHand(Exec(s, run))
  {
    var g, first := GroupOf(s, h), [];
    if g in s.st.locks {
      if s.st.locks[g].expiresAt < s.st.visIndex[h] {
        first := WaitOutTheLock(s, h);
      } else {
        first := ReapTheHolder(s, h);
      }
    }
    RunKeepsHandles(s, first);
    var second := AnotherIsHandedOut(Exec(s, first), h);
    CoveredConcat(s, first, second);
    ExecConcat(s, first, second);
    run := first + second;
  }

  lemma GuardedStepKeepsAll(s: Sys, a: Step, h: Handle)
    requires HandleInv(s) && AllCovered(s) && PutsInHand(s, a, h) && GuardedUntil(s, h, DeadlineAfter(s, a, h))
    ensures AllGuarded(Next(s, a)) && OneInHand(Next(s, a))
  {
    var s' := Next(s, a);
    PutsInHandMeans(s, a, h);
    forall k | InHand(s', k) && k != h
      ensures InHand(s, k) && GroupOf(s', k) == GroupOf(s, k) && s'.st.visIndex[k] == s.st.visIndex[k]
    {
      UntouchedInHand(s, a, k);
    }
  }

  /**
   The exact condition on a step that leaves a message in hand, in a state reached by covered steps alone: whatever
   covered steps follow, no two messages of a group are in hand at once, if and only if its group's lock lasts until
   its new deadline and is held by itself, or by a message that is gone.
   */
  lemma OneInHandIffGuarded(s: Sys, a: Step, h: Handle)
    requires HandleInv(s) && AllCovered(s) && PutsInHand(s, a, h)
    ensures
      GuardedUntil(s, h, DeadlineAfter(s, a, h)) <==>
      forall run :: CoveredRun(Next(s, a), run) ==> OneInHand(Exec(Next(s, a), run))
  {
    var s' := Next(s, a);
    HandlesKept(s, a);
    PutsInHandMeans(s, a, h);
    if GuardedUntil(s, h, DeadlineAfter(s, a, h)) {
      GuardedStepKeepsAll(s, a, h);
      forall run | CoveredRun(s', run) ensures OneInHand(Exec(s', run)) {
        CoveredRunKeepsOne(s', run);
      }
    } else {
      var run := UnguardedMeetsAnother(s', h);
    }
  }
}
