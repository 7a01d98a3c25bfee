/** Exclusion within a message group: one lock key per group and queue, taken with SET NX, freed by compare-and-delete. */
module Fifo {
  import opened Options
  import opened Store
  import opened Protocol
  import opened Frames

  /** The stored locks are exactly the open tenures, one per group, and the open one is the last of its group. */
  ghost predicate LocksAreOpenTenures(st: Store, x: Leases) {
    && (forall g :: g in st.locks <==> g in x.current)
    && (forall g :: g in x.current ==>
          && x.current[g] < |x.tenures|
          && x.tenures[x.current[g]] == Tenure(g, st.locks[g].holder, st.locks[g].expiresAt, Open))
    && (forall k :: 0 <= k < |x.tenures| && x.tenures[k].end.Open? ==>
          x.tenures[k].group in x.current && x.current[x.tenures[k].group] == k)
    && (forall k :: 0 <= k < |x.tenures| && x.tenures[k].group in x.current ==> k <= x.current[x.tenures[k].group])
  }

  /** A tenure ends only when its time to live is over, or its own holder was acked or reaped. */
  predicate JustlyEnded(t: Tenure, tally: Tally) {
    match t.end
    case Open => true
    case Ended(TtlPassed, at) => t.until <= at
    case Ended(HolderAcked, _) => t.holder in tally.acks
    case Ended(HolderReaped, _) => t.holder in tally.redelivers || t.holder in tally.dlqs
  }

  ghost predicate AllJustlyEnded(s: Sys) {
    forall k :: 0 <= k < |s.hist.leases.tenures| ==> JustlyEnded(s.hist.leases.tenures[k], s.hist.tally)
  }

  /** A call past its lock attempt. */
  predicate PastLock(pc: Proc) {
    pc.Cleared? || pc.Extending? || pc.Ready?
  }

  predicate BeforeLock(pc: Proc) {
    pc.Loaded? || pc.Stored?
  }

  /** A call for a grouped message gets past its lock attempt only with a ticket for a tenure of its own handle. */
  ghost predicate TicketsAreValid(s: Sys) {
    forall pid :: pid in s.procs ==> HasValidTicket(s.procs[pid], s.hist.leases.tenures)
  }

  predicate HasValidTicket(pc: Proc, tenures: seq<Tenure>) {
    && (BeforeLock(pc) ==> pc.fields.group != "")
    && (PastLock(pc) ==>
          if pc.fields.group == "" then pc.ticket == None
          else
            && pc.ticket.Some? && pc.ticket.value < |tenures|
            && tenures[pc.ticket.value].group == pc.fields.group && tenures[pc.ticket.value].holder == pc.h)
  }

  predicate HasTicket(s: Sys, pid: Pid) {
    pid in s.procs && PastLock(s.procs[pid]) && s.procs[pid].ticket.Some?
  }

  /** No two calls share a ticket. */
  ghost predicate TicketsDiffer(s: Sys) {
    forall p, q :: HasTicket(s, p) && HasTicket(s, q) && s.procs[p].ticket == s.procs[q].ticket ==> p == q
  }

  ghost predicate FifoInv(s: Sys) {
    TenureInv(s) && TicketsAreValid(s) && TicketsDiffer(s)
  }

  ghost predicate TenureInv(s: Sys) {
    LocksAreOpenTenures(s.st, s.hist.leases) && AllJustlyEnded(s)
  }

  // ---------------------------------------------------------------------------------------------------------------
  // What a step does to the locks
  // ---------------------------------------------------------------------------------------------------------------

  ghost predicate SameLeases(s: Sys, s': Sys) {
    s'.hist.leases == s.hist.leases && s'.st.locks == s.st.locks
  }

  ghost predicate Acquires(s: Sys, s': Sys, g: string, h: Handle, ttl: int) {
    && g !in s.st.locks
    && s'.st.locks == s.st.locks[g := Lock(h, s.st.now + ttl)]
    && s'.hist.leases == OpenTenure(s.hist.leases, g, h, s.st.now + ttl)
  }

  /** The lock of group g goes away for a reason that concerns its present holder. */
  ghost predicate Ends(s: Sys, s': Sys, g: string, why: Why) {
    && g in s.st.locks
    && s'.st.locks == s.st.locks - {g}
    && s'.hist.leases == EndTenure(s.hist.leases, g, why, s.st.now)
    && match why
       case TtlPassed => s.st.locks[g].expiresAt <= s.st.now
       case HolderAcked => s.st.locks[g].holder in s'.hist.tally.acks
       case HolderReaped => s.st.locks[g].holder in s'.hist.tally.redelivers || s.st.locks[g].holder in s'.hist.tally.dlqs
  }

  /** The tallies never shrink. */
  ghost predicate TallyGrows(t: Tally, t': Tally) {
    && (forall h :: h in t.acks ==> h in t'.acks)
    && (forall h :: h in t.dlqs ==> h in t'.dlqs)
    && (forall h :: h in t.redelivers ==> h in t'.redelivers)
  }

  lemma TallyStep(s: Sys, a: Step)
    ensures TallyGrows(s.hist.tally, Next(s, a).hist.tally)
  {
    match a
    case Receive(pid, r) => ReceiveBooks(s, pid, r);
    case Client(pid, c) => if c.RunAck? { AckBooks(s, pid); } else { ClientBooks(s, pid, c); }
    case Reaper(pid, q) => if q.RunReap? { ReapBooks(s, pid); }
    case _ => EnvBooks(s, a);
  }

  predicate TriesLock(s: Sys, pid: Pid, r: ReceiveStep) {
    && pid in s.procs
    && ((r.LockPopped? && s.procs[pid].Loaded?) || (r.LockFresh? && s.procs[pid].Stored?))
  }

  lemma ReceiveLocks(s: Sys, pid: Pid, r: ReceiveStep)
    ensures
      var s' := ReceiveNext(s, pid, r);
      if TriesLock(s, pid, r) && s.procs[pid].fields.group !in s.st.locks
      then Acquires(s, s', s.procs[pid].fields.group, s.procs[pid].h, r.ttl)
      else SameLeases(s, s')
  {
  }

  lemma AckLocks(s: Sys, pid: Pid)
    ensures
      var s' := DoRunAck(s, pid);
      if AcksNow(s, pid) && Releases(s.st.locks, s.st.inflight[s.procs[pid].h].fields.group, s.procs[pid].h)
      then Ends(s, s', s.st.inflight[s.procs[pid].h].fields.group, HolderAcked)
      else SameLeases(s, s')
  {
  }

  lemma ReapLocks(s: Sys, pid: Pid)
    ensures
      var s' := DoRunReap(s, pid);
      if Reaps(s, pid) && !ReapReply(s, pid).Gone?
         && Releases(s.st.locks, s.st.inflight[s.procs[pid].todo[0]].fields.group, s.procs[pid].todo[0])
      then Ends(s, s', s.st.inflight[s.procs[pid].todo[0]].fields.group, HolderReaped)
      else SameLeases(s, s')
  {
  }

  /** Every step acquires a free lock, ends one for a reason that concerns its holder, or leaves the locks alone. */
  ghost predicate LockStep(s: Sys, s': Sys) {
    || SameLeases(s, s')
    || (exists g, h, ttl :: Acquires(s, s', g, h, ttl))
    || (exists g, why :: Ends(s, s', g, why))
  }

  lemma StepLocks(s: Sys, a: Step)
    ensures LockStep(s, Next(s, a))
  {
    match a
    case Receive(pid, r) => ReceiveLocks(s, pid, r);
    case Client(pid, c) => if c.RunAck? { AckLocks(s, pid); } else { ClientBooks(s, pid, c); ClientLocks(s, pid, c); }
    case Reaper(pid, q) => if q.RunReap? { ReapLocks(s, pid); }
    case ExpireLock(g) => if LockExpired(s.st, g) { assert Ends(s, Next(s, a), g, TtlPassed); }
    case _ =>
  }

  lemma ClientLocks(s: Sys, pid: Pid, c: ClientStep)
    requires !c.RunAck?
    ensures SameLeases(s, ClientNext(s, pid, c))
  {
  }

  // ---------------------------------------------------------------------------------------------------------------
  // Tenures
  // ---------------------------------------------------------------------------------------------------------------

  lemma AcquireKeepsTenures(s: Sys, s': Sys, g: string, h: Handle, ttl: int)
    requires TenureInv(s) && Acquires(s, s', g, h, ttl) && TallyGrows(s.hist.tally, s'.hist.tally)
    ensures TenureInv(s')
  {
  }

  lemma EndKeepsTenures(s: Sys, s': Sys, g: string, why: Why)
    requires TenureInv(s) && Ends(s, s', g, why) && TallyGrows(s.hist.tally, s'.hist.tally)
    ensures TenureInv(s')
  {
  }

  lemma TenuresKept(s: Sys, a: Step)
    requires TenureInv(s)
    ensures TenureInv(Next(s, a))
  {
    var s' := Next(s, a);
    StepLocks(s, a);
    TallyStep(s, a);
    if g, h, ttl :| Acquires(s, s', g, h, ttl) {
      AcquireKeepsTenures(s, s', g, h, ttl);
    } else if g, why :| Ends(s, s', g, why) {
      EndKeepsTenures(s, s', g, why);
    } else {
      SameKeepsTenures(s, s');
    }
  }

  lemma SameKeepsTenures(s: Sys, s': Sys)
    requires TenureInv(s) && SameLeases(s, s') && TallyGrows(s.hist.tally, s'.hist.tally)
    ensures TenureInv(s')
  {
  }

  // ---------------------------------------------------------------------------------------------------------------
  // Tickets
  // ---------------------------------------------------------------------------------------------------------------

  /** Tenures are only added, and an old one keeps its group and holder and, once ended, all of it. */
  ghost predicate TenuresGrow(x: Leases, y: Leases) {
    && |x.tenures| <= |y.tenures|
    && (forall k :: 0 <= k < |x.tenures| ==>
          && y.tenures[k].group == x.tenures[k].group && y.tenures[k].holder == x.tenures[k].holder
          && (!x.tenures[k].end.Open? ==> y.tenures[k] == x.tenures[k]))
  }

  lemma StepGrowsTenures(s: Sys, a: Step)
    requires LocksAreOpenTenures(s.st, s.hist.leases)
    ensures TenuresGrow(s.hist.leases, Next(s, a).hist.leases)
  {
    var s' := Next(s, a);
    StepLocks(s, a);
    if g, h, ttl :| Acquires(s, s', g, h, ttl) {
    } else if g, why :| Ends(s, s', g, why) {
    }
  }

  /** The moving process keeps its ticket, drops it, or takes the next free number. */
  ghost predicate TicketMoves(s: Sys, s': Sys, pid: Pid) {
    && OnlyMoves(s, s', pid)
    && (pid in s'.procs ==> HasValidTicket(s'.procs[pid], s'.hist.leases.tenures))
    && (HasTicket(s', pid) ==>
          || (HasTicket(s, pid) && s'.procs[pid].ticket == s.procs[pid].ticket)
          || s'.procs[pid].ticket == Some(|s.hist.leases.tenures|))
  }

  lemma ValidTicketStays(pc: Proc, x: Leases, y: Leases)
    requires TenuresGrow(x, y) && HasValidTicket(pc, x.tenures)
    ensures HasValidTicket(pc, y.tenures)
  {
  }

  lemma TicketsKept(s: Sys, s': Sys, pid: Pid)
    requires TicketsAreValid(s) && TicketsDiffer(s)
    requires TenuresGrow(s.hist.leases, s'.hist.leases) && TicketMoves(s, s', pid)
    ensures TicketsAreValid(s') && TicketsDiffer(s')
  {
    forall q | q in s'.procs ensures HasValidTicket(s'.procs[q], s'.hist.leases.tenures) {
      if q != pid {
        ValidTicketStays(s.procs[q], s.hist.leases, s'.hist.leases);
      }
    }
    forall p, q | HasTicket(s', p) && HasTicket(s', q) && s'.procs[p].ticket == s'.procs[q].ticket ensures p == q {
      assert p != pid ==> HasTicket(s, p) && HasValidTicket(s.procs[p], s.hist.leases.tenures);
      assert q != pid ==> HasTicket(s, q) && HasValidTicket(s.procs[q], s.hist.leases.tenures);
    }
  }

  lemma ReceiveTickets(s: Sys, pid: Pid, r: ReceiveStep)
    requires pid in s.procs ==> HasValidTicket(s.procs[pid], s.hist.leases.tenures)
    ensures TicketMoves(s, ReceiveNext(s, pid, r), pid)
  {
    ReceiveMoves(s, pid, r);
    ReceiveLocks(s, pid, r);
  }

  /** Clients and reapers hold no tickets and stand at no lock. */
  lemma OtherTickets(s: Sys, a: Step, pid: Pid)
    requires (a.Client? || a.Reaper?) && pid == a.pid
    requires pid in s.procs ==> HasValidTicket(s.procs[pid], s.hist.leases.tenures)
    requires TenuresGrow(s.hist.leases, Next(s, a).hist.leases)
    ensures TicketMoves(s, Next(s, a), pid)
  {
    if a.Client? {
      ClientMoves(s, pid, a.c);
      ClientStaysOut(s, pid, a.c);
    } else {
      ReaperMoves(s, pid, a.q);
      ReaperStaysOut(s, pid, a.q);
    }
    if pid in s.procs && pid in Next(s, a).procs && Next(s, a).procs[pid] == s.procs[pid] {
      ValidTicketStays(s.procs[pid], s.hist.leases, Next(s, a).hist.leases);
    }
  }

  predicate StaysOut(s: Sys, s': Sys, pid: Pid) {
    pid in s'.procs ==>
      || (pid in s.procs && s'.procs[pid] == s.procs[pid])
      || (!BeforeLock(s'.procs[pid]) && !PastLock(s'.procs[pid]))
  }

  lemma ClientStaysOut(s: Sys, pid: Pid, c: ClientStep)
    ensures StaysOut(s, ClientNext(s, pid, c), pid)
  {
  }

  lemma ReaperStaysOut(s: Sys, pid: Pid, q: ReaperStep)
    ensures StaysOut(s, ReaperNext(s, pid, q), pid)
  {
  }

  lemma FifoKept(s: Sys, a: Step)
    requires FifoInv(s)
    ensures FifoInv(Next(s, a))
  {
    TenuresKept(s, a);
    StepGrowsTenures(s, a);
    var s' := Next(s, a);
    match a
    case Receive(pid, r) => ReceiveTickets(s, pid, r); TicketsKept(s, s', pid);
    case Client(pid, c) => OtherTickets(s, a, pid); TicketsKept(s, s', pid);
    case Reaper(pid, q) => OtherTickets(s, a, pid); TicketsKept(s, s', pid);
    case Fail(pid) => TicketsKept(s, s', pid);
    case _ => EnvBooks(s, a); EnvTickets(s, s');
  }

  lemma EnvTickets(s: Sys, s': Sys)
    requires TicketsAreValid(s) && TicketsDiffer(s)
    requires TenuresGrow(s.hist.leases, s'.hist.leases) && s'.procs == s.procs
    ensures TicketsAreValid(s') && TicketsDiffer(s')
  {
    forall q | q in s'.procs ensures HasValidTicket(s'.procs[q], s'.hist.leases.tenures) {
      ValidTicketStays(s.procs[q], s.hist.leases, s'.hist.leases);
    }
    assert forall q :: HasTicket(s', q) == HasTicket(s, q);
  }

  lemma {:induction false} FifoInEveryRun(maxReceive: int, hasDlq: bool, run: seq<Step>)
    ensures FifoInv(Exec(Init(maxReceive, hasDlq), run))
  {
    if |run| > 0 {
      var n := |run| - 1;
      FifoInEveryRun(maxReceive, hasDlq, run[..n]);
      FifoKept(Exec(Init(maxReceive, hasDlq), run[..n]), run[n]);
    }
  }

  // ---------------------------------------------------------------------------------------------------------------
  // What a group can rely on
  // ---------------------------------------------------------------------------------------------------------------

  /** Process pid handles a message of group g and has got past its lock attempt; it is about to hand it out. */
  predicate HandsOut(s: Sys, pid: Pid, g: string) {
    pid in s.procs && PastLock(s.procs[pid]) && s.procs[pid].fields.group == g
  }

  predicate EndedOnItsOwnAccount(s: Sys, k: nat)
    requires k < |s.hist.leases.tenures|
  {
    !s.hist.leases.tenures[k].end.Open? && JustlyEnded(s.hist.leases.tenures[k], s.hist.tally)
  }

  /**
   Exclusion, in every state of every run. While the lock that handle h took as tenure j is in place, every call that
   hands out a message of the group either is the one that took it, for h, or took the lock before h did and lost it
   because its time to live was over or because its own handle was acked or reaped. A lock never goes away on account
   of any other handle, and a group spans all shards of the queue, because the lock key names only the queue and it.
   */
  lemma LockExcludesOthers(maxReceive: int, hasDlq: bool, run: seq<Step>, g: string, j: nat, pid: Pid)
    requires g != ""
    requires
      var s := Exec(Init(maxReceive, hasDlq), run);
      && j < |s.hist.leases.tenures| && s.hist.leases.tenures[j].group == g && s.hist.leases.tenures[j].end.Open?
      && HandsOut(s, pid, g)
    ensures
      var s := Exec(Init(maxReceive, hasDlq), run);
      && g in s.st.locks && s.st.locks[g].holder == s.hist.leases.tenures[j].holder
      && s.procs[pid].ticket.Some? && s.procs[pid].ticket.value < |s.hist.leases.tenures|
      && var k := s.procs[pid].ticket.value;
         if k == j then s.procs[pid].h == s.st.locks[g].holder else k < j && EndedOnItsOwnAccount(s, k)
  {
    FifoInEveryRun(maxReceive, hasDlq, run);
    var s := Exec(Init(maxReceive, hasDlq), run);
    assert HasValidTicket(s.procs[pid], s.hist.leases.tenures);
  }

  /** At most one call of a group stands in its own lock, and the lock then names its handle. */
  lemma OneCallStandsInItsLock(maxReceive: int, hasDlq: bool, run: seq<Step>, g: string, p: Pid, q: Pid)
    requires g != ""
    requires
      var s := Exec(Init(maxReceive, hasDlq), run);
      HandsOut(s, p, g) && HandsOut(s, q, g) && StandsInLock(s, p) && StandsInLock(s, q)
    ensures p == q
  {
    FifoInEveryRun(maxReceive, hasDlq, run);
    var s := Exec(Init(maxReceive, hasDlq), run);
    assert HasValidTicket(s.procs[p], s.hist.leases.tenures) && HasValidTicket(s.procs[q], s.hist.leases.tenures);
  }

  predicate StandsInLock(s: Sys, pid: Pid) {
    && HasTicket(s, pid)
    && s.procs[pid].ticket.value < |s.hist.leases.tenures|
    && s.hist.leases.tenures[s.procs[pid].ticket.value].end.Open?
  }
}
