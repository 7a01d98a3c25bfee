/**
 The message plane as an interleaved machine. Every call of a Go function is a process with a program counter and
 locals; every step is one Redis or Kafka command of one process, or a move of the environment. Next is total: a step
 that is not enabled leaves the system as it is, so every sequence of steps is a run and every run is such a sequence.
 */
module Protocol {
  import opened Options
  import opened Store

  type Pid = nat

  /** Which tenure of its group's lock a call obtained, if it needed one. */
  type Ticket = Option<nat>

  datatype Proc =
    // handOutRedeliverable
    | Popped(h: Handle)                                       // next: HGETALL
    | Loaded(h: Handle, fields: InFlight)                     // next: SET NX
    | Cleared(h: Handle, fields: InFlight, ticket: Ticket)    // next: EXISTS
    | Extending(h: Handle, fields: InFlight, ticket: Ticket)  // next: ZADD vis_index
    // handOutFresh
    | Tracked(fields: InFlight)                               // next: the PutInFlight pipeline
    | Stored(h: Handle, fields: InFlight)                     // next: SET NX
    // both
    | Refused(h: Handle)                                      // next: RPUSH
    | Ready(h: Handle, fields: InFlight, ticket: Ticket)      // next: return the message
    // ChangeMessageVisibility
    | Changing(h: Handle)                                     // next: ZADD vis_index
    // DeleteMessage and advanceWatermark
    | Deleting(h: Handle, fields: InFlight)                   // next: ack.lua
    | Advancing(part: Partition)                              // next: ZRANGE
    | Storing(part: Partition, least: int)                    // next: SET watermark
    | Committing(part: Partition, least: int)                 // next: commit to Kafka
    // Sweep
    | Sweeping(todo: seq<Handle>)                             // next: reap.lua on the head
    | Routing(h: Handle, fields: InFlight, todo: seq<Handle>) // next: DLQSender.SendMessage

  datatype Why = TtlPassed | HolderAcked | HolderReaped

  datatype End = Open | Ended(why: Why, at: int)

  /** One acquisition of a group's lock, from SET NX to the moment the key went away. */
  datatype Tenure = Tenure(group: string, holder: Handle, until: int, end: End)

  /** Every offset that entered a pending set, the handle that last resolved it, and the record behind every handle. */
  datatype Ledger = Ledger(seen: set<Slot>, resolved: map<Slot, Handle>, issued: map<Handle, Slot>)

  /** The replies of the two scripts and the calls of the DLQ sender, counted per handle. */
  datatype Tally = Tally(
    acks: multiset<Handle>, dlqs: multiset<Handle>, redelivers: multiset<Handle>, sent: multiset<Handle>)

  /** All tenures so far, and the open one of every locked group. */
  datatype Leases = Leases(tenures: seq<Tenure>, current: map<string, nat>)

  /**
   What has happened so far, as the callers and the broker saw it. The steps read it to issue no handle twice and to
   number the tenures; everything else in it is for the proofs.
   */
  datatype Hist = Hist(
    ledger: Ledger,
    tally: Tally,
    leases: Leases,
    delivered: multiset<Handle>, // messages returned to a caller
    dropped: set<Handle>)        // handles that a failed receive call was holding

  datatype Sys = Sys(st: Store, procs: map<Pid, Proc>, hist: Hist, maxReceive: int, hasDlq: bool)

  datatype ReceiveStep =
    | Pop
    | LoadPopped
    | LockPopped(ttl: int)
    | CheckPopped
    | ExtendPopped(timeout: int)
    | Track(fields: InFlight)
    | Put(h: Handle, timeout: int)
    | LockFresh(ttl: int)
    | Park
    | Deliver

  datatype ClientStep =
    | CheckChange(h: Handle)
    | Change(timeout: int)
    | LoadDelete(h: Handle)
    | RunAck
    | ReadMin
    | StoreWatermark
    | Commit

  datatype ReaperStep =
    | BeginSweep(batch: seq<Handle>)
    | RunReap
    | SendDlq(ok: bool)

  datatype Step =
    | Receive(pid: Pid, r: ReceiveStep)
    | Client(pid: Pid, c: ClientStep)
    | Reaper(pid: Pid, q: ReaperStep)
    | Fail(pid: Pid)
    | Tick(delta: nat)
    | ExpireLock(group: string)
    | ExpireHash(h: Handle)

  function InitHist(): Hist {
    Hist(Ledger({}, map[], map[]), Tally(multiset{}, multiset{}, multiset{}, multiset{}), Leases([], map[]), multiset{}, {})
  }

  function Init(maxReceive: int, hasDlq: bool): Sys {
    Sys(EmptyStore(), map[], InitHist(), maxReceive, hasDlq)
  }

  function Goto(s: Sys, pid: Pid, pc: Proc): Sys {
    s.(procs := s.procs[pid := pc])
  }

  function Done(s: Sys, pid: Pid): Sys {
    s.(procs := s.procs - {pid})
  }

  predicate At(s: Sys, pid: Pid) { pid in s.procs }

  predicate Idle(s: Sys, pid: Pid) { pid !in s.procs }

  function OpenTenure(x: Leases, group: string, h: Handle, until: int): Leases {
    Leases(x.tenures + [Tenure(group, h, until, Open)], x.current[group := |x.tenures|])
  }

  function EndTenure(x: Leases, group: string, why: Why, at: int): Leases {
    if group in x.current && x.current[group] < |x.tenures| then
      var k := x.current[group];
      Leases(x.tenures[k := x.tenures[k].(end := Ended(why, at))], x.current - {group})
    else x
  }

  /** The leases after a script ran its compare-and-delete for handle h. */
  function AfterRelease(s: Sys, group: string, h: Handle, why: Why): Leases {
    if Releases(s.st.locks, group, h) then EndTenure(s.hist.leases, group, why, s.st.now) else s.hist.leases
  }

  /** SET NX by a call that carries on at `won` or at `Refused`. */
  function TryLock(s: Sys, pid: Pid, h: Handle, f: InFlight, ttl: int, isNew: bool): Sys {
    var (st', won) := AcquireOp(s.st, f.group, h, ttl);
    if !won then Goto(s, pid, Refused(h))
    else
      var ticket := Some(|s.hist.leases.tenures|);
      var s' := s.(st := st', hist := s.hist.(leases := OpenTenure(s.hist.leases, f.group, h, s.st.now + ttl)));
      Goto(s', pid, if isNew then Ready(h, f, ticket) else Cleared(h, f, ticket))
  }

  function DoPop(s: Sys, pid: Pid): Sys {
    if !Idle(s, pid) then s
    else
      var (st', popped) := PopOp(s.st);
      if popped.None? then s else Goto(s.(st := st'), pid, Popped(popped.value))
  }

  function DoLoadPopped(s: Sys, pid: Pid): Sys {
    if !(At(s, pid) && s.procs[pid].Popped?) then s
    else
      var h := s.procs[pid].h;
      if h !in s.st.inflight then Done(s, pid)
      else
        var f := s.st.inflight[h].fields;
        Goto(s, pid, if f.group == "" then Cleared(h, f, None) else Loaded(h, f))
  }

  function DoCheckPopped(s: Sys, pid: Pid): Sys {
    if !(At(s, pid) && s.procs[pid].Cleared?) then s
    else
      var p := s.procs[pid];
      Goto(s, pid, if p.h in s.st.inflight then Extending(p.h, p.fields, p.ticket) else Ready(p.h, p.fields, p.ticket))
  }

  function DoExtendPopped(s: Sys, pid: Pid, timeout: int): Sys {
    if !(At(s, pid) && s.procs[pid].Extending?) then s
    else
      var p := s.procs[pid];
      Goto(s.(st := SetVisibleOp(s.st, p.h, timeout)), pid, Ready(p.h, p.fields, p.ticket))
  }

  function DoTrack(s: Sys, pid: Pid, fields: InFlight): Sys {
    if !Idle(s, pid) then s
    else
      Goto(s.(st := AddPendingOp(s.st, fields.slot),
              hist := s.hist.(ledger := s.hist.ledger.(seen := s.hist.ledger.seen + {fields.slot}))),
           pid, Tracked(fields.(receiveCount := 1)))
  }

  function DoPut(s: Sys, pid: Pid, h: Handle, timeout: int): Sys {
    if !(At(s, pid) && s.procs[pid].Tracked? && h !in s.hist.ledger.issued) then s
    else
      var f := s.procs[pid].fields;
      Goto(s.(st := PutInFlightOp(s.st, h, f, timeout),
              hist := s.hist.(ledger := s.hist.ledger.(issued := s.hist.ledger.issued[h := f.slot]))),
           pid, if f.group == "" then Ready(h, f, None) else Stored(h, f))
  }

  function DoPark(s: Sys, pid: Pid): Sys {
    if !(At(s, pid) && s.procs[pid].Refused?) then s
    else Done(s.(st := PushOp(s.st, s.procs[pid].h)), pid)
  }

  function DoDeliver(s: Sys, pid: Pid): Sys {
    if !(At(s, pid) && s.procs[pid].Ready?) then s
    else Done(s.(hist := s.hist.(delivered := s.hist.delivered + multiset{s.procs[pid].h})), pid)
  }

  /** The history after an "acked" or a "dlq" reply for handle h. */
  function Resolve(s: Sys, f: InFlight, h: Handle, why: Why): Hist {
    var x := s.hist;
    x.(ledger := x.ledger.(resolved := x.ledger.resolved[f.slot := h]),
       tally := if why.HolderAcked? then x.tally.(acks := x.tally.acks + multiset{h})
                else x.tally.(dlqs := x.tally.dlqs + multiset{h}),
       leases := AfterRelease(s, f.group, h, why))
  }

  function DoRunAck(s: Sys, pid: Pid): Sys {
    if !(At(s, pid) && s.procs[pid].Deleting?) then s
    else
      var p := s.procs[pid];
      var (st', outcome) := AckOp(s.st, p.h);
      if outcome.NotFound? then Done(s, pid)
      else
        var f := s.st.inflight[p.h].fields;
        Goto(s.(st := st', hist := Resolve(s, f, p.h, HolderAcked)), pid, Advancing(p.fields.slot.part))
  }

  function DoReadMin(s: Sys, pid: Pid): Sys {
    if !(At(s, pid) && s.procs[pid].Advancing?) then s
    else
      var p := s.procs[pid];
      match MinPending(s.st, p.part)
      case None => Done(s, pid)
      case Some(least) => Goto(s, pid, Storing(p.part, least))
  }

  function DoRunReap(s: Sys, pid: Pid): Sys {
    if !(At(s, pid) && s.procs[pid].Sweeping?) then s
    else if |s.procs[pid].todo| == 0 then Done(s, pid)
    else
      var h, rest := s.procs[pid].todo[0], s.procs[pid].todo[1..];
      var (st', outcome) := ReapOp(s.st, h, s.maxReceive);
      if outcome.Gone? then Goto(s.(st := st'), pid, Sweeping(rest))
      else
        var f := s.st.inflight[h].fields;
        if outcome.DeadLetter? then
          Goto(s.(st := st', hist := Resolve(s, f, h, HolderReaped)), pid, Routing(h, f, rest))
        else
          var tally := s.hist.tally.(redelivers := s.hist.tally.redelivers + multiset{h});
          Goto(s.(st := st', hist := s.hist.(tally := tally, leases := AfterRelease(s, f.group, h, HolderReaped))),
               pid, Sweeping(rest))
  }

  function DoSendDlq(s: Sys, pid: Pid, ok: bool): Sys {
    if !(At(s, pid) && s.procs[pid].Routing?) then s
    else
      var p := s.procs[pid];
      if !s.hasDlq then Goto(s, pid, Sweeping(p.todo))
      else
        var s' := s.(hist := s.hist.(tally := s.hist.tally.(sent := s.hist.tally.sent + multiset{p.h})));
        if ok then Goto(s', pid, Sweeping(p.todo)) else Done(s', pid)
  }

  /** The handle a receive call took off the redeliver list, or was refused the lock for, and has yet to put away. */
  function HeldBy(pc: Proc): set<Handle> {
    match pc
    case Popped(x) => {x}
    case Loaded(x, _) => {x}
    case Cleared(x, _, _) => {x}
    case Extending(x, _, _) => {x}
    case Refused(x) => {x}
    case _ => {}
  }

  /** A process crashes, or a command it sent returned an error and its call gives up. */
  function DoFail(s: Sys, pid: Pid): Sys {
    if !At(s, pid) then s
    else Done(s.(hist := s.hist.(dropped := s.hist.dropped + HeldBy(s.procs[pid]))), pid)
  }

  function DoExpireLock(s: Sys, group: string): Sys {
    if !LockExpired(s.st, group) then s
    else s.(st := ExpireLockOp(s.st, group), hist := s.hist.(leases := EndTenure(s.hist.leases, group, TtlPassed, s.st.now)))
  }

  predicate IsExpiredBatch(st: Store, batch: seq<Handle>) {
    |batch| <= 100 && forall h :: h in batch ==> h in st.visIndex && st.visIndex[h] <= st.now
  }

  function DoChange(s: Sys, pid: Pid, timeout: int): Sys {
    if !(At(s, pid) && s.procs[pid].Changing?) then s
    else Done(s.(st := SetVisibleOp(s.st, s.procs[pid].h, timeout)), pid)
  }

  function DoStoreWatermark(s: Sys, pid: Pid): Sys {
    if !(At(s, pid) && s.procs[pid].Storing?) then s
    else
      var p := s.procs[pid];
      Goto(s.(st := SetWatermarkOp(s.st, p.part, p.least - 1)), pid, Committing(p.part, p.least))
  }

  function DoCommit(s: Sys, pid: Pid): Sys {
    if !(At(s, pid) && s.procs[pid].Committing?) then s
    else Done(s.(st := CommitOp(s.st, s.procs[pid].part, s.procs[pid].least)), pid)
  }

  function ReceiveNext(s: Sys, pid: Pid, r: ReceiveStep): Sys {
    match r
    case Pop => DoPop(s, pid)
    case LoadPopped => DoLoadPopped(s, pid)
    case LockPopped(ttl) =>
      if At(s, pid) && s.procs[pid].Loaded? then TryLock(s, pid, s.procs[pid].h, s.procs[pid].fields, ttl, false) else s
    case CheckPopped => DoCheckPopped(s, pid)
    case ExtendPopped(timeout) => DoExtendPopped(s, pid, timeout)
    case Track(fields) => DoTrack(s, pid, fields)
    case Put(h, timeout) => DoPut(s, pid, h, timeout)
    case LockFresh(ttl) =>
      if At(s, pid) && s.procs[pid].Stored? then TryLock(s, pid, s.procs[pid].h, s.procs[pid].fields, ttl, true) else s
    case Park => DoPark(s, pid)
    case Deliver => DoDeliver(s, pid)
  }

  function ClientNext(s: Sys, pid: Pid, c: ClientStep): Sys {
    match c
    case CheckChange(h) => if Idle(s, pid) && h in s.st.inflight then Goto(s, pid, Changing(h)) else s
    case Change(timeout) => DoChange(s, pid, timeout)
    case LoadDelete(h) =>
      if Idle(s, pid) && h in s.st.inflight then Goto(s, pid, Deleting(h, s.st.inflight[h].fields)) else s
    case RunAck => DoRunAck(s, pid)
    case ReadMin => DoReadMin(s, pid)
    case StoreWatermark => DoStoreWatermark(s, pid)
    case Commit => DoCommit(s, pid)
  }

  function ReaperNext(s: Sys, pid: Pid, q: ReaperStep): Sys {
    match q
    case BeginSweep(batch) =>
      if Idle(s, pid) && IsExpiredBatch(s.st, batch) then Goto(s, pid, Sweeping(batch)) else s
    case RunReap => DoRunReap(s, pid)
    case SendDlq(ok) => DoSendDlq(s, pid, ok)
  }

  function Next(s: Sys, a: Step): Sys {
    match a
    case Receive(pid, r) => ReceiveNext(s, pid, r)
    case Client(pid, c) => ClientNext(s, pid, c)
    case Reaper(pid, q) => ReaperNext(s, pid, q)
    case Fail(pid) => DoFail(s, pid)
    case Tick(delta) => s.(st := s.st.(now := s.st.now + delta))
    case ExpireLock(group) => DoExpireLock(s, group)
    case ExpireHash(h) => s.(st := ExpireHashOp(s.st, h))
  }

  /** The state after a run. */
  function Exec(s: Sys, run: seq<Step>): Sys {
    if |run| == 0 then s else Next(Exec(s, run[..|run| - 1]), run[|run| - 1])
  }
}
