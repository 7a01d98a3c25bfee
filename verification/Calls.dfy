/**
 The Go functions of the message plane when no other call interferes: each as a method on the shared state and as a
 function from state to state, together with the proof that the interleaved machine does the same when it runs the
 call's steps in a row.
 */
module Calls {
  import opened Options
  import opened Store
  import opened RedisQueue
  import opened Protocol
  import opened Frames

  /** One message handed back to a caller of ReceiveMessage. */
  datatype Message = Message(receiptHandle: Handle, body: string, receiveCount: int)

  /** A fetched Kafka record. */
  datatype Record = Record(topic: string, partition: int, offset: int, key: string, value: string)

  // ---------------------------------------------------------------------------------------------------------------
  // handOutRedeliverable
  // ---------------------------------------------------------------------------------------------------------------

  predicate GroupLocked(st: Store, f: InFlight) {
    f.group != "" && f.group in st.locks
  }

  function Locked(st: Store, f: InFlight, h: Handle, ttl: int): Store {
    if f.group == "" then st else AcquireOp(st, f.group, h, ttl).0
  }

  function RedeliverCall(st: Store, visTimeout: int): (Store, Option<Message>) {
    var (popped, head) := PopOp(st);
    if head.None? || head.value !in st.inflight then (popped, None)
    else
      var h := head.value;
      var f := st.inflight[h].fields;
      if GroupLocked(st, f) then (PushOp(popped, h), None)
      else (SetVisibleOp(Locked(popped, f, h, visTimeout), h, visTimeout), Some(Message(h, f.body, f.receiveCount)))
  }

  method HandOutRedeliverable(q: Queue, visTimeout: int) returns (msg: Option<Message>)
    modifies q
    ensures (q.View(), msg) == RedeliverCall(old(q.View()), visTimeout)
  {
    var popped := q.PopRedeliverable();
    if popped.None? {
      return None;
    }
    var h := popped.value;
    var rec := q.GetInFlight(h);
    if rec.None? {
      return None;
    }
    if rec.value.group != "" {
      var acquired := q.AcquireFIFOLock(rec.value.group, h, visTimeout);
      if !acquired {
        q.PushRedeliverable(h);
        return None;
      }
    }
    var _ := q.ExtendVisibility(h, visTimeout);
    msg := Some(Message(h, rec.value.body, rec.value.receiveCount));
  }

  function RedeliverScript(pid: Pid, visTimeout: int): seq<Step> {
    [Receive(pid, Pop), Receive(pid, LoadPopped), Receive(pid, LockPopped(visTimeout)), Receive(pid, CheckPopped),
     Receive(pid, ExtendPopped(visTimeout)), Receive(pid, Park), Receive(pid, Deliver)]
  }

  /** A message returned to the caller is one more delivery in the machine's history. */
  function Deliveries(s: Sys, msg: Option<Message>): multiset<Handle> {
    s.hist.delivered + if msg.None? then multiset{} else multiset{msg.value.receiptHandle}
  }

  /** A process that is idle again, as it was in s. */
  lemma DoneRestores(s: Sys, pid: Pid, pc: Proc)
    requires Idle(s, pid)
    ensures s.procs[pid := pc] - {pid} == s.procs
  {
  }

  lemma ExecThree(s: Sys, a: Step, b: Step, c: Step)
    ensures Exec(s, [a, b, c]) == Next(Next(Next(s, a), b), c)
  {
    assert [a, b, c] == [a, b] + [c];
    ExecTwo(s, a, b);
    ExecAppend(s, [a, b], c);
  }

  /** The first three steps: pop the head, load it, and try the lock if it is grouped. */
  lemma PopLoadLock(s: Sys, pid: Pid, visTimeout: int)
    requires Idle(s, pid)
    ensures
      var t := Next(Next(Next(s, Receive(pid, Pop)), Receive(pid, LoadPopped)), Receive(pid, LockPopped(visTimeout)));
      var (popped, head) := PopOp(s.st);
      if head.None? || head.value !in s.st.inflight then t == s.(st := popped)
      else
        var h, f := head.value, s.st.inflight[head.value].fields;
        if GroupLocked(s.st, f) then t == s.(st := popped, procs := s.procs[pid := Refused(h)])
        else
          && t.st == Locked(popped, f, h, visTimeout) && t.hist.delivered == s.hist.delivered
          && pid in t.procs && t.procs[pid].Cleared? && t.procs[pid].h == h && t.procs[pid].fields == f
          && t.procs == s.procs[pid := t.procs[pid]]
  {
    var a := Next(s, Receive(pid, Pop));
    var b := Next(a, Receive(pid, LoadPopped));
    if PopOp(s.st).1.Some? {
      DoneRestores(s, pid, a.procs[pid]);
    }
  }

  /** The last four steps of a call that got past its lock. */
  lemma CheckExtendDeliver(s: Sys, t: Sys, pid: Pid, visTimeout: int)
    requires Idle(s, pid) && pid in t.procs && t.procs[pid].Cleared? && t.procs == s.procs[pid := t.procs[pid]]
    requires t.procs[pid].h in t.st.inflight
    ensures
      var c := Next(Next(t, Receive(pid, CheckPopped)), Receive(pid, ExtendPopped(visTimeout)));
      var u := Next(Next(c, Receive(pid, Park)), Receive(pid, Deliver));
      && u.st == SetVisibleOp(t.st, t.procs[pid].h, visTimeout) && u.procs == s.procs
      && u.hist.delivered == t.hist.delivered + multiset{t.procs[pid].h}
  {
    var b := Next(t, Receive(pid, CheckPopped));
    var c := Next(b, Receive(pid, ExtendPopped(visTimeout)));
    assert c.procs == s.procs[pid := c.procs[pid]] && c.procs[pid].Ready?;
    assert Next(c, Receive(pid, Park)) == c;
    DoneRestores(s, pid, c.procs[pid]);
  }

  /** In the machine, an uninterrupted handOutRedeliverable does what the call does. */
  lemma RedeliverCallIsARun(s: Sys, pid: Pid, visTimeout: int)
    requires Idle(s, pid)
    ensures
      var t, (st', msg) := Exec(s, RedeliverScript(pid, visTimeout)), RedeliverCall(s.st, visTimeout);
      t.st == st' && t.procs == s.procs && t.hist.delivered == Deliveries(s, msg)
  {
    var r := RedeliverScript(pid, visTimeout);
    assert r == [r[0], r[1], r[2]] + ([r[3], r[4]] + [r[5], r[6]]);
    ExecThree(s, r[0], r[1], r[2]);
    ExecConcat(s, [r[0], r[1], r[2]], [r[3], r[4]] + [r[5], r[6]]);
    var t := Exec(s, [r[0], r[1], r[2]]);
    ExecConcat(t, [r[3], r[4]], [r[5], r[6]]);
    ExecTwo(t, r[3], r[4]);
    ExecTwo(Exec(t, [r[3], r[4]]), r[5], r[6]);
    PopLoadLock(s, pid, visTimeout);
    var head := PopOp(s.st).1;
    if head.Some? && head.value in s.st.inflight {
      if GroupLocked(s.st, s.st.inflight[head.value].fields) {
        ParkOnly(s, t, pid, visTimeout);
      } else {
        CheckExtendDeliver(s, t, pid, visTimeout);
      }
    } else {
      IdleScript(t, pid, visTimeout);
    }
  }

  /** And the message that the machine's call has in hand before it returns is the one the call function returns. */
  lemma RedeliverCallHasItsMessage(s: Sys, pid: Pid, visTimeout: int)
    requires Idle(s, pid) && RedeliverCall(s.st, visTimeout).1.Some?
    ensures
      var t, msg := Exec(s, RedeliverScript(pid, visTimeout)[..6]), RedeliverCall(s.st, visTimeout).1.value;
      && pid in t.procs && t.procs[pid].Ready?
      && msg == Message(t.procs[pid].h, t.procs[pid].fields.body, t.procs[pid].fields.receiveCount)
  {
    var r := RedeliverScript(pid, visTimeout);
    assert r[..6] == [r[0], r[1], r[2]] + [r[3], r[4], r[5]];
    ExecThree(s, r[0], r[1], r[2]);
    ExecConcat(s, [r[0], r[1], r[2]], [r[3], r[4], r[5]]);
    ExecThree(Exec(s, [r[0], r[1], r[2]]), r[3], r[4], r[5]);
    PopLoadLock(s, pid, visTimeout);
    ClearedBecomesReady(Exec(s, [r[0], r[1], r[2]]), pid, visTimeout);
  }

  lemma ClearedBecomesReady(t: Sys, pid: Pid, visTimeout: int)
    requires pid in t.procs && t.procs[pid].Cleared?
    ensures
      var c := Next(Next(t, Receive(pid, CheckPopped)), Receive(pid, ExtendPopped(visTimeout)));
      var u := Next(c, Receive(pid, Park));
      && pid in u.procs && u.procs[pid].Ready?
      && u.procs[pid].h == t.procs[pid].h && u.procs[pid].fields == t.procs[pid].fields
  {
  }

  lemma ParkOnly(s: Sys, t: Sys, pid: Pid, visTimeout: int)
    requires Idle(s, pid) && pid in t.procs && t.procs[pid].Refused? && t.procs == s.procs[pid := t.procs[pid]]
    ensures
      var c := Next(Next(t, Receive(pid, CheckPopped)), Receive(pid, ExtendPopped(visTimeout)));
      var u := Next(Next(c, Receive(pid, Park)), Receive(pid, Deliver));
      u.st == PushOp(t.st, t.procs[pid].h) && u.procs == s.procs && u.hist == t.hist
  {
    assert Next(Next(t, Receive(pid, CheckPopped)), Receive(pid, ExtendPopped(visTimeout))) == t;
    DoneRestores(s, pid, t.procs[pid]);
  }

  lemma IdleScript(t: Sys, pid: Pid, visTimeout: int)
    requires Idle(t, pid)
    ensures
      var c := Next(Next(t, Receive(pid, CheckPopped)), Receive(pid, ExtendPopped(visTimeout)));
      Next(Next(c, Receive(pid, Park)), Receive(pid, Deliver)) == t
  {
  }

  // ---------------------------------------------------------------------------------------------------------------
  // handOutFresh
  // ---------------------------------------------------------------------------------------------------------------

  /** The in-flight fields of a fresh record: the group is the record's key on a FIFO queue, and there is none otherwise. */
  function FieldsOf(shardId: string, rec: Record, fifo: bool): InFlight {
    InFlight(Slot(Partition(shardId, rec.partition), rec.offset), rec.topic, if fifo then rec.key else "", rec.value, 1)
  }

  function FreshCall(st: Store, h: Handle, f: InFlight, visTimeout: int): (Store, Option<Message>) {
    var stored := PutInFlightOp(AddPendingOp(st, f.slot), h, f, visTimeout);
    if GroupLocked(stored, f) then (PushOp(stored, h), None)
    else (Locked(stored, f, h, visTimeout), Some(Message(h, f.body, 1)))
  }

  method HandOutFresh(q: Queue, shardId: string, rec: Record, fifo: bool, h: Handle, visTimeout: int)
    returns (msg: Option<Message>)
    modifies q
    ensures (q.View(), msg) == FreshCall(old(q.View()), h, FieldsOf(shardId, rec, fifo), visTimeout)
  {
    var slot := Slot(Partition(shardId, rec.partition), rec.offset);
    q.AddPending(slot);
    var groupId := "";
    if fifo {
      groupId := rec.key;
    }
    q.PutInFlight(h, InFlight(slot, rec.topic, groupId, rec.value, 1), visTimeout);
    if groupId != "" {
      var acquired := q.AcquireFIFOLock(groupId, h, visTimeout);
      if !acquired {
        q.PushRedeliverable(h);
        return None;
      }
    }
    msg := Some(Message(h, rec.value, 1));
  }

  function FreshScript(pid: Pid, h: Handle, f: InFlight, visTimeout: int): seq<Step> {
    [Receive(pid, Track(f)), Receive(pid, Put(h, visTimeout)), Receive(pid, LockFresh(visTimeout)),
     Receive(pid, Park), Receive(pid, Deliver)]
  }

  /** In the machine, an uninterrupted handOutFresh does what the call does. */
  lemma FreshCallIsARun(s: Sys, pid: Pid, h: Handle, f: InFlight, visTimeout: int)
    requires Idle(s, pid) && h !in s.hist.ledger.issued && f.receiveCount == 1
    ensures
      var t, (st', msg) := Exec(s, FreshScript(pid, h, f, visTimeout)), FreshCall(s.st, h, f, visTimeout);
      && t.st == st' && t.procs == s.procs && t.hist.delivered == Deliveries(s, msg)
      && t.hist.ledger.issued == s.hist.ledger.issued[h := f.slot]
  {
    var r := FreshScript(pid, h, f, visTimeout);
    assert r == [r[0], r[1]] + [r[2], r[3], r[4]];
    ExecTwo(s, r[0], r[1]);
    ExecConcat(s, [r[0], r[1]], [r[2], r[3], r[4]]);
    var t := Exec(s, [r[0], r[1]]);
    ExecThree(t, r[2], r[3], r[4]);
    TrackPut(s, pid, h, f, visTimeout);
    LockParkDeliver(s, t, pid, visTimeout);
  }

  lemma TrackPut(s: Sys, pid: Pid, h: Handle, f: InFlight, visTimeout: int)
    requires Idle(s, pid) && h !in s.hist.ledger.issued && f.receiveCount == 1
    ensures
      var t := Next(Next(s, Receive(pid, Track(f))), Receive(pid, Put(h, visTimeout)));
      && t.st == PutInFlightOp(AddPendingOp(s.st, f.slot), h, f, visTimeout)
      && t.hist.delivered == s.hist.delivered && t.hist.ledger.issued == s.hist.ledger.issued[h := f.slot]
      && t.procs == s.procs[pid := if f.group == "" then Ready(h, f, None) else Stored(h, f)]
  {
    var a := Next(s, Receive(pid, Track(f)));
    assert a.procs == s.procs[pid := Tracked(f)];
  }

  /** The last three steps of a call whose message is stored. */
  lemma LockParkDeliver(s: Sys, t: Sys, pid: Pid, visTimeout: int)
    requires Idle(s, pid) && pid in t.procs && t.procs == s.procs[pid := t.procs[pid]]
    requires
      var pc := t.procs[pid];
      || (pc.Ready? && pc.fields.group == "")
      || (pc.Stored? && pc.fields.group != "")
    ensures
      var u := Next(Next(Next(t, Receive(pid, LockFresh(visTimeout))), Receive(pid, Park)), Receive(pid, Deliver));
      var h, f := t.procs[pid].h, t.procs[pid].fields;
      && u.procs == s.procs && u.hist.ledger == t.hist.ledger
      && if GroupLocked(t.st, f) then u.st == PushOp(t.st, h) && u.hist.delivered == t.hist.delivered
         else u.st == Locked(t.st, f, h, visTimeout) && u.hist.delivered == t.hist.delivered + multiset{h}
  {
    var a := Next(t, Receive(pid, LockFresh(visTimeout)));
    assert a.procs == s.procs[pid := a.procs[pid]];
    DoneRestores(s, pid, a.procs[pid]);
  }

  // ---------------------------------------------------------------------------------------------------------------
  // DeleteMessage
  // ---------------------------------------------------------------------------------------------------------------

  function AdvanceCall(st: Store, p: Partition): Store {
    match MinPending(st, p)
    case None => st
    case Some(least) => CommitOp(SetWatermarkOp(st, p, least - 1), p, least)
  }

  function DeleteCall(st: Store, h: Handle): Store {
    if h !in st.inflight then st else AdvanceCall(AckOp(st, h).0, st.inflight[h].fields.slot.part)
  }

  /** The least pending offset is committed, and the one below it stored, for this partition; else nothing changes. */
  lemma AdvanceCommitsLeast(st: Store, p: Partition)
    ensures PendingOf(st, p) == {} ==> AdvanceCall(st, p) == st
    ensures PendingOf(st, p) != {} ==>
      var st' := AdvanceCall(st, p);
      && p in st'.offsets.committed && p in st'.offsets.watermark
      && st'.offsets.committed[p] in PendingOf(st, p) && (forall x :: x in PendingOf(st, p) ==> st'.offsets.committed[p] <= x)
      && st'.offsets.watermark[p] + 1 == st'.offsets.committed[p]
      && st' == st.(offsets := st.offsets.(committed := st.offsets.committed[p := st'.offsets.committed[p]],
                                           watermark := st.offsets.watermark[p := st'.offsets.watermark[p]]))
  {
  }

  /**
   Deleting a live message leaves nothing of it and, if others of its partition are pending, commits the least of them;
   deleting one that is gone changes nothing.
   */
  lemma DeleteLeavesNothing(st: Store, h: Handle)
    ensures h !in st.inflight ==> DeleteCall(st, h) == st
    ensures h in st.inflight ==>
      var st', f := DeleteCall(st, h), st.inflight[h].fields;
      var others := PendingOf(st, f.slot.part) - {f.slot.offset};
      && h !in st'.inflight && h !in st'.visIndex && PendingOf(st', f.slot.part) == others && LetsGo(st, st', h, f.group)
      && (others == {} ==> st'.offsets.committed == st.offsets.committed)
      && (others != {} ==>
            && f.slot.part in st'.offsets.committed && st'.offsets.committed[f.slot.part] in others
            && forall x :: x in others ==> st'.offsets.committed[f.slot.part] <= x)
  {
    AckLeavesNothing(st, h);
    if h in st.inflight {
      AdvanceCommitsLeast(AckOp(st, h).0, st.inflight[h].fields.slot.part);
    }
  }

  method AdvanceWatermark(q: Queue, p: Partition)
    modifies q
    ensures q.View() == AdvanceCall(old(q.View()), p)
  {
    var least := q.LeastPending(p);
    if least.None? {
      return;
    }
    q.SetWatermark(p, least.value - 1);
    q.CommitOffset(p, least.value);
  }

  method DeleteMessage(q: Queue, h: Handle)
    modifies q
    ensures q.View() == DeleteCall(old(q.View()), h)
  {
    var rec := q.GetInFlight(h);
    if rec.None? {
      return;
    }
    var outcome := q.Ack(h);
    if outcome != Acked {
      return;
    }
    AdvanceWatermark(q, rec.value.slot.part);
  }

  function DeleteScript(pid: Pid, h: Handle): seq<Step> {
    [Client(pid, LoadDelete(h)), Client(pid, RunAck), Client(pid, ReadMin),
     Client(pid, StoreWatermark), Client(pid, Commit)]
  }

  /** In the machine, an uninterrupted DeleteMessage does what the call does. */
  lemma DeleteCallIsARun(s: Sys, pid: Pid, h: Handle)
    requires Idle(s, pid)
    ensures
      var t := Exec(s, DeleteScript(pid, h));
      t.st == DeleteCall(s.st, h) && t.procs == s.procs
  {
    var r := DeleteScript(pid, h);
    assert r == [r[0], r[1]] + [r[2], r[3], r[4]];
    ExecTwo(s, r[0], r[1]);
    ExecConcat(s, [r[0], r[1]], [r[2], r[3], r[4]]);
    var t := Exec(s, [r[0], r[1]]);
    ExecThree(t, r[2], r[3], r[4]);
    LoadAck(s, pid, h);
    if h in s.st.inflight {
      AdvanceRun(s, t, pid);
    }
  }

  lemma LoadAck(s: Sys, pid: Pid, h: Handle)
    requires Idle(s, pid)
    ensures
      var t := Next(Next(s, Client(pid, LoadDelete(h))), Client(pid, RunAck));
      if h !in s.st.inflight then t == s
      else t.st == AckOp(s.st, h).0 && t.procs == s.procs[pid := Advancing(s.st.inflight[h].fields.slot.part)]
  {
    var a := Next(s, Client(pid, LoadDelete(h)));
    if h in s.st.inflight {
      assert a.procs == s.procs[pid := Deleting(h, s.st.inflight[h].fields)];
      assert a.procs[pid := Advancing(s.st.inflight[h].fields.slot.part)]
          == s.procs[pid := Advancing(s.st.inflight[h].fields.slot.part)];
    }
  }

  lemma AdvanceRun(s: Sys, t: Sys, pid: Pid)
    requires Idle(s, pid) && pid in t.procs && t.procs[pid].Advancing? && t.procs == s.procs[pid := t.procs[pid]]
    ensures
      var u := Next(Next(Next(t, Client(pid, ReadMin)), Client(pid, StoreWatermark)), Client(pid, Commit));
      u.st == AdvanceCall(t.st, t.procs[pid].part) && u.procs == s.procs
  {
    var a := Next(t, Client(pid, ReadMin));
    DoneRestores(s, pid, t.procs[pid]);
    if MinPending(t.st, t.procs[pid].part).Some? {
      var b := Next(a, Client(pid, StoreWatermark));
      assert b.procs == s.procs[pid := b.procs[pid]];
      DoneRestores(s, pid, b.procs[pid]);
    }
  }

  // ---------------------------------------------------------------------------------------------------------------
  // Sweep
  // ---------------------------------------------------------------------------------------------------------------

  /** A call of the DLQ sender: the message's body and group, for the dead-letter queue. */
  datatype Letter = Letter(h: Handle, body: string, group: string)

  /** What one pass over a batch did: actions counted, messages passed to the DLQ sender, and whether all sends worked. */
  datatype Sweep = Sweep(swept: nat, sent: seq<Letter>, ok: bool)

  function LetterOf(h: Handle, f: InFlight): Letter {
    Letter(h, f.body, f.group)
  }

  function Handles(sent: seq<Letter>): seq<Handle> {
    seq(|sent|, i requires 0 <= i < |sent| => sent[i].h)
  }

  /** What is sent for one handle of a batch. */
  function LettersFor(h: Handle, outcome: ReapOutcome, hasDlq: bool): seq<Letter> {
    if outcome.DeadLetter? && hasDlq then [LetterOf(h, outcome.fields)] else []
  }

  function SweepCall(st: Store, todo: seq<Handle>, maxReceive: int, hasDlq: bool, sendOk: Handle -> bool): (Store, Sweep)
    decreases |todo|
  {
    if |todo| == 0 then (st, Sweep(0, [], true))
    else
      var (st1, outcome) := ReapOp(st, todo[0], maxReceive);
      var sends := outcome.DeadLetter? && hasDlq;
      if sends && !sendOk(todo[0]) then (st1, Sweep(0, LettersFor(todo[0], outcome, hasDlq), false))
      else
        var (st2, rest) := SweepCall(st1, todo[1..], maxReceive, hasDlq, sendOk);
        (st2, rest.(swept := rest.swept + if outcome.Gone? then 0 else 1,
                    sent := LettersFor(todo[0], outcome, hasDlq) + rest.sent))
  }

  /** A pass that has already taken some actions, carried on by a pass over the rest of the batch. */
  function Onwards(swept: nat, sent: seq<Letter>, rest: (Store, Sweep)): (Store, Sweep) {
    (rest.0, Sweep(swept + rest.1.swept, sent + rest.1.sent, rest.1.ok))
  }

  /** One handle of the batch moves on by one action, one send, or the end of the pass. */
  lemma SweepTurn(
    st: Store, todo: seq<Handle>, maxReceive: int, hasDlq: bool, sendOk: Handle -> bool, swept: nat, sent: seq<Letter>)
    requires |todo| > 0
    ensures
      var (st1, outcome) := ReapOp(st, todo[0], maxReceive);
      var sends := outcome.DeadLetter? && hasDlq;
      var sent' := sent + LettersFor(todo[0], outcome, hasDlq);
      Onwards(swept, sent, SweepCall(st, todo, maxReceive, hasDlq, sendOk)) ==
        if sends && !sendOk(todo[0]) then (st1, Sweep(swept, sent', false))
        else Onwards(swept + if outcome.Gone? then 0 else 1, sent',
                     SweepCall(st1, todo[1..], maxReceive, hasDlq, sendOk))
  {
    var (st1, outcome) := ReapOp(st, todo[0], maxReceive);
    var letters, rest := LettersFor(todo[0], outcome, hasDlq), SweepCall(st1, todo[1..], maxReceive, hasDlq, sendOk).1.sent;
    assert sent + (letters + rest) == sent + letters + rest;
  }

  method RunSweep(q: Queue, batch: seq<Handle>, maxReceive: int, hasDlq: bool, sendOk: Handle -> bool)
    returns (swept: nat, sent: seq<Letter>, ok: bool)
    modifies q
    ensures (q.View(), Sweep(swept, sent, ok)) == SweepCall(old(q.View()), batch, maxReceive, hasDlq, sendOk)
  {
    swept, sent, ok := 0, [], true;
    ghost var all := SweepCall(q.View(), batch, maxReceive, hasDlq, sendOk);
    assert batch[0..] == batch && [] + all.1.sent == all.1.sent;
    for i := 0 to |batch|
      invariant ok
      invariant Onwards(swept, sent, SweepCall(q.View(), batch[i..], maxReceive, hasDlq, sendOk)) == all
    {
      SweepTurn(q.View(), batch[i..], maxReceive, hasDlq, sendOk, swept, sent);
      assert sent + [] == sent;
      assert batch[i..][1..] == batch[i + 1..];
      var outcome := q.Reap(batch[i], maxReceive);
      match outcome {
        case Gone =>
        case DeadLetter(fields) =>
          if hasDlq {
            sent := sent + [Letter(batch[i], fields.body, fields.group)];
            if !sendOk(batch[i]) {
              ok := false;
              return;
            }
          }
          swept := swept + 1;
        case Redeliver(_) =>
          swept := swept + 1;
      }
    }
    assert sent + [] == sent;
  }

  function SweepScript(pid: Pid, todo: seq<Handle>, sendOk: Handle -> bool): seq<Step> {
    if |todo| == 0 then [Reaper(pid, RunReap)]
    else [Reaper(pid, RunReap), Reaper(pid, SendDlq(sendOk(todo[0])))] + SweepScript(pid, todo[1..], sendOk)
  }

  lemma {:induction false} IdleSweepScript(t: Sys, pid: Pid, todo: seq<Handle>, sendOk: Handle -> bool)
    requires Idle(t, pid)
    ensures Exec(t, SweepScript(pid, todo, sendOk)) == t
    decreases |todo|
  {
    if |todo| == 0 {
      ExecOne(t, Reaper(pid, RunReap));
    } else {
      var reap, send := Reaper(pid, RunReap), Reaper(pid, SendDlq(sendOk(todo[0])));
      ExecConcat(t, [reap, send], SweepScript(pid, todo[1..], sendOk));
      ExecTwo(t, reap, send);
      IdleSweepScript(t, pid, todo[1..], sendOk);
    }
  }

  predicate SendFails(t: Sys, h: Handle, sendOk: Handle -> bool) {
    ReapOp(t.st, h, t.maxReceive).1.DeadLetter? && t.hasDlq && !sendOk(h)
  }

  predicate Sends(t: Sys, h: Handle) {
    ReapOp(t.st, h, t.maxReceive).1.DeadLetter? && t.hasDlq
  }

  lemma Reaped(t: Sys, pid: Pid, todo: seq<Handle>)
    requires |todo| > 0 && pid in t.procs && t.procs[pid] == Sweeping(todo)
    ensures
      var a, (st', outcome) := Next(t, Reaper(pid, RunReap)), ReapOp(t.st, todo[0], t.maxReceive);
      && a.st == st' && a.maxReceive == t.maxReceive && a.hasDlq == t.hasDlq && a.hist.tally.sent == t.hist.tally.sent
      && pid in a.procs && a.procs == t.procs[pid := a.procs[pid]]
      && (if outcome.DeadLetter? then a.procs[pid].Routing? && a.procs[pid].h == todo[0] && a.procs[pid].todo == todo[1..]
          else a.procs[pid] == Sweeping(todo[1..]))
  {
  }

  /** One handle of a sweep: reap.lua, and the send if the reply asks for one. */
  lemma ReapSend(s: Sys, t: Sys, pid: Pid, todo: seq<Handle>, sendOk: Handle -> bool)
    requires Idle(s, pid) && |todo| > 0 && t.procs == s.procs[pid := Sweeping(todo)]
    ensures
      var u := Next(Next(t, Reaper(pid, RunReap)), Reaper(pid, SendDlq(sendOk(todo[0]))));
      && u.st == ReapOp(t.st, todo[0], t.maxReceive).0
      && u.procs == (if SendFails(t, todo[0], sendOk) then s.procs else s.procs[pid := Sweeping(todo[1..])])
      && u.maxReceive == t.maxReceive && u.hasDlq == t.hasDlq
      && u.hist.tally.sent == t.hist.tally.sent + if Sends(t, todo[0]) then multiset{todo[0]} else multiset{}
  {
    Reaped(t, pid, todo);
    var a := Next(t, Reaper(pid, RunReap));
    assert a.procs == s.procs[pid := a.procs[pid]];
    DoneRestores(s, pid, a.procs[pid]);
  }

  /** The handles of the letters of a pass, the first handle's apart. */
  lemma HandlesOfLetters(h: Handle, outcome: ReapOutcome, hasDlq: bool, rest: seq<Letter>)
    ensures multiset(Handles(LettersFor(h, outcome, hasDlq) + rest))
      == (if outcome.DeadLetter? && hasDlq then multiset{h} else multiset{}) + multiset(Handles(rest))
  {
    var letters := LettersFor(h, outcome, hasDlq);
    assert Handles(letters + rest) == (if letters == [] then [] else [h]) + Handles(rest);
  }

  /** The letters of a pass are those for its first handle and then those of the rest, unless the first send fails. */
  lemma SweepSplits(t: Sys, todo: seq<Handle>, sendOk: Handle -> bool)
    requires |todo| > 0
    ensures
      var whole, (st1, outcome) := SweepCall(t.st, todo, t.maxReceive, t.hasDlq, sendOk), ReapOp(t.st, todo[0], t.maxReceive);
      if SendFails(t, todo[0], sendOk) then
        whole.0 == st1 && multiset(Handles(whole.1.sent)) == multiset{todo[0]}
      else
        var rest := SweepCall(st1, todo[1..], t.maxReceive, t.hasDlq, sendOk);
        && whole.0 == rest.0
        && multiset(Handles(whole.1.sent)) == (if Sends(t, todo[0]) then multiset{todo[0]} else multiset{})
                                              + multiset(Handles(rest.1.sent))
  {
    var (st1, outcome) := ReapOp(t.st, todo[0], t.maxReceive);
    var rest := SweepCall(st1, todo[1..], t.maxReceive, t.hasDlq, sendOk).1.sent;
    HandlesOfLetters(todo[0], outcome, t.hasDlq, rest);
    HandlesOfLetters(todo[0], outcome, t.hasDlq, []);
    assert LettersFor(todo[0], outcome, t.hasDlq) + [] == LettersFor(todo[0], outcome, t.hasDlq);
  }

  lemma {:induction false} SweepLoopIsARun(s: Sys, t: Sys, pid: Pid, todo: seq<Handle>, sendOk: Handle -> bool)
    requires Idle(s, pid) && t.procs == s.procs[pid := Sweeping(todo)]
    ensures
      var u, (st', done) := Exec(t, SweepScript(pid, todo, sendOk)), SweepCall(t.st, todo, t.maxReceive, t.hasDlq, sendOk);
      u.st == st' && u.procs == s.procs && u.hist.tally.sent == t.hist.tally.sent + multiset(Handles(done.sent))
    decreases |todo|
  {
    if |todo| == 0 {
      ExecOne(t, Reaper(pid, RunReap));
      DoneRestores(s, pid, Sweeping(todo));
    } else {
      var reap, send := Reaper(pid, RunReap), Reaper(pid, SendDlq(sendOk(todo[0])));
      ExecConcat(t, [reap, send], SweepScript(pid, todo[1..], sendOk));
      ExecTwo(t, reap, send);
      ReapSend(s, t, pid, todo, sendOk);
      SweepSplits(t, todo, sendOk);
      var u := Exec(t, [reap, send]);
      if SendFails(t, todo[0], sendOk) {
        IdleSweepScript(u, pid, todo[1..], sendOk);
      } else {
        SweepLoopIsARun(s, u, pid, todo[1..], sendOk);
      }
    }
  }

  /** In the machine, an uninterrupted Sweep of the expired handles does what the call does, sends included. */
  lemma SweepCallIsARun(s: Sys, pid: Pid, batch: seq<Handle>, sendOk: Handle -> bool)
    requires Idle(s, pid) && IsExpiredBatch(s.st, batch)
    ensures
      var t := Exec(s, [Reaper(pid, BeginSweep(batch))] + SweepScript(pid, batch, sendOk));
      var (st', done) := SweepCall(s.st, batch, s.maxReceive, s.hasDlq, sendOk);
      t.st == st' && t.procs == s.procs && t.hist.tally.sent == s.hist.tally.sent + multiset(Handles(done.sent))
  {
    var begin := Reaper(pid, BeginSweep(batch));
    ExecOne(s, begin);
    ExecConcat(s, [begin], SweepScript(pid, batch, sendOk));
    SweepLoopIsARun(s, Exec(s, [begin]), pid, batch, sendOk);
  }
}
