/** What the messages of a ReceiveMessage call say: the body and count that are stored, and the records that were fetched. */
module ReceivedMessages {
  import opened Options
  import opened Store
  import opened Protocol
  import opened Outcomes
  import opened Calls
  import opened ReceiveMessages
  import opened ReceiveLaws

  // ---------------------------------------------------------------------------------------------------------------
  // One message
  // ---------------------------------------------------------------------------------------------------------------

  /** What is in flight for a record: where it came from, its value, and its key as the group if the queue is FIFO. */
  predicate IsRecord(f: InFlight, shardId: string, rec: Record, fifo: bool) {
    && f.slot.part.shardId == shardId && f.slot.part.number == rec.partition && f.slot.offset == rec.offset
    && f.topic == rec.topic && f.body == rec.value
    && (fifo ==> f.group == rec.key) && (!fifo ==> f.group == "")
  }

  /**
   A fetched record becomes pending at its own offset and is stored as it is, for the visibility timeout and a minute more.
   On a FIFO queue a record with a key is handed out if and only if its key was not locked, and holds the lock from then
   on; otherwise it goes to the tail of the redeliver list. Any other record is handed out, and no lock is touched.
   */
  lemma FreshRecordIsStored(st: Store, h: Handle, shardId: string, rec: Record, fifo: bool, visTimeout: int)
    ensures
      var (st', msg) := FreshCall(st, h, FieldsOf(shardId, rec, fifo), visTimeout);
      && rec.offset in PendingOf(st', Partition(shardId, rec.partition))
      && h in st'.inflight && IsRecord(st'.inflight[h].fields, shardId, rec, fifo)
      && st'.inflight[h].fields.receiveCount == 1 && st'.inflight[h].expiresAt == st.now + visTimeout + 60_000
      && h in st'.visIndex && st'.visIndex[h] == st.now + visTimeout
      && (msg.Some? ==> msg.value == Message(h, rec.value, 1))
      && (if fifo && rec.key != "" then
            && (msg.Some? <==> rec.key !in st.locks)
            && (msg.Some? ==> st'.locks == st.locks[rec.key := Lock(h, st.now + visTimeout)] && st'.redeliver == st.redeliver)
            && (msg.None? ==> st'.locks == st.locks && st'.redeliver == st.redeliver + [h])
          else msg.Some? && st'.locks == st.locks && st'.redeliver == st.redeliver)
  {
  }

  /** The message says what is stored for its handle. */
  predicate Says(st: Store, m: Message) {
    && m.receiptHandle in st.inflight
    && m.body == st.inflight[m.receiptHandle].fields.body
    && m.receiveCount == st.inflight[m.receiptHandle].fields.receiveCount
  }

  /** A redelivered message is the head of the list, says what is stored, and is invisible for the timeout from now on. */
  lemma RedeliveredSaysWhatIsStored(st: Store, visTimeout: int)
    ensures
      var (st', msg) := RedeliverCall(st, visTimeout);
      msg.Some? ==>
        && |st.redeliver| > 0 && msg.value.receiptHandle == st.redeliver[0] && Says(st, msg.value) && Says(st', msg.value)
        && st'.visIndex == st.visIndex[st.redeliver[0] := st.now + visTimeout]
  {
  }

  /**
   In every run: what a receive call finds on the list and hands out is on the attempt after its last redelivery, and never
   past MaxReceiveCount.
   */
  lemma RedeliveredCountInEveryRun(maxReceive: int, hasDlq: bool, run: seq<Step>, visTimeout: int)
    ensures
      var s := Exec(Init(maxReceive, hasDlq), run);
      var msg := RedeliverCall(s.st, visTimeout).1;
      msg.Some? ==>
        && msg.value.receiveCount == 1 + s.hist.tally.redelivers[msg.value.receiptHandle]
        && msg.value.receiveCount <= if maxReceive < 1 then 1 else maxReceive
  {
    var s := Exec(Init(maxReceive, hasDlq), run);
    RedeliveredSaysWhatIsStored(s.st, visTimeout);
    OutcomeInvInEveryRun(maxReceive, hasDlq, run);
  }

  // ---------------------------------------------------------------------------------------------------------------
  // A whole call
  // ---------------------------------------------------------------------------------------------------------------

  /** What was in flight still is, unchanged. */
  ghost predicate Keeps(st: Store, st': Store) {
    forall h :: h in st.inflight ==> h in st'.inflight && st'.inflight[h] == st.inflight[h]
  }

  ghost predicate AllSay(st: Store, out: seq<Message>) {
    forall i :: 0 <= i < |out| ==> Says(st, out[i])
  }

  lemma {:induction false} DrainedSay(st: Store, room: nat, visTimeout: int)
    ensures
      var (st', out) := Drain(st, room, visTimeout);
      st'.inflight == st.inflight && AllSay(st, out)
    decreases room
  {
    if room > 0 {
      RedeliveredSaysWhatIsStored(st, visTimeout);
      var (st1, msg) := RedeliverCall(st, visTimeout);
      assert st1.inflight == st.inflight;
      if msg.Some? {
        DrainedSay(st1, room - 1, visTimeout);
      }
    }
  }

  /** The stored message is one of the fetched records. */
  ghost predicate IsFetched(st: Store, c: Setting, recs: seq<Record>, h: Handle) {
    h in st.inflight &&
    exists i :: 0 <= i < |recs| && recs[i].topic in c.topicToShardId
                && IsRecord(st.inflight[h].fields, c.topicToShardId[recs[i].topic], recs[i], c.fifo)
  }

  lemma FetchedEarlier(st: Store, st': Store, c: Setting, recs: seq<Record>, h: Handle)
    requires IsFetched(st, c, recs, h) && Keeps(st, st')
    ensures IsFetched(st', c, recs, h)
  {
  }

  lemma FetchedInRest(st: Store, c: Setting, recs: seq<Record>, h: Handle)
    requires |recs| > 0 && IsFetched(st, c, recs[1..], h)
    ensures IsFetched(st, c, recs, h)
  {
    var i :| 0 <= i < |recs[1..]| && recs[1..][i].topic in c.topicToShardId
             && IsRecord(st.inflight[h].fields, c.topicToShardId[recs[1..][i].topic], recs[1..][i], c.fifo);
    assert recs[1..][i] == recs[i + 1];
  }

  /** The records of a poll that are handed out: known topics, no key that is locked, no key twice, while there is room. */
  function Chosen(c: Setting, locked: set<string>, recs: seq<Record>, room: nat): seq<Record>
    decreases |recs|
  {
    if |recs| == 0 || room == 0 then []
    else if recs[0].topic !in c.topicToShardId then Chosen(c, locked, recs[1..], room)
    else if !c.fifo || recs[0].key == "" then [recs[0]] + Chosen(c, locked, recs[1..], room - 1)
    else if recs[0].key in locked then Chosen(c, locked, recs[1..], room)
    else [recs[0]] + Chosen(c, locked + {recs[0].key}, recs[1..], room - 1)
  }

  ghost predicate AreRecords(out: seq<Message>, chosen: seq<Record>) {
    |out| == |chosen| && forall i :: 0 <= i < |out| ==> out[i].body == chosen[i].value && out[i].receiveCount == 1
  }

  /** One record: the keys that are locked after it, and whether it is among the chosen. */
  lemma FirstChosen(st: Store, recs: seq<Record>, room: nat, c: Setting, next: Handle)
    requires |recs| > 0 && room > 0 && recs[0].topic in c.topicToShardId
    ensures
      var (st1, msg) := FreshCall(st, next, FieldsOf(c.topicToShardId[recs[0].topic], recs[0], c.fifo), c.visTimeout);
      && (msg.Some? ==> msg.value.body == recs[0].value && msg.value.receiveCount == 1)
      && Chosen(c, st.locks.Keys, recs, room) ==
           if msg.Some? then [recs[0]] + Chosen(c, st1.locks.Keys, recs[1..], room - 1)
           else Chosen(c, st1.locks.Keys, recs[1..], room)
  {
    var shardId := c.topicToShardId[recs[0].topic];
    var st1 := FreshCall(st, next, FieldsOf(shardId, recs[0], c.fifo), c.visTimeout).0;
    FreshRecordIsStored(st, next, shardId, recs[0], c.fifo, c.visTimeout);
    if c.fifo && recs[0].key != "" && recs[0].key !in st.locks {
      assert st1.locks.Keys == st.locks.Keys + {recs[0].key};
    }
  }

  lemma TakeFirst(st: Store, recs: seq<Record>, room: nat, c: Setting, next: Handle)
    requires |recs| > 0 && room > 0 && recs[0].topic in c.topicToShardId
    ensures
      var (st1, msg) := FreshCall(st, next, FieldsOf(c.topicToShardId[recs[0].topic], recs[0], c.fifo), c.visTimeout);
      var rest := Take(st1, recs[1..], if msg.None? then room else room - 1, c, next + 1);
      Take(st, recs, room, c, next) == rest.(out := One(msg) + rest.out)
  {
  }

  lemma AreRecordsOne(msg: Option<Message>, rec: Record, out: seq<Message>, chosen: seq<Record>)
    requires (msg.Some? ==> msg.value.body == rec.value && msg.value.receiveCount == 1) && AreRecords(out, chosen)
    ensures AreRecords(One(msg) + out, if msg.Some? then [rec] + chosen else chosen)
  {
  }

  /** The fresh messages of a round are the chosen records, in the order they were fetched. */
  lemma {:induction false} TakenAreChosen(st: Store, recs: seq<Record>, room: nat, c: Setting, next: Handle)
    ensures AreRecords(Take(st, recs, room, c, next).out, Chosen(c, st.locks.Keys, recs, room))
    decreases |recs|
  {
    if |recs| > 0 && room > 0 {
      if recs[0].topic !in c.topicToShardId {
        TakenAreChosen(st, recs[1..], room, c, next);
      } else {
        var f := FieldsOf(c.topicToShardId[recs[0].topic], recs[0], c.fifo);
        var (st1, msg) := FreshCall(st, next, f, c.visTimeout);
        var room1 := if msg.None? then room else room - 1;
        TakeFirst(st, recs, room, c, next);
        FirstChosen(st, recs, room, c, next);
        TakenAreChosen(st1, recs[1..], room1, c, next + 1);
        AreRecordsOne(msg, recs[0], Take(st1, recs[1..], room1, c, next + 1).out, Chosen(c, st1.locks.Keys, recs[1..], room1));
      }
    }
  }

  /** No two chosen records of a FIFO queue share a key, and none has a key that was locked. */
  lemma {:induction false} ChosenOnePerKey(c: Setting, locked: set<string>, recs: seq<Record>, room: nat, i: nat, j: nat)
    requires c.fifo && i < |Chosen(c, locked, recs, room)| && j < |Chosen(c, locked, recs, room)|
    ensures
      var chosen := Chosen(c, locked, recs, room);
      && (chosen[i].key != "" ==> chosen[i].key !in locked)
      && (i != j && chosen[i].key != "" ==> chosen[i].key != chosen[j].key)
    decreases |recs|
  {
    var chosen := Chosen(c, locked, recs, room);
    if chosen == Chosen(c, locked, recs[1..], room) {
      ChosenOnePerKey(c, locked, recs[1..], room, i, j);
    } else {
      var locked1 := if recs[0].key == "" then locked else locked + {recs[0].key};
      var rest := Chosen(c, locked1, recs[1..], room - 1);
      assert chosen == [recs[0]] + rest;
      if i > 0 { ChosenOnePerKey(c, locked1, recs[1..], room - 1, i - 1, i - 1); }
      if j > 0 { ChosenOnePerKey(c, locked1, recs[1..], room - 1, j - 1, j - 1); }
      if i > 0 && j > 0 { ChosenOnePerKey(c, locked1, recs[1..], room - 1, i - 1, j - 1); }
    }
  }

  /** What a round makes of the state: messages that say what is stored, and new handles for fetched records. */
  ghost predicate Collects(st: Store, p: Progress, c: Setting, recs: seq<Record>, next: Handle) {
    && Keeps(st, p.st) && AllSay(p.st, p.out) && next <= p.next
    && (forall h :: next <= h < p.next ==> IsFetched(p.st, c, recs, h))
  }

  lemma {:induction false} TakeCollects(st: Store, recs: seq<Record>, room: nat, c: Setting, next: Handle)
    requires Unused(st, next)
    ensures Collects(st, Take(st, recs, room, c, next), c, recs, next)
    decreases |recs|
  {
    var p := Take(st, recs, room, c, next);
    if |recs| > 0 && room > 0 {
      if recs[0].topic !in c.topicToShardId {
        TakeCollects(st, recs[1..], room, c, next);
        forall h | next <= h < p.next ensures IsFetched(p.st, c, recs, h) { FetchedInRest(p.st, c, recs, h); }
      } else {
        TakeOneCollects(st, recs, room, c, next);
      }
    }
  }

  lemma TakeOneCollects(st: Store, recs: seq<Record>, room: nat, c: Setting, next: Handle)
    requires Unused(st, next) && |recs| > 0 && room > 0 && recs[0].topic in c.topicToShardId
    ensures Collects(st, Take(st, recs, room, c, next), c, recs, next)
    decreases |recs|, 0
  {
    var shardId := c.topicToShardId[recs[0].topic];
    var f := FieldsOf(shardId, recs[0], c.fifo);
    var (st1, msg) := FreshCall(st, next, f, c.visTimeout);
    var room1 := if msg.None? then room else room - 1;
    var p, rest := Take(st, recs, room, c, next), Take(st1, recs[1..], room1, c, next + 1);
    FreshRecordIsStored(st, next, shardId, recs[0], c.fifo, c.visTimeout);
    FreshBalance(st, f, c.visTimeout, next, next);
    TakeCollects(st1, recs[1..], room1, c, next + 1);
    assert Keeps(st, st1);
    assert IsFetched(st1, c, recs, next);
    FetchedEarlier(st1, rest.st, c, recs, next);
    forall h | next + 1 <= h < rest.next ensures IsFetched(rest.st, c, recs, h) { FetchedInRest(rest.st, c, recs, h); }
    assert AllSay(rest.st, One(msg));
    TakeFirst(st, recs, room, c, next);
  }

  function Recs(poll: Poll): seq<Record> {
    if poll.Fetched? then poll.recs else []
  }

  lemma SayLater(st: Store, st': Store, out: seq<Message>)
    requires AllSay(st, out) && Keeps(st, st')
    ensures AllSay(st', out)
  {
  }

  lemma RoundCollects(st: Store, poll: Poll, c: Setting, next: Handle)
    requires Unused(st, next)
    ensures Collects(st, OneRound(st, poll, c, next), c, Recs(poll), next)
  {
    RoundParts(st, poll, c, next);
    var (st1, out1) := Drain(st, c.max, c.visTimeout);
    DrainedSay(st, c.max, c.visTimeout);
    DrainLeavesUnused(st, c.max, c.visTimeout, next);
    if |out1| < c.max && poll.Fetched? {
      TakeCollects(st1, poll.recs, c.max - |out1|, c, next);
      SayLater(st, Take(st1, poll.recs, c.max - |out1|, c, next).st, out1);
    }
  }

  /** All that the polls of a call fetched. */
  function AllRecs(polls: seq<Poll>): seq<Record> {
    if |polls| == 0 then [] else Recs(polls[0]) + AllRecs(polls[1..])
  }

  lemma FetchedAmong(st: Store, c: Setting, a: seq<Record>, b: seq<Record>, h: Handle)
    requires IsFetched(st, c, a, h) || IsFetched(st, c, b, h)
    ensures IsFetched(st, c, a + b, h)
  {
    if IsFetched(st, c, a, h) {
      var i :| 0 <= i < |a| && a[i].topic in c.topicToShardId
               && IsRecord(st.inflight[h].fields, c.topicToShardId[a[i].topic], a[i], c.fifo);
      assert (a + b)[i] == a[i];
    } else {
      var i :| 0 <= i < |b| && b[i].topic in c.topicToShardId
               && IsRecord(st.inflight[h].fields, c.topicToShardId[b[i].topic], b[i], c.fifo);
      assert (a + b)[|a| + i] == b[i];
    }
  }

  /**
   Every message of a call says what is stored for its handle in the state the call reaches, body and count. Handles that
   the call has issued stand for fetched records of known topics, with the record's own place, value and, on a FIFO queue,
   key; what was in flight before is as it was.
   */
  lemma {:induction false} ReceivedSayWhatIsStored(st: Store, polls: seq<Poll>, c: Setting, next: Handle)
    requires |polls| > 0 && Unused(st, next)
    ensures
      var p := ReceiveCall(st, polls, c, next);
      && Keeps(st, p.st) && AllSay(p.st, p.out) && next <= p.next
      && (forall h :: next <= h < p.next ==> IsFetched(p.st, c, AllRecs(polls), h))
    decreases |polls|
  {
    var round := OneRound(st, polls[0], c, next);
    var p := ReceiveCall(st, polls, c, next);
    RoundCollects(st, polls[0], c, next);
    if !(round.failed || |round.out| > 0 || |polls| == 1) {
      RoundBalance(st, polls[0], c, next, next);
      ReceivedSayWhatIsStored(round.st, polls[1..], c, round.next);
      forall h | next <= h < round.next ensures IsFetched(p.st, c, Recs(polls[0]), h) {
        FetchedEarlier(round.st, p.st, c, Recs(polls[0]), h);
      }
    }
    forall h | next <= h < p.next ensures IsFetched(p.st, c, AllRecs(polls), h) {
      FetchedAmong(p.st, c, Recs(polls[0]), AllRecs(polls[1..]), h);
    }
  }

  /**
   On a FIFO queue a call returns at most one fetched record of each key, and none whose key was locked when it began.
   */
  lemma OneRecordPerKey(st: Store, polls: seq<Poll>, c: Setting, next: Handle, i: nat, j: nat, a: Record, b: Record)
    requires |polls| > 0 && Unused(st, next) && c.fifo
    requires
      var p := ReceiveCall(st, polls, c, next);
      && i < |p.out| && j < |p.out| && i != j
      && a.topic in c.topicToShardId && b.topic in c.topicToShardId
      && p.out[i].receiptHandle in p.st.inflight && p.out[j].receiptHandle in p.st.inflight
      && IsRecord(p.st.inflight[p.out[i].receiptHandle].fields, c.topicToShardId[a.topic], a, c.fifo)
      && IsRecord(p.st.inflight[p.out[j].receiptHandle].fields, c.topicToShardId[b.topic], b, c.fifo)
    ensures a.key != "" ==> a.key != b.key && a.key !in st.locks
  {
    ReceiveOnePerGroup(st, polls, c, next);
    var p := ReceiveCall(st, polls, c, next);
    assert GroupOf(p.st, p.out[i]) == a.key && GroupOf(p.st, p.out[j]) == b.key;
  }
}
