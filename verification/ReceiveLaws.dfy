/** What an uninterrupted ReceiveMessage guarantees about the messages it moves. */
module ReceiveLaws {
  import opened Options
  import opened Store
  import opened Calls
  import opened ReceiveMessages

  /** How often a handle is on the redeliver list. */
  function Queued(st: Store, h: Handle): nat {
    multiset(st.redeliver)[h]
  }

  /** How often a message was collected. */
  function Collected(out: seq<Message>, h: Handle): nat {
    if |out| == 0 then 0 else (if out[0].receiptHandle == h then 1 else 0) + Collected(out[1..], h)
  }

  lemma {:induction false} CollectedConcat(a: seq<Message>, b: seq<Message>, h: Handle)
    ensures Collected(a + b, h) == Collected(a, h) + Collected(b, h)
  {
    if |a| == 0 {
      assert a + b == b;
    } else {
      assert (a + b)[1..] == a[1..] + b;
      CollectedConcat(a[1..], b, h);
    }
  }

  function One(msg: Option<Message>): seq<Message> {
    if msg.None? then [] else [msg.value]
  }

  // ---------------------------------------------------------------------------------------------------------------
  // Conservation
  // ---------------------------------------------------------------------------------------------------------------

  /** One call of handOutRedeliverable moves at most one live handle, and never loses it. */
  lemma RedeliverBalance(st: Store, visTimeout: int, h: Handle)
    ensures
      var (st', msg) := RedeliverCall(st, visTimeout);
      && st'.inflight == st.inflight
      && (h in st.inflight ==> Queued(st, h) == Queued(st', h) + Collected(One(msg), h))
      && (h !in st.inflight ==> Queued(st', h) <= Queued(st, h) && Collected(One(msg), h) == 0)
  {
    if |st.redeliver| > 0 {
      assert st.redeliver == [st.redeliver[0]] + st.redeliver[1..];
    }
  }

  lemma {:induction false} DrainBalance(st: Store, room: nat, visTimeout: int, h: Handle)
    ensures
      var (st', out) := Drain(st, room, visTimeout);
      && st'.inflight == st.inflight && |out| <= room
      && (h in st.inflight ==> Queued(st, h) == Queued(st', h) + Collected(out, h))
      && (h !in st.inflight ==> Queued(st', h) <= Queued(st, h) && Collected(out, h) == 0)
    decreases room
  {
    if room > 0 {
      RedeliverBalance(st, visTimeout, h);
      var (st1, msg) := RedeliverCall(st, visTimeout);
      if msg.Some? {
        DrainBalance(st1, room - 1, visTimeout, h);
      }
    }
  }

  /** The handle is new to the store: it is neither in flight nor on the redeliver list. */
  predicate Unused(st: Store, from: Handle) {
    && (forall h :: h in st.inflight ==> h < from)
    && (forall h :: h in st.redeliver ==> h < from)
  }

  lemma UnusedIsNotQueued(st: Store, from: Handle, h: Handle)
    requires Unused(st, from) && from <= h
    ensures Queued(st, h) == 0
  {
    assert h !in st.redeliver;
  }

  function Issued(h: Handle, from: Handle, to: Handle): nat {
    if from <= h < to then 1 else 0
  }

  lemma FreshBalance(st: Store, f: InFlight, visTimeout: int, next: Handle, h: Handle)
    requires Unused(st, next)
    ensures
      var (st', msg) := FreshCall(st, next, f, visTimeout);
      && Unused(st', next + 1) && st'.inflight.Keys == st.inflight.Keys + {next}
      && Queued(st', h) + Collected(One(msg), h) == Queued(st, h) + Issued(h, next, next + 1)
  {
    var (st', msg) := FreshCall(st, next, f, visTimeout);
    if msg.None? {
      assert st'.redeliver == st.redeliver + [next];
    }
  }

  lemma {:induction false} TakeBalance(st: Store, recs: seq<Record>, room: nat, c: Setting, next: Handle, h: Handle)
    requires Unused(st, next)
    ensures
      var p := Take(st, recs, room, c, next);
      && next <= p.next && Unused(p.st, p.next) && |p.out| <= room
      && (forall g :: g in p.st.inflight <==> g in st.inflight || next <= g < p.next)
      && Queued(p.st, h) + Collected(p.out, h) == Queued(st, h) + Issued(h, next, p.next)
      && (!(next <= h < p.next) ==> Collected(p.out, h) == 0)
    decreases |recs|
  {
    if |recs| > 0 && room > 0 {
      if recs[0].topic !in c.topicToShardId {
        TakeBalance(st, recs[1..], room, c, next, h);
      } else {
        var f := FieldsOf(c.topicToShardId[recs[0].topic], recs[0], c.fifo);
        var (st1, msg) := FreshCall(st, next, f, c.visTimeout);
        FreshBalance(st, f, c.visTimeout, next, h);
        var room1 := if msg.None? then room else room - 1;
        TakeBalance(st1, recs[1..], room1, c, next + 1, h);
        CollectedConcat(One(msg), Take(st1, recs[1..], room1, c, next + 1).out, h);
      }
    }
  }

  /** The balance of one live or dead handle over a stretch of a call. */
  ghost predicate Balanced(st: Store, p: Progress, next: Handle, h: Handle) {
    && next <= p.next && Unused(p.st, p.next)
    && (forall g :: g in p.st.inflight <==> g in st.inflight || next <= g < p.next)
    && (h in p.st.inflight ==> Queued(st, h) + Issued(h, next, p.next) == Queued(p.st, h) + Collected(p.out, h))
    && (h !in p.st.inflight ==> Queued(p.st, h) <= Queued(st, h) && Collected(p.out, h) == 0)
  }

  lemma RoundBalance(st: Store, poll: Poll, c: Setting, next: Handle, h: Handle)
    requires Unused(st, next)
    ensures Balanced(st, OneRound(st, poll, c, next), next, h)
    ensures |OneRound(st, poll, c, next).out| <= c.max
  {
    DrainBalance(st, c.max, c.visTimeout, h);
    var (st1, out1) := Drain(st, c.max, c.visTimeout);
    DrainLeavesUnused(st, c.max, c.visTimeout, next);
    if h >= next { UnusedIsNotQueued(st, next, h); }
    if |out1| < c.max && poll.Fetched? {
      TakeBalance(st1, poll.recs, c.max - |out1|, c, next, h);
      CollectedConcat(out1, Take(st1, poll.recs, c.max - |out1|, c, next).out, h);
    }
  }

  lemma DrainLeavesUnused(st: Store, room: nat, visTimeout: int, next: Handle)
    requires Unused(st, next)
    ensures Unused(Drain(st, room, visTimeout).0, next)
  {
    var st' := Drain(st, room, visTimeout).0;
    DrainBalance(st, room, visTimeout, next);
    forall h | h in st'.redeliver ensures h < next {
      DrainBalance(st, room, visTimeout, h);
      assert Queued(st', h) > 0;
      assert h in st.redeliver;
    }
  }

  /**
   Conservation: whatever a call pops and fetches, every live handle it found on the redeliver list or put in flight is
   afterwards on the list or among the collected messages, as many times as before; only handles whose message is gone
   disappear from the list, and those are never handed out. At most max messages are returned.
   */
  lemma {:induction false} ReceiveConserves(st: Store, polls: seq<Poll>, c: Setting, next: Handle, h: Handle)
    requires |polls| > 0 && Unused(st, next)
    ensures Balanced(st, ReceiveCall(st, polls, c, next), next, h)
    ensures |ReceiveCall(st, polls, c, next).out| <= c.max
    decreases |polls|
  {
    RoundBalance(st, polls[0], c, next, h);
    var round := OneRound(st, polls[0], c, next);
    if !(round.failed || |round.out| > 0 || |polls| == 1) {
      if h >= next { UnusedIsNotQueued(st, next, h); }
      if h >= round.next { UnusedIsNotQueued(round.st, round.next, h); }
      ReceiveConserves(round.st, polls[1..], c, round.next, h);
    }
  }

  // ---------------------------------------------------------------------------------------------------------------
  // Progress
  // ---------------------------------------------------------------------------------------------------------------

  predicate Deliverable(st: Store, h: Handle) {
    h in st.inflight && !GroupLocked(st, st.inflight[h].fields)
  }

  /** The first k handles on the list cannot be handed out, and the next one can. */
  predicate FirstDeliverable(st: Store, k: nat) {
    && k < |st.redeliver| && Deliverable(st, st.redeliver[k])
    && forall i :: 0 <= i < k ==> !Deliverable(st, st.redeliver[i])
  }

  /** A head that cannot be handed out is dropped or moved to the tail, and the list moves up by one. */
  lemma BlockedHeadMoves(st: Store, visTimeout: int, k: nat)
    requires k > 0 && FirstDeliverable(st, k)
    ensures
      var (st', msg) := RedeliverCall(st, visTimeout);
      msg == None && FirstDeliverable(st', k - 1) && st'.redeliver[k - 1] == st.redeliver[k]
  {
  }

  /** A fresh record that is refused its lock goes to the tail of the list and changes nothing before it. */
  lemma RefusedFreshKeepsFirst(st: Store, f: InFlight, visTimeout: int, next: Handle, k: nat)
    requires Unused(st, next) && FirstDeliverable(st, k) && FreshCall(st, next, f, visTimeout).1 == None
    ensures
      var st' := FreshCall(st, next, f, visTimeout).0;
      Unused(st', next + 1) && FirstDeliverable(st', k) && st'.redeliver[k] == st.redeliver[k]
  {
    var st' := FreshCall(st, next, f, visTimeout).0;
    assert st'.redeliver == st.redeliver + [next] && st'.locks == st.locks;
    forall i | 0 <= i <= k
      ensures st'.redeliver[i] == st.redeliver[i]
      ensures Deliverable(st', st.redeliver[i]) == Deliverable(st, st.redeliver[i])
    {
      assert st.redeliver[i] in st.redeliver && st.redeliver[i] != next;
    }
  }

  lemma {:induction false} TakingNothingKeepsFirst(
    st: Store, recs: seq<Record>, room: nat, c: Setting, next: Handle, k: nat)
    requires Unused(st, next) && FirstDeliverable(st, k) && Take(st, recs, room, c, next).out == []
    ensures
      var p := Take(st, recs, room, c, next);
      next <= p.next && Unused(p.st, p.next) && FirstDeliverable(p.st, k) && p.st.redeliver[k] == st.redeliver[k]
    decreases |recs|
  {
    if |recs| > 0 && room > 0 {
      if recs[0].topic !in c.topicToShardId {
        TakingNothingKeepsFirst(st, recs[1..], room, c, next, k);
      } else {
        var f := FieldsOf(c.topicToShardId[recs[0].topic], recs[0], c.fifo);
        var (st1, msg) := FreshCall(st, next, f, c.visTimeout);
        assert msg == None;
        RefusedFreshKeepsFirst(st, f, c.visTimeout, next, k);
        TakingNothingKeepsFirst(st1, recs[1..], room, c, next + 1, k);
      }
    }
  }

  /** What is handed out of fetched records is new. */
  lemma {:induction false} TakenAreFresh(st: Store, recs: seq<Record>, room: nat, c: Setting, next: Handle)
    ensures
      var p := Take(st, recs, room, c, next);
      next <= p.next && !p.failed && forall i :: 0 <= i < |p.out| ==> p.out[i].receiptHandle >= next
    decreases |recs|
  {
    if |recs| > 0 && room > 0 {
      if recs[0].topic !in c.topicToShardId {
        TakenAreFresh(st, recs[1..], room, c, next);
      } else {
        var f := FieldsOf(c.topicToShardId[recs[0].topic], recs[0], c.fifo);
        var (st1, msg) := FreshCall(st, next, f, c.visTimeout);
        TakenAreFresh(st1, recs[1..], if msg.None? then room else room - 1, c, next + 1);
      }
    }
  }

  /** A round whose first pop is refused: it hands out fresh messages, or nothing and moves the list up by one. */
  lemma BlockedRound(st: Store, poll: Poll, c: Setting, next: Handle, k: nat)
    requires c.max > 0 && k > 0 && Unused(st, next) && FirstDeliverable(st, k)
    ensures
      var p := OneRound(st, poll, c, next);
      && (p.failed <==> poll.Failed?) && (p.failed ==> p.out == [])
      && (forall i :: 0 <= i < |p.out| ==> p.out[i].receiptHandle >= next)
      && (p.out == [] ==> Unused(p.st, p.next) && FirstDeliverable(p.st, k - 1) && p.st.redeliver[k - 1] == st.redeliver[k])
  {
    BlockedHeadMoves(st, c.visTimeout, k);
    var st1 := RedeliverCall(st, c.visTimeout).0;
    assert Drain(st, c.max, c.visTimeout) == (st1, []);
    assert Unused(st1, next) by {
      assert forall h :: h in st1.redeliver ==> h in st.redeliver;
    }
    if poll.Fetched? {
      var taken := Take(st1, poll.recs, c.max, c, next);
      TakenAreFresh(st1, poll.recs, c.max, c, next);
      assert [] + taken.out == taken.out;
      if taken.out == [] {
        TakingNothingKeepsFirst(st1, poll.recs, c.max, c, next, k - 1);
      }
    }
  }

  /** A round whose head can be handed out hands it out first. */
  lemma OpenRound(st: Store, poll: Poll, c: Setting, next: Handle)
    requires c.max > 0 && FirstDeliverable(st, 0)
    ensures
      var p := OneRound(st, poll, c, next);
      |p.out| > 0 && p.out[0].receiptHandle == st.redeliver[0] && (p.failed ==> poll.Failed?)
  {
    var (st0, out0) := Drain(st, c.max, c.visTimeout);
    if poll.Fetched? && |out0| < c.max {
      TakenAreFresh(st0, poll.recs, c.max - |out0|, c, next);
    }
    var (st1, msg) := RedeliverCall(st, c.visTimeout);
    assert msg.Some? && msg.value.receiptHandle == st.redeliver[0];
    var (st2, rest) := Drain(st1, c.max - 1, c.visTimeout);
    assert Drain(st, c.max, c.visTimeout) == (st2, [msg.value] + rest);
  }

  /** The first k rounds hand nothing out and none of them fails. */
  predicate QuietRounds(st: Store, polls: seq<Poll>, c: Setting, next: Handle, k: nat)
    decreases k
  {
    k > 0 ==>
      && |polls| > 0
      && var p := OneRound(st, polls[0], c, next);
         p.out == [] && !p.failed && QuietRounds(p.st, polls[1..], c, p.next, k - 1)
  }

  /** The round after k quiet ones. */
  function RoundAfter(st: Store, polls: seq<Poll>, c: Setting, next: Handle, k: nat): Progress
    requires k < |polls|
    decreases k
  {
    var p := OneRound(st, polls[0], c, next);
    if k == 0 then p else RoundAfter(p.st, polls[1..], c, p.next, k - 1)
  }

  /**
   Progress, whatever is fetched: a call with a deliverable message behind k others on the list, more than k rounds, and
   no failing poll among the first k + 1, returns some message. Every round gets past one handle that cannot be handed
   out, and only one, because the loop stops popping at the first refusal.
   */
  lemma {:induction false} DeliverableMeansProgress(st: Store, polls: seq<Poll>, c: Setting, next: Handle, k: nat)
    requires c.max > 0 && Unused(st, next) && FirstDeliverable(st, k) && |polls| > k
    requires forall i :: 0 <= i <= k ==> !polls[i].Failed?
    ensures |Returned(ReceiveCall(st, polls, c, next))| > 0
    decreases k
  {
    if k == 0 {
      OpenRound(st, polls[0], c, next);
    } else {
      BlockedRound(st, polls[0], c, next, k);
      var p := OneRound(st, polls[0], c, next);
      if p.out == [] {
        DeliverableMeansProgress(p.st, polls[1..], c, p.next, k - 1);
      }
    }
  }

  /** The deliverable message behind k others is returned first if k rounds are quiet and the next does not fail. */
  lemma {:induction false} FirstReturnedIff(st: Store, polls: seq<Poll>, c: Setting, next: Handle, k: nat)
    requires |polls| > 0 && c.max > 0 && Unused(st, next) && FirstDeliverable(st, k)
    ensures
      var out := Returned(ReceiveCall(st, polls, c, next));
      (|out| > 0 && out[0].receiptHandle == st.redeliver[k])
      <==> |polls| > k && QuietRounds(st, polls, c, next, k) && !RoundAfter(st, polls, c, next, k).failed
    decreases k
  {
    if k == 0 {
      OpenRound(st, polls[0], c, next);
    } else {
      BlockedRound(st, polls[0], c, next, k);
      var p := OneRound(st, polls[0], c, next);
      assert st.redeliver[k] < next;
      if p.out == [] && !p.failed && |polls| > 1 {
        FirstReturnedIff(p.st, polls[1..], c, p.next, k - 1);
      }
    }
  }

  // ---------------------------------------------------------------------------------------------------------------
  // What a call returns first, told by what it finds and what it polls
  // ---------------------------------------------------------------------------------------------------------------

  /** The record is of an unknown topic, or of a group that is locked. */
  predicate CannotBeTaken(st: Store, c: Setting, rec: Record) {
    rec.topic in c.topicToShardId ==> GroupLocked(st, FieldsOf(c.topicToShardId[rec.topic], rec, c.fifo))
  }

  predicate NoneCanBeTaken(st: Store, c: Setting, recs: seq<Record>) {
    forall i :: 0 <= i < |recs| ==> CannotBeTaken(st, c, recs[i])
  }

  /** The poll does not fail, and nothing it fetches can be handed out. */
  predicate NothingToTake(st: Store, c: Setting, poll: Poll) {
    !poll.Failed? && (poll.Fetched? ==> NoneCanBeTaken(st, c, poll.recs))
  }

  /** The handles k to k + n - 1 of the list can be handed out one after the other. */
  predicate OpenRun(st: Store, k: nat, n: nat) {
    && k + n <= |st.redeliver|
    && (forall i :: k <= i < k + n ==> Deliverable(st, st.redeliver[i]))
    && (forall i, j :: k <= i < j < k + n && st.inflight[st.redeliver[i]].fields.group != "" ==>
          st.inflight[st.redeliver[i]].fields.group != st.inflight[st.redeliver[j]].fields.group)
  }

  predicate SameMessage(st: Store, st': Store, h: Handle) {
    (h in st'.inflight <==> h in st.inflight) && (h in st.inflight ==> st'.inflight[h] == st.inflight[h])
  }

  /** From st to st' the list has moved up by n, and behind what was on it nothing can be handed out. */
  ghost predicate MovedUp(st: Store, st': Store, n: nat) {
    && n <= |st.redeliver| <= |st'.redeliver| + n && st'.locks == st.locks
    && (forall i :: n <= i < |st.redeliver| ==>
          st'.redeliver[i - n] == st.redeliver[i] && SameMessage(st, st', st.redeliver[i]))
    && (forall i :: |st.redeliver| - n <= i < |st'.redeliver| ==> !Deliverable(st', st'.redeliver[i]))
  }

  lemma RefusedMovesUp(st: Store, visTimeout: int, k: nat)
    requires k > 0 && FirstDeliverable(st, k)
    ensures MovedUp(st, RedeliverCall(st, visTimeout).0, 1)
  {
  }

  lemma RefusedFreshMovesUp(st: Store, f: InFlight, visTimeout: int, next: Handle)
    requires Unused(st, next) && GroupLocked(st, f)
    ensures var st' := FreshCall(st, next, f, visTimeout).0; MovedUp(st, st', 0) && Unused(st', next + 1)
  {
    assert FreshCall(st, next, f, visTimeout).0.redeliver == st.redeliver + [next];
    assert forall i :: 0 <= i < |st.redeliver| ==> st.redeliver[i] in st.redeliver;
  }

  lemma MovesAdd(a: Store, b: Store, c: Store, n: nat)
    requires MovedUp(a, b, n) && MovedUp(b, c, 0)
    ensures MovedUp(a, c, n)
  {
    forall i | |a.redeliver| - n <= i < |c.redeliver| ensures !Deliverable(c, c.redeliver[i]) {
      if i < |b.redeliver| {
        assert SameMessage(b, c, b.redeliver[i]) && !Deliverable(b, b.redeliver[i]);
      }
    }
    forall i | n <= i < |a.redeliver|
      ensures c.redeliver[i - n] == a.redeliver[i] && SameMessage(a, c, a.redeliver[i])
    {
      assert c.redeliver[i - n] == b.redeliver[i - n];
    }
  }

  /** Nothing of what was fetched is handed out if and only if none of it can be, and then it goes to the tail. */
  lemma {:induction false} TakesNothingIff(st: Store, recs: seq<Record>, room: nat, c: Setting, next: Handle)
    requires Unused(st, next) && room > 0
    ensures
      var p := Take(st, recs, room, c, next);
      && (p.out == [] <==> NoneCanBeTaken(st, c, recs))
      && (p.out == [] ==> MovedUp(st, p.st, 0))
    decreases |recs|
  {
    if |recs| == 0 {
    } else if recs[0].topic !in c.topicToShardId {
      TakesNothingIff(st, recs[1..], room, c, next);
      InHeadOrTail(st, c, recs);
    } else {
      var f := FieldsOf(c.topicToShardId[recs[0].topic], recs[0], c.fifo);
      if GroupLocked(st, f) {
        var st1 := FreshCall(st, next, f, c.visTimeout).0;
        RefusedFreshMovesUp(st, f, c.visTimeout, next);
        TakesNothingIff(st1, recs[1..], room, c, next + 1);
        InHeadOrTail(st, c, recs);
        SameLocksTakeAlike(st, st1, c, recs[1..]);
        var rest := Take(st1, recs[1..], room, c, next + 1);
        assert Take(st, recs, room, c, next) == rest.(out := [] + rest.out);
        if rest.out == [] { MovesAdd(st, st1, rest.st, 0); }
      }
    }
  }

  lemma InHeadOrTail(st: Store, c: Setting, recs: seq<Record>)
    requires |recs| > 0
    ensures NoneCanBeTaken(st, c, recs) <==> CannotBeTaken(st, c, recs[0]) && NoneCanBeTaken(st, c, recs[1..])
  {
    assert forall i :: 1 <= i < |recs| ==> recs[i] == recs[1..][i - 1];
  }

  lemma SameLocksTakeAlike(st: Store, st': Store, c: Setting, recs: seq<Record>)
    requires st'.locks == st.locks
    ensures NoneCanBeTaken(st', c, recs) == NoneCanBeTaken(st, c, recs)
  {
    assert forall i :: 0 <= i < |recs| ==> CannotBeTaken(st', c, recs[i]) == CannotBeTaken(st, c, recs[i]);
  }

  /** A round whose first pop is refused is quiet if and only if its poll brings nothing that can be handed out. */
  lemma BlockedRoundIff(st: Store, poll: Poll, c: Setting, next: Handle, k: nat)
    requires c.max > 0 && k > 0 && Unused(st, next) && FirstDeliverable(st, k)
    ensures
      var p := OneRound(st, poll, c, next);
      && (p.out == [] && !p.failed <==> NothingToTake(st, c, poll))
      && (p.out == [] ==> Unused(p.st, p.next) && FirstDeliverable(p.st, k - 1) && MovedUp(st, p.st, 1))
  {
    BlockedRound(st, poll, c, next, k);
    BlockedHeadMoves(st, c.visTimeout, k);
    RefusedMovesUp(st, c.visTimeout, k);
    var st1 := RedeliverCall(st, c.visTimeout).0;
    assert Drain(st, c.max, c.visTimeout) == (st1, []);
    assert Unused(st1, next) by {
      assert forall h :: h in st1.redeliver ==> h in st.redeliver;
    }
    if poll.Fetched? {
      var taken := Take(st1, poll.recs, c.max, c, next);
      assert [] + taken.out == taken.out;
      TakesNothingIff(st1, poll.recs, c.max, c, next);
      SameLocksTakeAlike(st, st1, c, poll.recs);
      if taken.out == [] { MovesAdd(st, st1, taken.st, 1); }
    }
  }

  lemma {:induction false} QuietIff(st: Store, polls: seq<Poll>, c: Setting, next: Handle, k: nat)
    requires c.max > 0 && Unused(st, next) && FirstDeliverable(st, k)
    ensures QuietRounds(st, polls, c, next, k) <==> |polls| >= k && NothingIn(st, c, polls, k)
    decreases k
  {
    if k > 0 && |polls| > 0 {
      BlockedRoundIff(st, polls[0], c, next, k);
      var p := OneRound(st, polls[0], c, next);
      if p.out == [] && !p.failed {
        QuietIff(p.st, polls[1..], c, p.next, k - 1);
        NothingInRest(st, p.st, c, polls, k);
      }
    }
  }

  /** None of the first k polls fails or fetches what can be handed out. */
  predicate NothingIn(st: Store, c: Setting, polls: seq<Poll>, k: nat) {
    forall i :: 0 <= i < k && i < |polls| ==> NothingToTake(st, c, polls[i])
  }

  lemma NothingInRest(st: Store, st': Store, c: Setting, polls: seq<Poll>, k: nat)
    requires k > 0 && |polls| > 0 && st'.locks == st.locks && NothingToTake(st, c, polls[0])
    ensures NothingIn(st', c, polls[1..], k - 1) <==> NothingIn(st, c, polls, k)
  {
    forall i | 1 <= i < |polls| ensures NothingToTake(st', c, polls[1..][i - 1]) == NothingToTake(st, c, polls[i]) {
      if polls[i].Fetched? { SameLocksTakeAlike(st, st', c, polls[i].recs); }
    }
    if NothingIn(st', c, polls[1..], k - 1) {
      forall i | 0 <= i < k && i < |polls| ensures NothingToTake(st, c, polls[i]) {
        assert i > 0 ==> NothingToTake(st', c, polls[1..][i - 1]);
      }
    }
  }

  /** What is left to hand out once the head is handed out under its lock. */
  lemma OpenRunRest(st: Store, visTimeout: int, n: nat)
    requires n > 0 && |st.redeliver| > 0 && Deliverable(st, st.redeliver[0])
    ensures OpenRun(st, 0, n) <==> OpenRun(RedeliverCall(st, visTimeout).0, 0, n - 1)
  {
    var st' := RedeliverCall(st, visTimeout).0;
    assert st'.redeliver == st.redeliver[1..];
    forall i | 1 <= i < |st.redeliver| ensures st'.redeliver[i - 1] == st.redeliver[i] {}
    if OpenRun(st', 0, n - 1) {
      forall i | 0 <= i < n ensures Deliverable(st, st.redeliver[i]) {
        assert i > 0 ==> Deliverable(st', st'.redeliver[i - 1]);
      }
      forall i, j | 0 <= i < j < n && st.inflight[st.redeliver[i]].fields.group != ""
        ensures st.inflight[st.redeliver[i]].fields.group != st.inflight[st.redeliver[j]].fields.group
      {
        assert Deliverable(st', st'.redeliver[j - 1]);
        assert i > 0 ==> Deliverable(st', st'.redeliver[i - 1]);
      }
    }
  }

  /** The list fills the call if and only if its first handles can be handed out one after the other. */
  lemma {:induction false} DrainFillsIff(st: Store, room: nat, visTimeout: int)
    ensures |Drain(st, room, visTimeout).1| == room <==> OpenRun(st, 0, room)
    decreases room
  {
    if room > 0 {
      var (st1, msg) := RedeliverCall(st, visTimeout);
      assert msg.Some? <==> |st.redeliver| > 0 && Deliverable(st, st.redeliver[0]);
      if msg.Some? {
        OpenRunRest(st, visTimeout, room);
        DrainFillsIff(st1, room - 1, visTimeout);
      }
    }
  }

  lemma OpenRunMoves(st: Store, st': Store, k: nat, n: nat)
    requires MovedUp(st, st', 1) && k > 0 && n > 0
    ensures OpenRun(st', k - 1, n) <==> OpenRun(st, k, n)
  {
    if k + n <= |st.redeliver| {
      if OpenRun(st', k - 1, n) { OpenRunBack(st, st', k, n); }
      if OpenRun(st, k, n) { OpenRunOn(st, st', k, n); }
    } else if k + n - 1 <= |st'.redeliver| {
      assert !Deliverable(st', st'.redeliver[k + n - 2]);
    }
  }

  lemma OpenRunBack(st: Store, st': Store, k: nat, n: nat)
    requires MovedUp(st, st', 1) && k > 0 && k + n <= |st.redeliver| && OpenRun(st', k - 1, n)
    ensures OpenRun(st, k, n)
  {
    forall i | k <= i < k + n
      ensures st'.redeliver[i - 1] == st.redeliver[i] && SameMessage(st, st', st.redeliver[i])
      ensures Deliverable(st, st.redeliver[i])
    {
      assert Deliverable(st', st'.redeliver[i - 1]);
    }
  }

  lemma OpenRunOn(st: Store, st': Store, k: nat, n: nat)
    requires MovedUp(st, st', 1) && k > 0 && OpenRun(st, k, n)
    ensures OpenRun(st', k - 1, n)
  {
    forall i | k - 1 <= i < k - 1 + n
      ensures st'.redeliver[i] == st.redeliver[i + 1] && SameMessage(st, st', st.redeliver[i + 1])
      ensures Deliverable(st', st'.redeliver[i])
    {
      assert st'.redeliver[i + 1 - 1] == st.redeliver[i + 1];
      assert Deliverable(st, st.redeliver[i + 1]);
    }
  }

  lemma {:induction false} LastRoundFailsIff(st: Store, polls: seq<Poll>, c: Setting, next: Handle, k: nat)
    requires c.max > 0 && Unused(st, next) && FirstDeliverable(st, k) && k < |polls| && QuietRounds(st, polls, c, next, k)
    ensures RoundAfter(st, polls, c, next, k).failed <==> polls[k].Failed? && !OpenRun(st, k, c.max)
    decreases k
  {
    if k == 0 {
      DrainBalance(st, c.max, c.visTimeout, next);
      DrainFillsIff(st, c.max, c.visTimeout);
      var (st1, out1) := Drain(st, c.max, c.visTimeout);
      if |out1| < c.max && polls[0].Fetched? { TakenAreFresh(st1, polls[0].recs, c.max - |out1|, c, next); }
    } else {
      BlockedRoundIff(st, polls[0], c, next, k);
      var p := OneRound(st, polls[0], c, next);
      LastRoundFailsIff(p.st, polls[1..], c, p.next, k - 1);
      OpenRunMoves(st, p.st, k, c.max);
    }
  }

  /**
   Exactly when the deliverable message behind k others is the first one returned, told by the state the call finds and by
   what it polls. There are more than k polls; none of the first k fails, or fetches anything but records of unknown topics
   or of locked groups; and the next one does not fail either, unless the call is full before it, because the list goes on
   with as many messages as it may return, all free and no two of one group.
   */
  lemma BlockedHeadsCostRounds(st: Store, polls: seq<Poll>, c: Setting, next: Handle, k: nat)
    requires |polls| > 0 && c.max > 0 && Unused(st, next) && FirstDeliverable(st, k)
    ensures
      var out := Returned(ReceiveCall(st, polls, c, next));
      (|out| > 0 && out[0].receiptHandle == st.redeliver[k])
      <==> |polls| > k && NothingIn(st, c, polls, k) && (polls[k].Failed? ==> OpenRun(st, k, c.max))
  {
    FirstReturnedIff(st, polls, c, next, k);
    QuietIff(st, polls, c, next, k);
    if |polls| > k && QuietRounds(st, polls, c, next, k) {
      LastRoundFailsIff(st, polls, c, next, k);
    }
  }

  // ---------------------------------------------------------------------------------------------------------------
  // One message per group
  // ---------------------------------------------------------------------------------------------------------------

  function GroupOf(st: Store, m: Message): string {
    if m.receiptHandle in st.inflight then st.inflight[m.receiptHandle].fields.group else ""
  }

  /** From st to st' the messages of out were handed out, each grouped one under a lock of its own that was free before. */
  ghost predicate OnePerGroup(st: Store, st': Store, out: seq<Message>) {
    && (forall g :: g in st.locks ==> g in st'.locks)
    && (forall h :: h in st.inflight ==> h in st'.inflight && st'.inflight[h].fields.group == st.inflight[h].fields.group)
    && (forall i :: 0 <= i < |out| ==>
          && out[i].receiptHandle in st'.inflight
          && (GroupOf(st', out[i]) != "" ==> GroupOf(st', out[i]) !in st.locks && GroupOf(st', out[i]) in st'.locks))
    && (forall i, j :: 0 <= i < j < |out| && GroupOf(st', out[i]) != "" ==> GroupOf(st', out[i]) != GroupOf(st', out[j]))
  }

  lemma OnePerGroupConcat(a: Store, b: Store, c: Store, first: seq<Message>, second: seq<Message>)
    requires OnePerGroup(a, b, first) && OnePerGroup(b, c, second)
    ensures OnePerGroup(a, c, first + second)
  {
    var out := first + second;
    forall i | 0 <= i < |first| ensures GroupOf(c, out[i]) == GroupOf(b, first[i]) && out[i].receiptHandle in c.inflight {
      assert out[i] == first[i];
    }
    forall i | |first| <= i < |out| ensures out[i] == second[i - |first|] {}
  }

  lemma RedeliverOnePerGroup(st: Store, visTimeout: int)
    ensures var (st', msg) := RedeliverCall(st, visTimeout); OnePerGroup(st, st', One(msg))
  {
  }

  lemma FreshOnePerGroup(st: Store, next: Handle, f: InFlight, visTimeout: int)
    requires next !in st.inflight
    ensures var (st', msg) := FreshCall(st, next, f, visTimeout); OnePerGroup(st, st', One(msg))
  {
  }

  lemma {:induction false} DrainOnePerGroup(st: Store, room: nat, visTimeout: int)
    ensures var (st', out) := Drain(st, room, visTimeout); OnePerGroup(st, st', out)
    decreases room
  {
    if room > 0 {
      RedeliverOnePerGroup(st, visTimeout);
      var (st1, msg) := RedeliverCall(st, visTimeout);
      if msg.Some? {
        DrainOnePerGroup(st1, room - 1, visTimeout);
        var (st2, rest) := Drain(st1, room - 1, visTimeout);
        OnePerGroupConcat(st, st1, st2, One(msg), rest);
      }
    }
  }

  lemma {:induction false} TakeOnePerGroup(st: Store, recs: seq<Record>, room: nat, c: Setting, next: Handle)
    requires Unused(st, next)
    ensures var p := Take(st, recs, room, c, next); OnePerGroup(st, p.st, p.out)
    decreases |recs|
  {
    if |recs| > 0 && room > 0 {
      if recs[0].topic !in c.topicToShardId {
        TakeOnePerGroup(st, recs[1..], room, c, next);
      } else {
        var f := FieldsOf(c.topicToShardId[recs[0].topic], recs[0], c.fifo);
        var (st1, msg) := FreshCall(st, next, f, c.visTimeout);
        FreshOnePerGroup(st, next, f, c.visTimeout);
        FreshBalance(st, f, c.visTimeout, next, next);
        var room1 := if msg.None? then room else room - 1;
        TakeOnePerGroup(st1, recs[1..], room1, c, next + 1);
        var rest := Take(st1, recs[1..], room1, c, next + 1);
        OnePerGroupConcat(st, st1, rest.st, One(msg), rest.out);
      }
    }
  }

  /** A round drains the list and then, if there is room and the poll brought records, takes fresh ones. */
  lemma RoundParts(st: Store, poll: Poll, c: Setting, next: Handle)
    ensures
      var p, (st1, out1) := OneRound(st, poll, c, next), Drain(st, c.max, c.visTimeout);
      if |out1| < c.max && poll.Fetched? then
        var taken := Take(st1, poll.recs, c.max - |out1|, c, next);
        p == taken.(out := out1 + taken.out)
      else p == Progress(st1, out1, next, |out1| < c.max && poll.Failed?)
  {
  }

  lemma FetchedOnePerGroup(
    st: Store, st1: Store, out1: seq<Message>, recs: seq<Record>, room: nat, c: Setting, next: Handle)
    requires OnePerGroup(st, st1, out1) && Unused(st1, next)
    ensures var taken := Take(st1, recs, room, c, next); OnePerGroup(st, taken.st, out1 + taken.out)
  {
    TakeOnePerGroup(st1, recs, room, c, next);
    var taken := Take(st1, recs, room, c, next);
    OnePerGroupConcat(st, st1, taken.st, out1, taken.out);
  }

  lemma RoundOnePerGroup(st: Store, poll: Poll, c: Setting, next: Handle)
    requires Unused(st, next)
    ensures var p := OneRound(st, poll, c, next); OnePerGroup(st, p.st, p.out)
  {
    RoundParts(st, poll, c, next);
    var (st1, out1) := Drain(st, c.max, c.visTimeout);
    DrainOnePerGroup(st, c.max, c.visTimeout);
    if |out1| < c.max && poll.Fetched? {
      DrainLeavesUnused(st, c.max, c.visTimeout, next);
      FetchedOnePerGroup(st, st1, out1, poll.recs, c.max - |out1|, c, next);
    }
  }

  /** One call returns at most one message of a group, and none of a group that was locked when it began. */
  lemma {:induction false} ReceiveOnePerGroup(st: Store, polls: seq<Poll>, c: Setting, next: Handle)
    requires |polls| > 0 && Unused(st, next)
    ensures var p := ReceiveCall(st, polls, c, next); OnePerGroup(st, p.st, p.out)
    decreases |polls|
  {
    RoundOnePerGroup(st, polls[0], c, next);
    var round := OneRound(st, polls[0], c, next);
    if !(round.failed || |round.out| > 0 || |polls| == 1) {
      RoundBalance(st, polls[0], c, next, next);
      ReceiveOnePerGroup(round.st, polls[1..], c, round.next);
      var rest := ReceiveCall(round.st, polls[1..], c, round.next);
      OnePerGroupConcat(st, round.st, rest.st, [], rest.out);
      assert [] + rest.out == rest.out;
    }
  }
}
