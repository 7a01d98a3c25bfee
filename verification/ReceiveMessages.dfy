/** ReceiveMessage: the long-poll loop over the redeliver list and the fetched records, when nothing interferes. */
module ReceiveMessages {
  import opened Store
  import opened RedisQueue
  import opened Calls

  /** One poll of the Kafka consumer. A poll that runs into its own time limit is not an error. */
  datatype Poll = Fetched(recs: seq<Record>) | TimedOut | Failed

  /** What stays the same during one call: the queue's kind, the shard behind every topic, and the timeouts. */
  datatype Setting = Setting(fifo: bool, topicToShardId: map<string, string>, visTimeout: int, max: nat)

  /** The state a call reaches, the messages it has collected, the next unused handle, and whether its last poll failed. */
  datatype Progress = Progress(st: Store, out: seq<Message>, next: Handle, failed: bool)

  const MAX_MESSAGES := 10

  function Cap(requested: int): (max: nat)
    ensures max == if 1 <= requested <= 10 then requested else 10
  {
    if requested <= 0 || requested > MAX_MESSAGES then MAX_MESSAGES else requested
  }

  /** handOutRedeliverable until it hands out nothing or there is no room left. */
  function Drain(st: Store, room: nat, visTimeout: int): (Store, seq<Message>)
    decreases room
  {
    if room == 0 then (st, [])
    else
      var (st1, msg) := RedeliverCall(st, visTimeout);
      if msg.None? then (st1, [])
      else
        var (st2, rest) := Drain(st1, room - 1, visTimeout);
        (st2, [msg.value] + rest)
  }

  /** handOutFresh on the fetched records, skipping unknown topics, until there is no room left. */
  function Take(st: Store, recs: seq<Record>, room: nat, c: Setting, next: Handle): Progress
    decreases |recs|
  {
    if |recs| == 0 || room == 0 then Progress(st, [], next, false)
    else if recs[0].topic !in c.topicToShardId then Take(st, recs[1..], room, c, next)
    else
      var f := FieldsOf(c.topicToShardId[recs[0].topic], recs[0], c.fifo);
      var (st1, msg) := FreshCall(st, next, f, c.visTimeout);
      var rest := Take(st1, recs[1..], if msg.None? then room else room - 1, c, next + 1);
      rest.(out := (if msg.None? then [] else [msg.value]) + rest.out)
  }

  function OneRound(st: Store, poll: Poll, c: Setting, next: Handle): Progress {
    var (st1, out1) := Drain(st, c.max, c.visTimeout);
    if |out1| >= c.max then Progress(st1, out1, next, false)
    else
      match poll
      case Failed => Progress(st1, out1, next, true)
      case TimedOut => Progress(st1, out1, next, false)
      case Fetched(recs) =>
        var taken := Take(st1, recs, c.max - |out1|, c, next);
        taken.(out := out1 + taken.out)
  }

  /** The whole call. There is one poll for every round the wait time leaves room for. */
  function ReceiveCall(st: Store, polls: seq<Poll>, c: Setting, next: Handle): Progress
    requires |polls| > 0
    decreases |polls|
  {
    var round := OneRound(st, polls[0], c, next);
    if round.failed || |round.out| > 0 || |polls| == 1 then round
    else ReceiveCall(round.st, polls[1..], c, round.next)
  }

  /** After a failed poll the caller gets an error and none of the messages, although they are in flight by then. */
  function Returned(p: Progress): seq<Message> {
    if p.failed then [] else p.out
  }

  method ReceiveMessage(q: Queue, polls: seq<Poll>, fifo: bool, topicToShardId: map<string, string>,
      requested: int, timeoutOverride: int, queueTimeout: int, uuid: Handle)
    returns (out: seq<Message>, next: Handle, failed: bool)
    requires |polls| > 0
    modifies q
    ensures
      var c := Setting(fifo, topicToShardId, if timeoutOverride <= 0 then queueTimeout else timeoutOverride, Cap(requested));
      var p := ReceiveCall(old(q.View()), polls, c, uuid);
      q.View() == p.st && next == p.next && failed == p.failed && out == Returned(p)
  {
    var visTimeout := timeoutOverride;
    if visTimeout <= 0 {
      visTimeout := queueTimeout;
    }
    var max := requested;
    if max <= 0 || max > MAX_MESSAGES {
      max := MAX_MESSAGES;
    }
    var c := Setting(fifo, topicToShardId, visTimeout, max);
    ghost var all := ReceiveCall(q.View(), polls, c, uuid);
    out, next, failed := [], uuid, false;
    var round := 0;
    assert polls[0..] == polls;
    while true
      invariant 0 <= round < |polls| && out == [] && !failed
      invariant ReceiveCall(q.View(), polls[round..], c, next) == all
      decreases |polls| - round
    {
      assert polls[round..][1..] == polls[round + 1..];
      out, next, failed := ReceiveRound(q, polls[round], c, next);
      if failed {
        return [], next, failed;
      }
      if |out| > 0 || round + 1 == |polls| {
        return;
      }
      round := round + 1;
    }
  }

  /** The body of the loop. */
  method ReceiveRound(q: Queue, poll: Poll, c: Setting, uuid: Handle)
    returns (out: seq<Message>, next: Handle, failed: bool)
    modifies q
    ensures Progress(q.View(), out, next, failed) == OneRound(old(q.View()), poll, c, uuid)
  {
    next, failed := uuid, false;
    out := DrainRedeliverable(q, c);
    if |out| >= c.max {
      return;
    }
    match poll {
      case Failed => failed := true;
      case TimedOut =>
      case Fetched(recs) =>
        var taken;
        taken, next := TakeFresh(q, recs, c.max - |out|, c, next);
        out := out + taken;
    }
  }

  method DrainRedeliverable(q: Queue, c: Setting) returns (out: seq<Message>)
    modifies q
    ensures (q.View(), out) == Drain(old(q.View()), c.max, c.visTimeout)
  {
    out := [];
    ghost var all := Drain(q.View(), c.max, c.visTimeout);
    assert [] + all.1 == all.1;
    while |out| < c.max
      invariant |out| <= c.max
      invariant var rest := Drain(q.View(), c.max - |out|, c.visTimeout); (rest.0, out + rest.1) == all
    {
      ghost var before := Drain(q.View(), c.max - |out|, c.visTimeout).1;
      var msg := HandOutRedeliverable(q, c.visTimeout);
      if msg.None? {
        assert out + [] == out;
        return;
      }
      assert out + before == out + [msg.value] + before[1..];
      out := out + [msg.value];
    }
    assert out + [] == out;
  }

  /** What is left of the loop over the records, once some messages were collected. */
  function Then(out: seq<Message>, rest: Progress): Progress {
    rest.(out := out + rest.out)
  }

  lemma TakeKnown(st: Store, recs: seq<Record>, room: nat, c: Setting, next: Handle, out: seq<Message>)
    requires |recs| > 0 && room > 0 && recs[0].topic in c.topicToShardId
    ensures
      var (st1, msg) := FreshCall(st, next, FieldsOf(c.topicToShardId[recs[0].topic], recs[0], c.fifo), c.visTimeout);
      Then(out, Take(st, recs, room, c, next)) ==
        if msg.None? then Then(out, Take(st1, recs[1..], room, c, next + 1))
        else Then(out + [msg.value], Take(st1, recs[1..], room - 1, c, next + 1))
  {
    var (st1, msg) := FreshCall(st, next, FieldsOf(c.topicToShardId[recs[0].topic], recs[0], c.fifo), c.visTimeout);
    if msg.None? {
      assert [] + Take(st1, recs[1..], room, c, next + 1).out == Take(st1, recs[1..], room, c, next + 1).out;
    } else {
      var rest := Take(st1, recs[1..], room - 1, c, next + 1).out;
      assert out + ([msg.value] + rest) == out + [msg.value] + rest;
    }
  }

  method TakeFresh(q: Queue, recs: seq<Record>, room: nat, c: Setting, uuid: Handle)
    returns (out: seq<Message>, next: Handle)
    modifies q
    ensures Progress(q.View(), out, next, false) == Take(old(q.View()), recs, room, c, uuid)
  {
    out, next := [], uuid;
    ghost var all := Take(q.View(), recs, room, c, uuid);
    assert recs[0..] == recs && [] + all.out == all.out;
    for i := 0 to |recs|
      invariant |out| <= room
      invariant Then(out, Take(q.View(), recs[i..], room - |out|, c, next)) == all
    {
      if |out| >= room {
        assert out + [] == out;
        return;
      }
      assert recs[i..][1..] == recs[i + 1..];
      if recs[i].topic in c.topicToShardId {
        TakeKnown(q.View(), recs[i..], room - |out|, c, next, out);
        var msg := HandOutFresh(q, c.topicToShardId[recs[i].topic], recs[i], c.fifo, next, c.visTimeout);
        next := next + 1;
        if msg.Some? {
          out := out + [msg.value];
        }
      }
    }
    assert out + [] == out;
  }
}
