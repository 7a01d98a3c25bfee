/** SendMessage: which topic and partition a message is produced to, and what that means for one FIFO group. */
module Sending {
  import opened Options
  import opened Murmur
  import opened Topology
  import opened Router
  import opened ShardTree
  import opened ShardInvariants
  import opened ShardRuns

  const MAX_MESSAGE_BODY_BYTES := 256 * 1024

  type DedupKey = (Key, string)

  datatype Meta = Meta(fifo: bool, partitionsPerShard: int)

  /** One partition of one topic. */
  datatype Place = Place(topic: string, partition: nat)

  datatype Record = Record(key: Option<Key>, body: string)

  /** The message plane as senders see it; an empty group or deduplication ID is one that was not given. */
  datatype Bus = Bus(
    meta: Option<Meta>, shardMap: Option<seq<Shard>>, claimed: set<DedupKey>, logs: map<Place, seq<Record>>)

  datatype Message = Message(body: string, group: Key, dedupId: string)

  datatype Reply =
    | TooLarge
    | QueueNotFound
    | GroupRequired
    | Duplicate(id: string)
    | Unroutable(why: RouteResult)
    | ProduceFailed
    | Sent(offset: nat)

  function LogAt(b: Bus, p: Place): seq<Record> {
    if p in b.logs then b.logs[p] else []
  }

  /** A group is routed by its ID, a message without one by a random key. */
  function RoutingKey(m: Message, random: Key): Key {
    if m.group == [] then random else m.group
  }

  function Produce(b: Bus, fifo: bool, partitions: int, m: Message, random: Key, produceOk: bool): (Bus, Reply) {
    match Route(b.shardMap, RoutingKey(m, random))
    case Routed(shard) =>
      var p := Place(shard.topic, PartitionWithinShard(RoutingKey(m, random), partitions));
      var record := Record(if fifo then Some(m.group) else None, m.body);
      if !produceOk then (b, ProduceFailed)
      else (b.(logs := b.logs[p := LogAt(b, p) + [record]]), Sent(|LogAt(b, p)|))
    case why => (b, Unroutable(why))
  }

  /** One call of SendMessage. */
  function SendOp(b: Bus, m: Message, random: Key, produceOk: bool): (Bus, Reply) {
    if |m.body| > MAX_MESSAGE_BODY_BYTES then (b, TooLarge)
    else if b.meta.None? then (b, QueueNotFound)
    else
      var meta := b.meta.value;
      if !meta.fifo then Produce(b, false, meta.partitionsPerShard, m, random, produceOk)
      else if m.group == [] then (b, GroupRequired)
      else if m.dedupId != "" && (m.group, m.dedupId) in b.claimed then (b, Duplicate(m.dedupId))
      else
        var b' := if m.dedupId == "" then b else b.(claimed := b.claimed + {(m.group, m.dedupId)});
        Produce(b', true, meta.partitionsPerShard, m, random, produceOk)
  }

  class SendMessageService {
    var meta: Option<Meta>
    var shardMap: Option<seq<Shard>>
    var claimed: set<DedupKey>
    var logs: map<Place, seq<Record>>

    function View(): Bus
      reads this
    {
      Bus(meta, shardMap, claimed, logs)
    }

    method TryDedup(group: Key, dedupId: string) returns (isFirst: bool)
      modifies this`claimed
      ensures isFirst <==> (group, dedupId) !in old(claimed)
      ensures claimed == old(claimed) + {(group, dedupId)}
    {
      isFirst := (group, dedupId) !in claimed;
      claimed := claimed + {(group, dedupId)};
    }

    method SendMessage(m: Message, random: Key, produceOk: bool) returns (reply: Reply)
      modifies this
      ensures (View(), reply) == SendOp(old(View()), m, random, produceOk)
    {
      if |m.body| > MAX_MESSAGE_BODY_BYTES {
        return TooLarge;
      }
      if meta.None? {
        return QueueNotFound;
      }
      if meta.value.fifo {
        if m.group == [] {
          return GroupRequired;
        }
        if m.dedupId != "" {
          var isFirst := TryDedup(m.group, m.dedupId);
          if !isFirst {
            assert claimed == old(claimed);
            return Duplicate(m.dedupId);
          }
        }
      }
      var routingKey := m.group;
      if routingKey == [] {
        routingKey := random;
      }
      var route := RouteForSend(shardMap, routingKey);
      if !route.Routed? {
        return Unroutable(route);
      }
      var place := Place(route.shard.topic, PartitionWithinShard(routingKey, meta.value.partitionsPerShard));
      if !produceOk {
        return ProduceFailed;
      }
      var log := if place in logs then logs[place] else [];
      logs := logs[place := log + [Record(if meta.value.fifo then Some(m.group) else None, m.body)]];
      return Sent(|log|);
    }
  }

  // ---------------------------------------------------------------------------------------------------------------
  // Runs
  // ---------------------------------------------------------------------------------------------------------------

  datatype Event =
    | Send(m: Message, random: Key, produceOk: bool)
    | Forget(claim: DedupKey)           // a deduplication window ends
    | Reshard(shards: seq<Shard>)       // the operator publishes a map

  function After(b: Bus, e: Event): Bus {
    match e
    case Send(m, random, produceOk) => SendOp(b, m, random, produceOk).0
    case Forget(claim) => b.(claimed := b.claimed - {claim})
    case Reshard(shards) => b.(shardMap := Some(shards))
  }

  function Run(b: Bus, events: seq<Event>): Bus {
    if |events| == 0 then b else After(Run(b, events[..|events| - 1]), events[|events| - 1])
  }

  /** The body an event adds to what group g has sent, if it does. */
  function Adds(b: Bus, e: Event, g: Key): seq<string> {
    if e.Send? && e.m.group == g && SendOp(b, e.m, e.random, e.produceOk).1.Sent? then [e.m.body] else []
  }

  /** What group g sent over a run, in the order of the sends. */
  function SentBy(b: Bus, events: seq<Event>, g: Key): seq<string> {
    if |events| == 0 then []
    else
      var before := events[..|events| - 1];
      SentBy(b, before, g) + Adds(Run(b, before), events[|events| - 1], g)
  }

  /** The bodies of group g in a log, in log order. */
  function OfGroup(log: seq<Record>, g: Key): seq<string> {
    if |log| == 0 then []
    else
      var last := log[|log| - 1];
      OfGroup(log[..|log| - 1], g) + if last.key == Some(g) then [last.body] else []
  }

  lemma OfGroupSnoc(log: seq<Record>, r: Record, g: Key)
    ensures OfGroup(log + [r], g) == OfGroup(log, g) + if r.key == Some(g) then [r.body] else []
  {
    assert (log + [r])[..|log|] == log;
  }

  ghost predicate LeadsTo(shardMap: Option<seq<Shard>>, g: Key, topic: string) {
    Route(shardMap, g).Routed? && Route(shardMap, g).shard.topic == topic
  }

  /** Every map in force during the run sends group g to the one topic. */
  ghost predicate StaysOn(b: Bus, events: seq<Event>, g: Key, topic: string) {
    && LeadsTo(b.shardMap, g, topic)
    && forall k :: 0 <= k < |events| && events[k].Reshard? ==> LeadsTo(Some(events[k].shards), g, topic)
  }

  /** One record r is added at place q. */
  ghost predicate Appends(b: Bus, b': Bus, q: Place, r: Record) {
    b'.logs == b.logs[q := LogAt(b, q) + [r]]
  }

  lemma AppendAdds(b: Bus, b': Bus, q: Place, r: Record, g: Key, p: Place)
    requires Appends(b, b', q, r)
    ensures OfGroup(LogAt(b', p), g) == OfGroup(LogAt(b, p), g) + if p == q && r.key == Some(g) then [r.body] else []
  {
    if p == q {
      OfGroupSnoc(LogAt(b, q), r, g);
    }
  }

  /** Where group g's messages go: the one partition of the topic its key hashes to. */
  function PlaceOf(meta: Meta, g: Key, topic: string): Place {
    Place(topic, PartitionWithinShard(g, meta.partitionsPerShard))
  }

  lemma SendAppends(b: Bus, m: Message, random: Key, produceOk: bool)
    requires b.meta.Some? && b.meta.value.fifo && SendOp(b, m, random, produceOk).1.Sent?
    ensures m.group != [] && Route(b.shardMap, m.group).Routed?
    ensures
      var q := PlaceOf(b.meta.value, m.group, Route(b.shardMap, m.group).shard.topic);
      Appends(b, SendOp(b, m, random, produceOk).0, q, Record(Some(m.group), m.body))
  {
  }

  lemma UnsentKeepsLogs(b: Bus, m: Message, random: Key, produceOk: bool)
    ensures SendOp(b, m, random, produceOk).0.meta == b.meta && SendOp(b, m, random, produceOk).0.shardMap == b.shardMap
    ensures !SendOp(b, m, random, produceOk).1.Sent? ==> SendOp(b, m, random, produceOk).0.logs == b.logs
  {
  }

  /** The group's records at a place are those it had before and then these. */
  ghost predicate Records(b: Bus, after: Bus, g: Key, p: Place, bodies: seq<string>) {
    OfGroup(LogAt(after, p), g) == OfGroup(LogAt(b, p), g) + bodies
  }

  lemma RecordsChain(b: Bus, t: Bus, u: Bus, g: Key, p: Place, first: seq<string>, second: seq<string>)
    requires Records(b, t, g, p, first) && Records(t, u, g, p, second)
    ensures Records(b, u, g, p, first + second)
  {
    var held := OfGroup(LogAt(b, p), g);
    assert held + first + second == held + (first + second);
  }

  /** What is sent to a group's topic lands at its one place there, and nowhere else. */
  function AtPlace(meta: Meta, g: Key, topic: string, p: Place, bodies: seq<string>): seq<string> {
    if p == PlaceOf(meta, g, topic) then bodies else []
  }

  lemma AtPlaceConcat(meta: Meta, g: Key, topic: string, p: Place, a: seq<string>, b: seq<string>)
    ensures AtPlace(meta, g, topic, p, a + b) == AtPlace(meta, g, topic, p, a) + AtPlace(meta, g, topic, p, b)
  {
  }

  lemma SentAdds(b: Bus, e: Event, g: Key, topic: string, p: Place)
    requires b.meta.Some? && b.meta.value.fifo && g != [] && LeadsTo(b.shardMap, g, topic)
    requires e.Send? && SendOp(b, e.m, e.random, e.produceOk).1.Sent?
    ensures Records(b, After(b, e), g, p, AtPlace(b.meta.value, g, topic, p, Adds(b, e, g)))
  {
    var b' := SendOp(b, e.m, e.random, e.produceOk).0;
    SendAppends(b, e.m, e.random, e.produceOk);
    var q := PlaceOf(b.meta.value, e.m.group, Route(b.shardMap, e.m.group).shard.topic);
    AppendAdds(b, b', q, Record(Some(e.m.group), e.m.body), g, p);
    if e.m.group == g {
      assert q == PlaceOf(b.meta.value, g, topic);
    }
  }

  lemma EventAdds(b: Bus, e: Event, g: Key, topic: string, p: Place)
    requires b.meta.Some? && b.meta.value.fifo && g != [] && LeadsTo(b.shardMap, g, topic)
    ensures Records(b, After(b, e), g, p, AtPlace(b.meta.value, g, topic, p, Adds(b, e, g)))
  {
    if e.Send? && SendOp(b, e.m, e.random, e.produceOk).1.Sent? {
      SentAdds(b, e, g, topic, p);
    } else {
      if e.Send? { UnsentKeepsLogs(b, e.m, e.random, e.produceOk); }
      NothingAdded(b, After(b, e), g, p);
      assert Adds(b, e, g) == [];
    }
  }

  lemma NothingAdded(b: Bus, b': Bus, g: Key, p: Place)
    requires b'.logs == b.logs
    ensures Records(b, b', g, p, [])
  {
  }

  lemma {:induction false} MapsStayOn(b: Bus, events: seq<Event>, g: Key, topic: string)
    requires StaysOn(b, events, g, topic)
    ensures Run(b, events).meta == b.meta && LeadsTo(Run(b, events).shardMap, g, topic)
  {
    if |events| > 0 {
      var n := |events| - 1;
      MapsStayOn(b, events[..n], g, topic);
      if events[n].Send? {
        UnsentKeepsLogs(Run(b, events[..n]), events[n].m, events[n].random, events[n].produceOk);
      }
    }
  }

  /**
   A FIFO group's messages share one log, in the order they were sent: as long as the maps in force lead the group to
   one topic, its records are added to one partition of that topic, exactly the accepted ones and in send order, and to
   no other partition of any topic.
   */
  lemma {:induction false} GroupSharesOneLog(b: Bus, events: seq<Event>, g: Key, topic: string, p: Place)
    requires b.meta.Some? && b.meta.value.fifo && g != [] && StaysOn(b, events, g, topic)
    ensures Records(b, Run(b, events), g, p, AtPlace(b.meta.value, g, topic, p, SentBy(b, events, g)))
  {
    if |events| > 0 {
      var n := |events| - 1;
      var t, e, before := Run(b, events[..n]), events[n], SentBy(b, events[..n], g);
      GroupSharesOneLog(b, events[..n], g, topic, p);
      MapsStayOn(b, events[..n], g, topic);
      EventAdds(t, e, g, topic, p);
      RecordsChain(b, t, After(t, e), g, p,
                   AtPlace(b.meta.value, g, topic, p, before), AtPlace(b.meta.value, g, topic, p, Adds(t, e, g)));
      AtPlaceConcat(b.meta.value, g, topic, p, before, Adds(t, e, g));
    }
  }

  /**
   Between splits of its owner a group does stay on one topic: while the shard that owns it is Active, every map
   published for a later status leads to the topic of the earlier one, and to the same partition of it. When the owner
   is no longer Active the group has moved down the tree.
   */
  lemma GroupStaysWithItsOwner(
    c: Config, moves: seq<Move>, k: nat, before: seq<Shard>, after: seq<Shard>, g: Key, i: int, j: int)
    requires Sane(c) && LegalHistory(c, moves) && 0 < k <= |moves|
    requires Lists(before, Replay(c, moves[..k])) && Lists(after, Replay(c, moves))
    requires Owns(Replay(c, moves[..k]), i, HashKey(g)) && Owns(Replay(c, moves), j, HashKey(g))
    ensures TreeInv(c, Replay(c, moves)) && |Replay(c, moves)| > j && 0 <= i < |Replay(c, moves)|
    ensures LeadsTo(Some(before), g, Replay(c, moves)[i].topic) && LeadsTo(Some(after), g, Replay(c, moves)[j].topic)
    ensures if Replay(c, moves)[i].phase.Active? then LeadsTo(Some(after), g, Replay(c, moves)[i].topic)
            else i != j && Descendant(Replay(c, moves), i, j)
  {
    LegalPrefix(c, moves, k);
    RoutesToTheOwner(c, moves[..k], before, g);
    RoutesToTheOwner(c, moves, after, g);
    KeysOnlyDescend(c, moves, k, i, j, HashKey(g));
    HistoryExtends(c, moves, k);
  }

  // ---------------------------------------------------------------------------------------------------------------
  // Claims
  // ---------------------------------------------------------------------------------------------------------------

  function ClaimOf(m: Message): DedupKey {
    (m.group, m.dedupId)
  }

  /** Deduplication applies to the message: the queue is FIFO, the body fits, and group and ID are given. */
  predicate IsDeduplicated(meta: Option<Meta>, m: Message) {
    && |m.body| <= MAX_MESSAGE_BODY_BYTES && meta.Some? && meta.value.fifo && m.group != [] && m.dedupId != ""
  }

  /** A send leaves its claim behind whatever comes of it afterwards, be the message unroutable or the produce failed. */
  lemma SendClaimsIff(b: Bus, m: Message, random: Key, produceOk: bool, claim: DedupKey)
    ensures claim in SendOp(b, m, random, produceOk).0.claimed
            <==> claim in b.claimed || (IsDeduplicated(b.meta, m) && claim == ClaimOf(m))
    ensures SendOp(b, m, random, produceOk).1.Duplicate? <==> IsDeduplicated(b.meta, m) && ClaimOf(m) in b.claimed
    ensures SendOp(b, m, random, produceOk).0.meta == b.meta
  {
  }

  predicate Claims(meta: Option<Meta>, e: Event, claim: DedupKey) {
    e.Send? && IsDeduplicated(meta, e.m) && claim == ClaimOf(e.m)
  }

  predicate NotForgotten(events: seq<Event>, from: nat, claim: DedupKey) {
    forall k :: from <= k < |events| ==> events[k] != Forget(claim)
  }

  /** Some event made the claim, and its window has not ended since. */
  ghost predicate ClaimedAndKept(meta: Option<Meta>, events: seq<Event>, claim: DedupKey) {
    exists k :: 0 <= k < |events| && Claims(meta, events[k], claim) && NotForgotten(events, k + 1, claim)
  }

  /** What stands after a run stood before it and was kept, or was claimed during it and kept since. */
  ghost predicate Stands(b: Bus, events: seq<Event>, claim: DedupKey) {
    (claim in b.claimed && NotForgotten(events, 0, claim)) || ClaimedAndKept(b.meta, events, claim)
  }

  lemma StandsSnoc(b: Bus, events: seq<Event>, e: Event, claim: DedupKey)
    ensures Stands(b, events + [e], claim) <==>
      Claims(b.meta, e, claim) || (e != Forget(claim) && Stands(b, events, claim))
  {
    var all, n := events + [e], |events|;
    if Stands(b, events, claim) && e != Forget(claim) && ClaimedAndKept(b.meta, events, claim) {
      var k :| 0 <= k < n && Claims(b.meta, events[k], claim) && NotForgotten(events, k + 1, claim);
      assert Claims(b.meta, all[k], claim) && NotForgotten(all, k + 1, claim);
    }
    if Claims(b.meta, e, claim) {
      assert Claims(b.meta, all[n], claim) && NotForgotten(all, n + 1, claim);
    } else if ClaimedAndKept(b.meta, all, claim) {
      var k :| 0 <= k < |all| && Claims(b.meta, all[k], claim) && NotForgotten(all, k + 1, claim);
      assert k < n && all[k] == events[k] && all[n] == e;
      assert NotForgotten(events, k + 1, claim) by {
        assert forall j :: k + 1 <= j < n ==> all[j] == events[j];
      }
    }
    assert NotForgotten(all, 0, claim) <==> NotForgotten(events, 0, claim) && e != Forget(claim) by {
      assert all[n] == e && forall j :: 0 <= j < n ==> all[j] == events[j];
    }
  }

  lemma {:induction false} ClaimsAfterRun(b: Bus, events: seq<Event>, claim: DedupKey)
    ensures claim in Run(b, events).claimed <==> Stands(b, events, claim)
    ensures Run(b, events).meta == b.meta
  {
    if |events| > 0 {
      var n := |events| - 1;
      ClaimsAfterRun(b, events[..n], claim);
      StandsSnoc(b, events[..n], events[n], claim);
      assert events[..n] + [events[n]] == events;
      if events[n].Send? {
        SendClaimsIff(Run(b, events[..n]), events[n].m, events[n].random, events[n].produceOk, claim);
      }
    }
  }

  /**
   Exactly when a send is answered as a duplicate, after any run: deduplication applies to it, and its claim was made
   by an earlier send, successful or not, and has been kept since.
   */
  lemma DuplicateIff(b: Bus, events: seq<Event>, m: Message, random: Key, produceOk: bool)
    ensures SendOp(Run(b, events), m, random, produceOk).1.Duplicate?
            <==> IsDeduplicated(b.meta, m) && Stands(b, events, ClaimOf(m))
  {
    ClaimsAfterRun(b, events, ClaimOf(m));
    SendClaimsIff(Run(b, events), m, random, produceOk, ClaimOf(m));
  }

  /**
   A message whose first send failed after the claim, because no shard covered its key or the produce failed, is lost to
   its retries: whatever happens meanwhile, every retry within the window is answered as a duplicate and writes nothing.
   */
  lemma FailedSendIsNotRetried(
    b: Bus, m: Message, random: Key, produceOk: bool, events: seq<Event>, retry: Message, random': Key, ok: bool)
    requires b.meta.Some? && b.meta.value.fifo && m.dedupId != ""
    requires SendOp(b, m, random, produceOk).1.Unroutable? || SendOp(b, m, random, produceOk).1.ProduceFailed?
    requires |retry.body| <= MAX_MESSAGE_BODY_BYTES && ClaimOf(retry) == ClaimOf(m) && NotForgotten(events, 0, ClaimOf(m))
    ensures
      var b' := SendOp(b, m, random, produceOk).0;
      b'.logs == b.logs && SendOp(Run(b', events), retry, random', ok) == (Run(b', events), Duplicate(m.dedupId))
  {
    var b' := SendOp(b, m, random, produceOk).0;
    assert IsDeduplicated(b.meta, m);
    SendClaimsIff(b, m, random, produceOk, ClaimOf(m));
    ClaimsAfterRun(b', events, ClaimOf(m));
  }
}
