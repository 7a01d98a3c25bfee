/** What the logs of a queue of either kind hold after any run: the messages that were accepted, where they were routed. */
module SendingLogs {
  import opened Options
  import opened Topology
  import opened Router
  import opened Sending

  /** What a message is routed by: its group, or a random key if it has none. */
  function KeyOf(m: Message, random: Key): Key {
    if |m.group| > 0 then m.group else random
  }

  /** The place a message belongs at, by the map in force. */
  function Destination(b: Bus, meta: Meta, key: Key): Place
    requires Route(b.shardMap, key).Routed?
  {
    Place(Route(b.shardMap, key).shard.topic, PartitionWithinShard(key, meta.partitionsPerShard))
  }

  /** The record of a message: its body, and its group as the key if the queue is FIFO. */
  function RecordOf(meta: Meta, m: Message): Record {
    Record(if meta.fifo then Some(m.group) else None, m.body)
  }

  /** Nothing speaks against the message: size, queue, group, deduplication, route and Kafka. */
  predicate IsAccepted(b: Bus, m: Message, random: Key, produceOk: bool) {
    && |m.body| <= 262144 && b.meta.Some?
    && (b.meta.value.fifo ==> |m.group| > 0 && (m.dedupId != "" ==> (m.group, m.dedupId) !in b.claimed))
    && Route(b.shardMap, KeyOf(m, random)).Routed? && produceOk
  }

  /**
   One send, on a queue of either kind: it is accepted if and only if nothing speaks against it. Then its record, with its
   own body, is the last one at its destination, all other logs are as they were, and the reply is the record's offset; and
   otherwise no log changes.
   */
  lemma SentIff(b: Bus, m: Message, random: Key, produceOk: bool)
    ensures
      var (b', reply) := SendOp(b, m, random, produceOk);
      && (reply.Sent? <==> IsAccepted(b, m, random, produceOk))
      && (if IsAccepted(b, m, random, produceOk) then
            var p := Destination(b, b.meta.value, KeyOf(m, random));
            && Appends(b, b', p, RecordOf(b.meta.value, m)) && reply.offset == |LogAt(b, p)|
            && LogAt(b', p)[reply.offset] == RecordOf(b.meta.value, m)
          else b'.logs == b.logs)
  {
  }

  /** Why a send is not accepted: the first of the reasons, in the order in which they are looked at. */
  lemma RefusedBecause(b: Bus, m: Message, random: Key, produceOk: bool)
    requires !IsAccepted(b, m, random, produceOk)
    ensures
      var reply := SendOp(b, m, random, produceOk).1;
      && (reply.TooLarge? <==> |m.body| > 262144)
      && (reply.QueueNotFound? <==> |m.body| <= 262144 && b.meta.None?)
      && (reply.GroupRequired? <==> |m.body| <= 262144 && b.meta.Some? && b.meta.value.fifo && m.group == [])
      && (reply.Unroutable? ==> reply.why == Route(b.shardMap, KeyOf(m, random)) && !reply.why.Routed?)
      && (reply.ProduceFailed? ==> Route(b.shardMap, KeyOf(m, random)).Routed? && !produceOk)
      && (reply.Duplicate? ==> reply.id == m.dedupId)
  {
  }

  // ---------------------------------------------------------------------------------------------------------------
  // Runs
  // ---------------------------------------------------------------------------------------------------------------

  /** The record an event adds at a place, if it does. */
  function Lands(b: Bus, e: Event, p: Place): seq<Record> {
    if e.Send? && IsAccepted(b, e.m, e.random, e.produceOk) && Destination(b, b.meta.value, KeyOf(e.m, e.random)) == p
    then [RecordOf(b.meta.value, e.m)] else []
  }

  /** The records of the accepted sends of a run that were routed to a place, in the order of the sends. */
  function Landed(b: Bus, events: seq<Event>, p: Place): seq<Record> {
    if |events| == 0 then []
    else
      var before := events[..|events| - 1];
      Landed(b, before, p) + Lands(Run(b, before), events[|events| - 1], p)
  }

  lemma EventLands(b: Bus, e: Event, p: Place)
    ensures LogAt(After(b, e), p) == LogAt(b, p) + Lands(b, e, p)
  {
    if e.Send? {
      SentIff(b, e.m, e.random, e.produceOk);
    }
  }

  /**
   After any run, on a queue of either kind, every log is what it was and then exactly the accepted messages that were
   routed there, in send order.
   */
  lemma {:induction false} LogsAreTheSends(b: Bus, events: seq<Event>, p: Place)
    ensures LogAt(Run(b, events), p) == LogAt(b, p) + Landed(b, events, p)
  {
    if |events| == 0 {
    } else {
      var n := |events| - 1;
      LogsAreTheSends(b, events[..n], p);
      EventLands(Run(b, events[..n]), events[n], p);
    }
  }

  /** The offset in a reply keeps standing for the message, whatever is sent, forgotten or resharded afterwards. */
  lemma OffsetStandsForMessage(b: Bus, m: Message, random: Key, produceOk: bool, events: seq<Event>)
    requires SendOp(b, m, random, produceOk).1.Sent?
    ensures IsAccepted(b, m, random, produceOk)
    ensures
      var (b', reply) := SendOp(b, m, random, produceOk);
      var log := LogAt(Run(b', events), Destination(b, b.meta.value, KeyOf(m, random)));
      reply.offset < |log| && log[reply.offset] == RecordOf(b.meta.value, m)
  {
    SentIff(b, m, random, produceOk);
    LogsAreTheSends(SendOp(b, m, random, produceOk).0, events, Destination(b, b.meta.value, KeyOf(m, random)));
  }
}
