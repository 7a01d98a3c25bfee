/** Topics over a queue's life: no two shards share one, and the topic of a Closed shard is gone for good. */
module ShardTopics {
  import opened Decimal
  import opened Topology
  import opened ShardTree
  import opened ShardInvariants
  import opened ShardRuns

  lemma MoveKeepsNames(c: Config, s: Status, m: Move)
    requires Sane(c) && TreeInv(c, s) && Legal(c, s, m) && Named(c, s)
    ensures Named(c, Apply(c, s, m))
  {
    match m
    case Create(_, _) =>
    case Close(_) =>
    case Split(i, fifo, now) =>
      SplitKeepsInv(c, s, i, fifo, now);
      SplitGrows(c, s, i, fifo, now);
      ChildrenAre(c, s, i, fifo, now);
      NamesGrow(c, s, Apply(c, s, m), i, Children(c, s, i, fifo, now));
  }

  lemma NamesGrow(c: Config, s: Status, s': Status, i: nat, kids: Status)
    requires Named(c, s) && Grows(s, s', i) && s'[|s|..] == kids
    requires HasItsTopic(c, kids[0]) && HasItsTopic(c, kids[1])
    ensures Named(c, s')
  {
    forall k | 0 <= k < |s'| ensures HasItsTopic(c, s'[k]) {
      if k < |s| {
        assert HasItsTopic(c, s[k]);
      } else {
        assert s'[k] == kids[k - |s|];
      }
    }
  }

  /** In every reachable status each topic is the one its shard's ID gives. */
  lemma {:induction false} HistoryKeepsNames(c: Config, moves: seq<Move>)
    requires Sane(c) && LegalHistory(c, moves)
    ensures Named(c, Replay(c, moves))
  {
    if |moves| > 0 {
      HistoryKeepsNames(c, moves[..|moves| - 1]);
      HistoryKeepsInv(c, moves[..|moves| - 1]);
      MoveKeepsNames(c, Replay(c, moves[..|moves| - 1]), moves[|moves| - 1]);
    }
  }

  /** Within a queue no two shards share a topic, whatever the queue's kind was when each was created. */
  lemma TopicsDiffer(c: Config, moves: seq<Move>, i: nat, j: nat)
    requires Sane(c) && LegalHistory(c, moves) && i < |Replay(c, moves)| && j < |Replay(c, moves)|
    ensures Replay(c, moves)[i].topic == Replay(c, moves)[j].topic ==> i == j
  {
    HistoryKeepsInv(c, moves);
    HistoryKeepsNames(c, moves);
    var s := Replay(c, moves);
    if s[i].topic == s[j].topic {
      SameTopicSameId(c, s[i], s[j]);
    }
  }

  lemma SameTopicSameId(c: Config, x: ShardStatus, y: ShardStatus)
    requires HasItsTopic(c, x) && HasItsTopic(c, y) && x.topic == y.topic
    ensures x.id == y.id
  {
    var fifo := x.topic == ShardTopicName(c.queueName, true, x.id);
    var fifo' := y.topic == ShardTopicName(c.queueName, true, y.id);
    TopicNamesDiffer(c.queueName, fifo, x.id, fifo', y.id);
  }

  /**
   Once a shard is Closed, and its topic deleted, no later status names that topic for a shard that is not Closed, so
   the pass that creates topics never creates it again.
   */
  lemma ClosedTopicsNeverReturn(c: Config, moves: seq<Move>, k: nat, i: nat, j: nat)
    requires Sane(c) && LegalHistory(c, moves) && k <= |moves|
    requires i < |Replay(c, moves[..k])| && Replay(c, moves[..k])[i].phase.Closed?
    requires j < |Replay(c, moves)| && !Replay(c, moves)[j].phase.Closed?
    ensures Replay(c, moves)[j].topic != Replay(c, moves[..k])[i].topic
  {
    HistoryExtends(c, moves, k);
    if Replay(c, moves)[j].topic == Replay(c, moves[..k])[i].topic {
      TopicsDiffer(c, moves, i, j);
    }
  }

  // ---------------------------------------------------------------------------------------------------------------
  // Topics and positions, across histories
  // ---------------------------------------------------------------------------------------------------------------

  predicate IsTopicOf(c: Config, i: nat, topic: string) {
    topic == ShardTopicName(c.queueName, false, Itoa(i)) || topic == ShardTopicName(c.queueName, true, Itoa(i))
  }

  lemma TopicOfOneShard(c: Config, i: nat, j: nat, topic: string)
    requires IsTopicOf(c, i, topic) && IsTopicOf(c, j, topic)
    ensures i == j
  {
    var fifo := topic == ShardTopicName(c.queueName, true, Itoa(i));
    var fifo' := topic == ShardTopicName(c.queueName, true, Itoa(j));
    TopicNamesDiffer(c.queueName, fifo, Itoa(i), fifo', Itoa(j));
    ItoaInjective(i, j);
  }

  lemma TopicOfShard(c: Config, h: seq<Move>, i: nat)
    requires Sane(c) && LegalHistory(c, h) && i < |Replay(c, h)|
    ensures IsTopicOf(c, i, Replay(c, h)[i].topic)
  {
    HistoryKeepsInv(c, h);
    HistoryKeepsNames(c, h);
    assert HasItsTopic(c, Replay(c, h)[i]);
  }
}
