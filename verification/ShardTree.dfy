/**
 The shards of a queue's status and the three ways they change: the first shard is created, an Active shard is split,
 a Closing shard is closed. A status is whatever a legal history of such moves leaves behind.
 */
module ShardTree {
  import opened Options
  import opened Decimal
  import opened Topology

  datatype ShardStatus = ShardStatus(
    id: string, topic: string, hashRangeStart: int, hashRangeEnd: int, phase: Phase, parentId: string, createdAt: int)

  /** What stays the same over a queue's life. Times are whole seconds, and 0 is the zero time. */
  datatype Config = Config(queueName: string, maxShards: int, cooldown: int)

  datatype Move =
    | Create(fifo: bool, now: int)
    | Split(i: nat, fifo: bool, now: int)
    | Close(i: nat)

  type Status = seq<ShardStatus>

  /** spec.maxShards, with its default. */
  function Cap(c: Config): int {
    if c.maxShards <= 0 then 8 else c.maxShards
  }

  function ActiveCount(s: Status): nat {
    if |s| == 0 then 0
    else ActiveCount(s[..|s| - 1]) + if s[|s| - 1].phase.Active? then 1 else 0
  }

  /** The largest number among the IDs, or -1. */
  function MaxId(s: Status): int {
    if |s| == 0 then -1
    else
      var before := MaxId(s[..|s| - 1]);
      match Atoi(s[|s| - 1].id)
      case None => before
      case Some(n) => if n > before then n else before
  }

  /** It is at least every number that can be read, and one of them unless it is -1. */
  lemma {:induction false} MaxIdIsLargest(s: Status)
    ensures forall i :: 0 <= i < |s| && Atoi(s[i].id).Some? ==> Atoi(s[i].id).value <= MaxId(s)
    ensures MaxId(s) >= -1
    ensures MaxId(s) != -1 ==> exists i :: 0 <= i < |s| && Atoi(s[i].id) == Some(MaxId(s))
  {
    if |s| > 0 {
      var n := |s| - 1;
      MaxIdIsLargest(s[..n]);
      if MaxId(s[..n]) != -1 {
        var i :| 0 <= i < n && Atoi(s[..n][i].id) == Some(MaxId(s[..n]));
        assert s[i] == s[..n][i];
      }
      forall i | 0 <= i < |s| && Atoi(s[i].id).Some? ensures Atoi(s[i].id).value <= MaxId(s) {
        assert i < n ==> s[..n][i] == s[i];
      }
      assert Atoi(s[n].id).Some? ==> s[n] == s[n];
    }
  }

  function NextShardId(s: Status): string {
    PrintSuccessor(MaxId(s))
  }

  /** The ID of the second child, from the ID of the first; a number that cannot be read counts as 0. */
  function SiblingId(id: string): string {
    match Atoi(id)
    case Some(n) => PrintSuccessor(n)
    case None => PrintSuccessor(0)
  }

  function NewShard(c: Config, fifo: bool, id: string, parentId: string, start: int, end: int, now: int): ShardStatus {
    ShardStatus(id, ShardTopicName(c.queueName, fifo, id), start, end, Active, parentId, now)
  }

  /** Where a range is cut; the status keeps ranges as int64. */
  function Mid(start: int, end: int): nat {
    SplitHashRange(Uint32(start), Uint32(end))
  }

  function MidOf(p: ShardStatus): nat {
    Mid(p.hashRangeStart, p.hashRangeEnd)
  }

  function Children(c: Config, s: Status, i: nat, fifo: bool, now: int): (kids: Status)
    requires i < |s|
    ensures |kids| == 2
  {
    var a := NextShardId(s);
    [NewShard(c, fifo, a, s[i].id, Uint32(s[i].hashRangeStart), MidOf(s[i]), now),
     NewShard(c, fifo, SiblingId(a), s[i].id, MidOf(s[i]), Uint32(s[i].hashRangeEnd), now)]
  }

  function Apply(c: Config, s: Status, m: Move): Status {
    match m
    case Create(fifo, now) => [NewShard(c, fifo, "0", "", 0, FULL_HASH_RANGE_END, now)]
    case Split(i, fifo, now) =>
      if i < |s| then s[i := s[i].(phase := Closing)] + Children(c, s, i, fifo, now) else s
    case Close(i) => if i < |s| then s[i := s[i].(phase := Closed)] else s
  }

  /** The guards of the operator's code. The clock reads a positive time. */
  predicate Legal(c: Config, s: Status, m: Move) {
    match m
    case Create(_, now) => |s| == 0 && now > 0
    case Split(i, _, now) =>
      && i < |s| && s[i].phase.Active? && ActiveCount(s) < Cap(c) && now > 0
      && (s[i].createdAt != 0 ==> now >= s[i].createdAt + c.cooldown)
    case Close(i) => i < |s| && s[i].phase.Closing?
  }

  /** The status after a history of moves. */
  function Replay(c: Config, moves: seq<Move>): Status {
    if |moves| == 0 then [] else Apply(c, Replay(c, moves[..|moves| - 1]), moves[|moves| - 1])
  }

  predicate LegalHistory(c: Config, moves: seq<Move>) {
    |moves| > 0 ==>
      LegalHistory(c, moves[..|moves| - 1]) && Legal(c, Replay(c, moves[..|moves| - 1]), moves[|moves| - 1])
  }

  /** The status after some more moves. */
  function ApplyAll(c: Config, s: Status, moves: seq<Move>): Status
    decreases |moves|
  {
    if |moves| == 0 then s else ApplyAll(c, Apply(c, s, moves[0]), moves[1..])
  }

  predicate LegalFrom(c: Config, s: Status, moves: seq<Move>)
    decreases |moves|
  {
    |moves| > 0 ==> Legal(c, s, moves[0]) && LegalFrom(c, Apply(c, s, moves[0]), moves[1..])
  }

  // ---------------------------------------------------------------------------------------------------------------
  // Shape
  // ---------------------------------------------------------------------------------------------------------------

  /** Shard j was split from shard p. */
  predicate IsChild(s: Status, j: int, p: int)
    requires 0 <= j < |s| && 0 <= p < |s|
  {
    s[j].parentId == s[p].id
  }

  ghost predicate HasParent(s: Status, j: int)
    requires 0 <= j < |s|
  {
    exists p :: 0 <= p < j && IsChild(s, j, p)
  }

  /** Every shard is numbered by its position. */
  predicate Numbered(s: Status) {
    |s| < INT_MAX && forall i :: 0 <= i < |s| ==> s[i].id == Itoa(i)
  }

  /** No ID is empty and no two shards share one. */
  predicate IdsDiffer(s: Status) {
    && (forall i :: 0 <= i < |s| ==> s[i].id != "")
    && (forall i, j :: 0 <= i < |s| && 0 <= j < |s| && s[i].id == s[j].id ==> i == j)
  }

  /** Every shard but the first comes after its parent, and the first names none. */
  ghost predicate ParentsFirst(s: Status) {
    && IdsDiffer(s)
    && (|s| > 0 ==> s[0].parentId == "")
    && (forall j :: 0 < j < |s| ==> HasParent(s, j))
  }

  /** Every topic is the one named after the shard, for the kind the queue had when the shard was created. */
  predicate Named(c: Config, s: Status) {
    forall i :: 0 <= i < |s| ==> HasItsTopic(c, s[i])
  }

  predicate HasItsTopic(c: Config, x: ShardStatus) {
    x.topic == ShardTopicName(c.queueName, false, x.id) || x.topic == ShardTopicName(c.queueName, true, x.id)
  }

  /** Shards a and a + 1 are children of shard p and cut its range at the midpoint. */
  predicate IsPair(s: Status, p: int, a: int)
    requires 0 <= p < |s|
  {
    && p < a && a + 1 < |s|
    && IsChild(s, a, p) && IsChild(s, a + 1, p)
    && s[a].hashRangeStart == s[p].hashRangeStart && s[a + 1].hashRangeEnd == s[p].hashRangeEnd
    && s[a].hashRangeEnd == s[a + 1].hashRangeStart == MidOf(s[p])
  }

  predicate OnlyChildren(s: Status, p: int, a: int)
    requires 0 <= p < |s|
  {
    forall j :: 0 <= j < |s| && IsChild(s, j, p) ==> j == a || j == a + 1
  }

  ghost predicate CutInTwo(s: Status, p: int)
    requires 0 <= p < |s|
  {
    exists a :: IsPair(s, p, a) && OnlyChildren(s, p, a)
  }

  predicate Childless(s: Status, p: int)
    requires 0 <= p < |s|
  {
    forall j :: 0 <= j < |s| ==> !IsChild(s, j, p)
  }

  /** An Active shard has no children, and any other shard exactly the two that cut its range at the midpoint. */
  ghost predicate SplitInTwo(s: Status) {
    forall p :: 0 <= p < |s| ==> if s[p].phase.Active? then Childless(s, p) else CutInTwo(s, p)
  }

  predicate ProperRanges(s: Status) {
    forall i :: 0 <= i < |s| ==> 0 <= s[i].hashRangeStart <= s[i].hashRangeEnd <= FULL_HASH_RANGE_END
  }

  predicate InRange(p: ShardStatus, h: int) {
    p.hashRangeStart <= h < p.hashRangeEnd
  }

  /** Shard i is Active and its range contains h. */
  predicate Owns(s: Status, i: int, h: int) {
    0 <= i < |s| && s[i].phase.Active? && InRange(s[i], h)
  }

  ghost predicate HasOwner(s: Status, h: int) {
    exists i :: Owns(s, i, h)
  }

  /** The Active ranges are a partition of [0, FULL_HASH_RANGE_END). */
  ghost predicate Partitioned(s: Status) {
    && (forall h :: 0 <= h < FULL_HASH_RANGE_END ==> HasOwner(s, h))
    && (forall i, j, h :: Owns(s, i, h) && Owns(s, j, h) ==> i == j)
    && (forall i, h :: Owns(s, i, h) ==> 0 <= h < FULL_HASH_RANGE_END)
  }

  /** Two more shards for every split, and never more Active ones than the cap. */
  predicate Counted(c: Config, s: Status) {
    |s| == 2 * ActiveCount(s) - 1 && ActiveCount(s) <= Cap(c)
  }

  lemma {:induction false} ActiveCountUpdate(s: Status, i: nat, x: ShardStatus)
    requires i < |s|
    ensures ActiveCount(s[i := x]) ==
      ActiveCount(s) - (if s[i].phase.Active? then 1 else 0) + (if x.phase.Active? then 1 else 0)
  {
    var n := |s| - 1;
    if i == n {
      assert s[i := x][..n] == s[..n];
    } else {
      ActiveCountUpdate(s[..n], i, x);
      assert s[i := x][..n] == s[..n][i := x];
    }
  }

  lemma ActiveCountSnoc(s: Status, x: ShardStatus)
    ensures ActiveCount(s + [x]) == ActiveCount(s) + if x.phase.Active? then 1 else 0
  {
    assert (s + [x])[..|s|] == s;
  }

  /** A split takes one Active shard away and adds two. */
  lemma SplitAddsOneActive(c: Config, s: Status, i: nat, fifo: bool, now: int)
    requires i < |s| && s[i].phase.Active?
    ensures ActiveCount(Apply(c, s, Split(i, fifo, now))) == ActiveCount(s) + 1
  {
    var kids := Children(c, s, i, fifo, now);
    var t := s[i := s[i].(phase := Closing)];
    ActiveCountUpdate(s, i, s[i].(phase := Closing));
    ActiveCountSnoc(t, kids[0]);
    ActiveCountSnoc(t + [kids[0]], kids[1]);
    assert t + kids == t + [kids[0]] + [kids[1]];
  }

  lemma {:induction false} MaxIdOfNumbered(s: Status)
    requires |s| < INT_MAX && forall i :: 0 <= i < |s| ==> s[i].id == Itoa(i)
    ensures MaxId(s) == |s| - 1
  {
    if |s| > 0 {
      MaxIdOfNumbered(s[..|s| - 1]);
      AtoiItoa(|s| - 1);
    }
  }

  lemma NumberedIdsDiffer(s: Status)
    requires Numbered(s)
    ensures IdsDiffer(s)
  {
    forall i, j | 0 <= i < |s| && 0 <= j < |s| && s[i].id == s[j].id ensures i == j {
      ItoaInjective(i, j);
    }
  }

  /** s' is s with shard i Closing and its two children added at the end. */
  ghost predicate Grows(s: Status, s': Status, i: nat) {
    && i < |s| && |s'| == |s| + 2
    && (forall k :: 0 <= k < |s| ==> s'[k] == if k == i then s[k].(phase := Closing) else s[k])
    && s'[|s|].phase.Active? && s'[|s| + 1].phase.Active?
    && s'[|s|].parentId == s[i].id && s'[|s| + 1].parentId == s[i].id
    && s'[|s|].hashRangeStart == s[i].hashRangeStart && s'[|s| + 1].hashRangeEnd == s[i].hashRangeEnd
    && s'[|s|].hashRangeEnd == s'[|s| + 1].hashRangeStart == MidOf(s[i])
  }

  lemma NextIds(s: Status)
    requires Numbered(s) && |s| + 2 < INT_MAX
    ensures NextShardId(s) == Itoa(|s|) && SiblingId(Itoa(|s|)) == Itoa(|s| + 1)
  {
    MaxIdOfNumbered(s);
    AtoiItoa(|s|);
  }

  lemma SplitGrowsTree(c: Config, s: Status, i: nat, fifo: bool, now: int)
    requires ProperRanges(s) && i < |s|
    ensures Grows(s, Apply(c, s, Split(i, fifo, now)), i)
  {
  }

  lemma ChildrenAre(c: Config, s: Status, i: nat, fifo: bool, now: int)
    requires Numbered(s) && i < |s| && |s| + 2 < INT_MAX
    ensures
      var kids, n := Children(c, s, i, fifo, now), |s|;
      && kids[0].id == Itoa(n) && kids[1].id == Itoa(n + 1)
      && kids[0].createdAt == now && kids[1].createdAt == now
      && kids[0].topic == ShardTopicName(c.queueName, fifo, kids[0].id)
      && kids[1].topic == ShardTopicName(c.queueName, fifo, kids[1].id)
  {
    NextIds(s);
  }

  lemma TwoMoreNumbers(s: Status, s': Status, i: nat)
    requires Numbered(s) && Grows(s, s', i) && |s| + 2 < INT_MAX
    requires s'[|s|].id == Itoa(|s|) && s'[|s| + 1].id == Itoa(|s| + 1)
    ensures Numbered(s')
  {
    var n := |s|;
    forall i | 0 <= i < |s'| ensures s'[i].id == Itoa(i) {
      if i < n {
        assert s'[i].id == s[i].id;
      } else {
        assert i == n || i == n + 1;
      }
    }
  }

  /** A split grows the tree by two shards with the next two numbers. */
  lemma SplitGrows(c: Config, s: Status, i: nat, fifo: bool, now: int)
    requires Numbered(s) && ProperRanges(s) && i < |s| && |s| + 2 < INT_MAX
    ensures
      var s', n := Apply(c, s, Split(i, fifo, now)), |s|;
      && Grows(s, s', i) && Numbered(s')
      && s'[n..] == Children(c, s, i, fifo, now)
  {
    SplitGrowsTree(c, s, i, fifo, now);
    ChildrenAre(c, s, i, fifo, now);
    TwoMoreNumbers(s, Apply(c, s, Split(i, fifo, now)), i);
  }
}
