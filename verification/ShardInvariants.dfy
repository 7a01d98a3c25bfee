/** What every legal history of shard moves keeps. */
module ShardInvariants {
  import opened Decimal
  import opened Topology
  import opened ShardTree

  ghost predicate TreeInv(c: Config, s: Status) {
    |s| > 0 ==>
      Numbered(s) && ParentsFirst(s) && ProperRanges(s) && Partitioned(s) && SplitInTwo(s) && Counted(c, s)
  }

  lemma CreateKeepsInv(c: Config, fifo: bool, now: int)
    requires Cap(c) >= 1
    ensures TreeInv(c, Apply(c, [], Create(fifo, now)))
  {
    var s := Apply(c, [], Create(fifo, now));
    assert Itoa(0) == "0";
    assert s[..0] == [];
    assert ActiveCount(s) == 1;
    assert Numbered(s);
    NumberedIdsDiffer(s);
    assert Childless(s, 0);
    forall h | 0 <= h < FULL_HASH_RANGE_END ensures HasOwner(s, h) {
      assert Owns(s, 0, h);
    }
  }

  // ---------------------------------------------------------------------------------------------------------------
  // Closing
  // ---------------------------------------------------------------------------------------------------------------

  /** Closing a shard that is not Active changes nothing that depends on which shards are. */
  ghost predicate Closes(s: Status, s': Status, i: nat) {
    i < |s| && s[i].phase.Closing? && s' == s[i := s[i].(phase := Closed)]
  }

  lemma CloseKeepsParents(s: Status, s': Status, i: nat)
    requires Closes(s, s', i) && ParentsFirst(s)
    ensures ParentsFirst(s')
  {
    assert forall j, p :: 0 <= j < |s| && 0 <= p < |s| ==> IsChild(s', j, p) == IsChild(s, j, p);
    forall j | 0 < j < |s'| ensures HasParent(s', j) {
      assert HasParent(s, j);
      var p :| 0 <= p < j && IsChild(s, j, p);
      assert IsChild(s', j, p);
    }
  }

  lemma CloseKeepsPartition(s: Status, s': Status, i: nat)
    requires Closes(s, s', i) && Partitioned(s)
    ensures Partitioned(s')
  {
    assert forall j, h :: Owns(s', j, h) == Owns(s, j, h);
    forall h | 0 <= h < FULL_HASH_RANGE_END ensures HasOwner(s', h) {
      assert HasOwner(s, h);
      var j :| Owns(s, j, h);
      assert Owns(s', j, h);
    }
  }

  lemma CloseKeepsPair(s: Status, s': Status, i: nat, p: int)
    requires Closes(s, s', i) && 0 <= p < |s|
    requires if s[p].phase.Active? then Childless(s, p) else CutInTwo(s, p)
    ensures if s'[p].phase.Active? then Childless(s', p) else CutInTwo(s', p)
  {
    assert forall j :: 0 <= j < |s| ==> IsChild(s', j, p) == IsChild(s, j, p);
    if !s[p].phase.Active? {
      var a :| IsPair(s, p, a) && OnlyChildren(s, p, a);
      assert IsPair(s', p, a) && OnlyChildren(s', p, a);
    }
  }

  lemma CloseKeepsPairs(s: Status, s': Status, i: nat)
    requires Closes(s, s', i) && SplitInTwo(s)
    ensures SplitInTwo(s')
  {
    forall p | 0 <= p < |s'| ensures if s'[p].phase.Active? then Childless(s', p) else CutInTwo(s', p) {
      CloseKeepsPair(s, s', i, p);
    }
  }

  lemma CloseKeepsNumbers(s: Status, s': Status, i: nat)
    requires Closes(s, s', i) && Numbered(s) && ProperRanges(s)
    ensures Numbered(s') && ProperRanges(s')
  {
    assert forall k :: 0 <= k < |s| ==> s'[k].id == s[k].id;
  }

  lemma CloseKeepsCounts(c: Config, s: Status, s': Status, i: nat)
    requires Closes(s, s', i) && Counted(c, s)
    ensures Counted(c, s')
  {
    ActiveCountUpdate(s, i, s[i].(phase := Closed));
  }

  lemma CloseKeepsInv(c: Config, s: Status, i: nat)
    requires TreeInv(c, s) && i < |s| && s[i].phase.Closing?
    ensures TreeInv(c, Apply(c, s, Close(i)))
  {
    var s' := Apply(c, s, Close(i));
    CloseKeepsNumbers(s, s', i);
    CloseKeepsCounts(c, s, s', i);
    CloseKeepsPartition(s, s', i);
    CloseKeepsPairs(s, s', i);
    CloseKeepsParents(s, s', i);
  }

  // ---------------------------------------------------------------------------------------------------------------
  // Splitting
  // ---------------------------------------------------------------------------------------------------------------

  lemma GrowsKeepsRanges(s: Status, s': Status, i: nat)
    requires Grows(s, s', i) && ProperRanges(s)
    ensures ProperRanges(s')
    ensures s[i].hashRangeStart <= MidOf(s[i]) <= s[i].hashRangeEnd
  {
    SplitHashRangeHalves(s[i].hashRangeStart, s[i].hashRangeEnd);
  }

  /** Who is whose child after the split of shard i. */
  lemma GrowsFamily(s: Status, s': Status, i: nat, j: int, p: int)
    requires Grows(s, s', i) && ParentsFirst(s) && IdsDiffer(s') && 0 <= j < |s'| && 0 <= p < |s'|
    ensures IsChild(s', j, p) <==> (j < |s| && p < |s| && IsChild(s, j, p)) || (j >= |s| && p == i)
  {
    if 0 < j < |s| && p >= |s| {
      assert HasParent(s, j);
      var q :| 0 <= q < j && IsChild(s, j, q);
      assert s'[q].id != s'[p].id;
    } else if j >= |s| && p != i {
      assert s'[p].id != s'[i].id;
    }
  }

  lemma GrowsKeepsParents(s: Status, s': Status, i: nat)
    requires Grows(s, s', i) && ParentsFirst(s) && IdsDiffer(s')
    ensures ParentsFirst(s')
  {
    forall j | 0 < j < |s'| ensures HasParent(s', j) {
      if j < |s| {
        assert HasParent(s, j);
        var p :| 0 <= p < j && IsChild(s, j, p);
        assert IsChild(s', j, p);
      } else {
        assert IsChild(s', j, i);
      }
    }
  }

  lemma GrowsKeepsPairs(s: Status, s': Status, i: nat)
    requires Grows(s, s', i) && ParentsFirst(s) && IdsDiffer(s') && SplitInTwo(s) && s[i].phase.Active?
    ensures SplitInTwo(s')
  {
    forall p | 0 <= p < |s'| ensures if s'[p].phase.Active? then Childless(s', p) else CutInTwo(s', p) {
      forall j | 0 <= j < |s'|
        ensures IsChild(s', j, p) <==> (j < |s| && p < |s| && IsChild(s, j, p)) || (j >= |s| && p == i)
      { GrowsFamily(s, s', i, j, p); }
      GrowsKeepsPair(s, s', i, p);
    }
  }

  lemma GrowsKeepsPair(s: Status, s': Status, i: nat, p: int)
    requires Grows(s, s', i) && SplitInTwo(s) && s[i].phase.Active? && 0 <= p < |s'|
    requires forall j :: 0 <= j < |s'| ==>
      (IsChild(s', j, p) <==> (j < |s| && p < |s| && IsChild(s, j, p)) || (j >= |s| && p == i))
    ensures if s'[p].phase.Active? then Childless(s', p) else CutInTwo(s', p)
  {
    if p == i {
      assert Childless(s, i);
      assert IsPair(s', i, |s|) && OnlyChildren(s', i, |s|);
    } else if p < |s| {
      if s[p].phase.Active? {
        assert Childless(s, p);
      } else {
        assert CutInTwo(s, p);
        var a :| IsPair(s, p, a) && OnlyChildren(s, p, a);
        assert IsPair(s', p, a) && OnlyChildren(s', p, a);
      }
    }
  }

  /** A key of the parent goes to one of its children, every other key stays where it was. */
  lemma GrowsOwners(s: Status, s': Status, i: nat, j: int, h: int)
    requires Grows(s, s', i) && ProperRanges(s) && s[i].phase.Active?
    ensures
      var n, mid := |s|, MidOf(s[i]);
      Owns(s', j, h) <==>
        || (j != i && Owns(s, j, h))
        || (j == n && Owns(s, i, h) && h < mid)
        || (j == n + 1 && Owns(s, i, h) && h >= mid)
  {
    GrowsKeepsRanges(s, s', i);
    var n := |s|;
    if 0 <= j < n {
      assert s'[j] == if j == i then s[j].(phase := Closing) else s[j];
    } else if j == n {
      assert InRange(s'[n], h) <==> InRange(s[i], h) && h < MidOf(s[i]);
    } else if j == n + 1 {
      assert InRange(s'[n + 1], h) <==> InRange(s[i], h) && h >= MidOf(s[i]);
    }
  }

  lemma GrowsKeepsPartition(s: Status, s': Status, i: nat)
    requires Grows(s, s', i) && ProperRanges(s) && s[i].phase.Active? && Partitioned(s)
    ensures Partitioned(s')
  {
    var n, mid := |s|, MidOf(s[i]);
    forall j, h ensures Owns(s', j, h) <==>
      (j != i && Owns(s, j, h)) || (j == n && Owns(s, i, h) && h < mid) || (j == n + 1 && Owns(s, i, h) && h >= mid)
    {
      GrowsOwners(s, s', i, j, h);
    }
    forall h | 0 <= h < FULL_HASH_RANGE_END ensures HasOwner(s', h) {
      assert HasOwner(s, h);
      var j :| Owns(s, j, h);
      assert if j != i then Owns(s', j, h) else if h < mid then Owns(s', n, h) else Owns(s', n + 1, h);
    }
  }

  lemma SplitKeepsCounts(c: Config, s: Status, i: nat, fifo: bool, now: int)
    requires i < |s| && s[i].phase.Active? && Counted(c, s) && ActiveCount(s) < Cap(c)
    ensures Counted(c, Apply(c, s, Split(i, fifo, now)))
  {
    SplitAddsOneActive(c, s, i, fifo, now);
  }

  lemma SplitKeepsInv(c: Config, s: Status, i: nat, fifo: bool, now: int)
    requires Sane(c) && TreeInv(c, s) && i < |s| && s[i].phase.Active? && ActiveCount(s) < Cap(c)
    ensures TreeInv(c, Apply(c, s, Split(i, fifo, now)))
    ensures Grows(s, Apply(c, s, Split(i, fifo, now)), i)
  {
    var s' := Apply(c, s, Split(i, fifo, now));
    SplitGrows(c, s, i, fifo, now);
    NumberedIdsDiffer(s');
    GrowsKeepsRanges(s, s', i);
    GrowsKeepsParents(s, s', i);
    GrowsKeepsPairs(s, s', i);
    GrowsKeepsPartition(s, s', i);
    SplitKeepsCounts(c, s, i, fifo, now);
  }

  // ---------------------------------------------------------------------------------------------------------------
  // Histories
  // ---------------------------------------------------------------------------------------------------------------

  /** The cap is an int32, so no history outgrows the IDs that can be read back. */
  predicate Sane(c: Config) {
    c.maxShards <= 0x7FFF_FFFF
  }

  lemma MoveKeepsInv(c: Config, s: Status, m: Move)
    requires Sane(c) && TreeInv(c, s) && Legal(c, s, m)
    ensures TreeInv(c, Apply(c, s, m)) && |Apply(c, s, m)| > 0
  {
    match m
    case Create(fifo, now) => CreateKeepsInv(c, fifo, now);
    case Split(i, fifo, now) => SplitKeepsInv(c, s, i, fifo, now);
    case Close(i) => CloseKeepsInv(c, s, i);
  }

  /**
   After any legal history that has begun: the Active ranges partition the key space, every other shard has exactly two
   children that cut its range at the midpoint, IDs are the positions, parents precede children, and there are
   2 * Active - 1 shards with at most MaxShards of them Active.
   */
  lemma {:induction false} HistoryKeepsInv(c: Config, moves: seq<Move>)
    requires Sane(c) && LegalHistory(c, moves)
    ensures TreeInv(c, Replay(c, moves)) && (|moves| > 0 ==> |Replay(c, moves)| > 0)
  {
    if |moves| > 0 {
      HistoryKeepsInv(c, moves[..|moves| - 1]);
      MoveKeepsInv(c, Replay(c, moves[..|moves| - 1]), moves[|moves| - 1]);
    }
  }

  /** At most MaxShards - 1 splits happen in a queue's life, and at most 2 * MaxShards - 1 shards ever exist. */
  lemma ShardsAreBounded(c: Config, moves: seq<Move>)
    requires Sane(c) && LegalHistory(c, moves) && |moves| > 0
    ensures |Replay(c, moves)| <= 2 * Cap(c) - 1
    ensures Splits(moves) <= Cap(c) - 1
  {
    HistoryKeepsInv(c, moves);
    EverySplitAddsTwo(c, moves);
  }

  function Splits(moves: seq<Move>): nat {
    if |moves| == 0 then 0 else Splits(moves[..|moves| - 1]) + if moves[|moves| - 1].Split? then 1 else 0
  }

  lemma {:induction false} EverySplitAddsTwo(c: Config, moves: seq<Move>)
    requires LegalHistory(c, moves) && |moves| > 0
    ensures |Replay(c, moves)| == 1 + 2 * Splits(moves)
  {
    var before := moves[..|moves| - 1];
    if |before| > 0 {
      EverySplitAddsTwo(c, before);
    } else {
      assert Replay(c, before) == [];
    }
  }
}
