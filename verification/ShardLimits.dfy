/** Where the hash ranges run out: the cap up to which no range is ever empty, and the half of the space no key reaches. */
module ShardLimits {
  import opened Decimal
  import opened Murmur
  import opened Topology
  import opened ShardTree
  import opened ShardInvariants
  import opened ShardRuns

  predicate NoEmptyRange(s: Status) {
    forall j :: 0 <= j < |s| ==> Width(s[j]) > 0
  }

  ghost predicate NeverAnEmptyRange(c: Config) {
    forall moves :: LegalHistory(c, moves) ==> NoEmptyRange(Replay(c, moves))
  }

  lemma LastHalvings()
    ensures Halved(FULL_HASH_RANGE_END, 31) == 1 && Halved(FULL_HASH_RANGE_END, 32) == 0
  {
    assert Pow2(10) == 0x400;
    assert Pow2(20) == 0x10_0000;
    assert Pow2(31) == 0x8000_0000;
    HalvedIsDivision(FULL_HASH_RANGE_END, 31);
  }

  lemma SmallCapKeepsWidth(c: Config, moves: seq<Move>)
    requires Sane(c) && LegalHistory(c, moves) && Cap(c) <= 32
    ensures NoEmptyRange(Replay(c, moves))
  {
    HistoryKeepsInv(c, moves);
    var s := Replay(c, moves);
    forall j | 0 <= j < |s| ensures Width(s[j]) > 0 {
      DepthBounds(c, moves, j);
      HalvedIsDivision(FULL_HASH_RANGE_END, Depth(s, j));
      HalvedFalls(FULL_HASH_RANGE_END, Depth(s, j), 31);
      LastHalvings();
    }
  }

  // ---------------------------------------------------------------------------------------------------------------
  // The run that always splits the lowest shard
  // ---------------------------------------------------------------------------------------------------------------

  function Wait(c: Config): nat {
    if c.cooldown > 0 then c.cooldown else 0
  }

  function Lowest(m: nat): nat {
    if m == 0 then 0 else 2 * m - 1
  }

  function LowestSplits(c: Config, m: nat): (moves: seq<Move>)
    ensures |moves| == m + 1
  {
    if m == 0 then [Create(false, 1)]
    else LowestSplits(c, m - 1) + [Split(Lowest(m - 1), false, 1 + m * Wait(c))]
  }

  ghost predicate IsLowest(c: Config, s: Status, m: nat) {
    && |s| == 2 * m + 1 && s[Lowest(m)].phase.Active?
    && s[Lowest(m)].hashRangeStart == 0 && s[Lowest(m)].hashRangeEnd == Halved(FULL_HASH_RANGE_END, m)
    && s[Lowest(m)].createdAt == 1 + m * Wait(c)
  }

  lemma LowestGrows(c: Config, s: Status, s': Status, m: nat)
    requires IsLowest(c, s, m) && Grows(s, s', Lowest(m)) && ProperRanges(s)
    requires s'[|s|].createdAt == 1 + (m + 1) * Wait(c)
    ensures IsLowest(c, s', m + 1)
  {
    SplitHashRangeHalves(0, s[Lowest(m)].hashRangeEnd);
  }

  lemma LowestMaySplit(c: Config, s: Status, m: nat)
    requires IsLowest(c, s, m) && Counted(c, s) && m + 1 < Cap(c)
    ensures Legal(c, s, Split(Lowest(m), false, 1 + (m + 1) * Wait(c)))
  {
    assert (m + 1) * Wait(c) == m * Wait(c) + Wait(c);
  }

  lemma LowestSplitsAgain(c: Config, s: Status, m: nat)
    requires IsLowest(c, s, m) && Numbered(s) && ProperRanges(s) && |s| + 2 < INT_MAX
    ensures IsLowest(c, Apply(c, s, Split(Lowest(m), false, 1 + (m + 1) * Wait(c))), m + 1)
  {
    var i, now := Lowest(m), 1 + (m + 1) * Wait(c);
    var s' := Apply(c, s, Split(i, false, now));
    SplitGrows(c, s, i, false, now);
    ChildrenAre(c, s, i, false, now);
    assert s'[|s|] == s'[|s|..][0] == Children(c, s, i, false, now)[0];
    LowestGrows(c, s, s', m);
  }

  lemma {:induction false} LowestSplitsAreLegal(c: Config, m: nat)
    requires Sane(c) && m < Cap(c)
    ensures LegalHistory(c, LowestSplits(c, m)) && IsLowest(c, Replay(c, LowestSplits(c, m)), m)
  {
    var moves := LowestSplits(c, m);
    var before := moves[..m];
    if m == 0 {
      assert before == [];
    } else {
      assert before == LowestSplits(c, m - 1);
      LowestSplitsAreLegal(c, m - 1);
      HistoryKeepsInv(c, before);
      LowestMaySplit(c, Replay(c, before), m - 1);
      LowestSplitsAgain(c, Replay(c, before), m - 1);
    }
  }

  /** No history ever creates an empty range if and only if MaxShards is at most 32. */
  lemma NoEmptyRangeIffCapAtMost32(c: Config)
    requires Sane(c)
    ensures NeverAnEmptyRange(c) <==> Cap(c) <= 32
  {
    if Cap(c) <= 32 {
      forall moves | LegalHistory(c, moves) ensures NoEmptyRange(Replay(c, moves)) {
        SmallCapKeepsWidth(c, moves);
      }
    } else {
      LowestSplitsAreLegal(c, 32);
      LastHalvings();
      assert Width(Replay(c, LowestSplits(c, 32))[Lowest(32)]) == 0;
    }
  }

  // ---------------------------------------------------------------------------------------------------------------
  // The unused half
  // ---------------------------------------------------------------------------------------------------------------

  lemma RootOwnedAll(c: Config, moves: seq<Move>)
    requires Sane(c) && LegalHistory(c, moves) && |moves| > 0
    ensures
      var s := Replay(c, moves);
      |s| > 0 && s[0].hashRangeStart == 0 && s[0].hashRangeEnd == FULL_HASH_RANGE_END
  {
    LegalPrefix(c, moves, 1);
    assert moves[..1][..0] == [];
    HistoryExtends(c, moves, 1);
  }

  /** Shards 1 and 2 are the children of the first shard. */
  lemma FirstChildren(c: Config, s: Status)
    requires TreeInv(c, s) && |s| > 1 && s[0].hashRangeStart == 0 && s[0].hashRangeEnd == FULL_HASH_RANGE_END
    ensures |s| > 2 && s[1].hashRangeStart == 0 && s[1].hashRangeEnd == 0x7FFF_FFFF == s[2].hashRangeStart
    ensures s[2].hashRangeEnd == FULL_HASH_RANGE_END
  {
    assert HasParent(s, 1);
    assert IsChild(s, 1, 0);
    assert !Childless(s, 0);
    assert CutInTwo(s, 0);
    var a :| IsPair(s, 0, a) && OnlyChildren(s, 0, a);
  }

  lemma LowerHalfDescends(c: Config, moves: seq<Move>, i: int, h: int)
    requires Sane(c) && LegalHistory(c, moves) && |Replay(c, moves)| > 1
    requires Owns(Replay(c, moves), i, h) && 0 <= h <= 0x7FFF_FFFF
    ensures TreeInv(c, Replay(c, moves)) && |Replay(c, moves)| > 2
    ensures
      if h == 0x7FFF_FFFF then Descendant(Replay(c, moves), 2, i)
      else Descendant(Replay(c, moves), 1, i) && !InRange(Replay(c, moves)[2], h)
  {
    var s := Replay(c, moves);
    HistoryKeepsInv(c, moves);
    HistoryKeepsDescent(c, moves);
    RootOwnedAll(c, moves);
    FirstChildren(c, s);
    assert InRange(s[1], h) || InRange(s[2], h);
  }

  /**
   The key space is twice as wide as the hash: a routing key's hash is at most 0x7FFFFFFF, and that is where the first
   split cuts. So once a queue has split, every key but those with that single hash is owned by a descendant of
   shard 1, and shard 2 and all its descendants share the one hash.
   */
  lemma FirstSplitIsLopsided(c: Config, moves: seq<Move>, i: int, key: Key)
    requires Sane(c) && LegalHistory(c, moves) && |Replay(c, moves)| > 1 && Owns(Replay(c, moves), i, HashKey(key))
    ensures TreeInv(c, Replay(c, moves)) && |Replay(c, moves)| > 2
    ensures
      if HashKey(key) == 0x7FFF_FFFF then Descendant(Replay(c, moves), 2, i)
      else Descendant(Replay(c, moves), 1, i) && !InRange(Replay(c, moves)[2], HashKey(key))
  {
    LowerHalfDescends(c, moves, i, HashKey(key));
  }
}
