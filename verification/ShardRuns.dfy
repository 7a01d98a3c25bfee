/** Over whole histories: where keys route, how deep and how narrow shards get, how fast they split, which topics exist. */
module ShardRuns {
  import opened Topology
  import opened ShardTree
  import opened ShardInvariants

  // ---------------------------------------------------------------------------------------------------------------
  // How a status develops
  // ---------------------------------------------------------------------------------------------------------------

  function Rank(p: Phase): int {
    match p
    case Unset => 0
    case Active => 0
    case Closing => 1
    case Closed => 2
  }

  /** Old shards keep everything but their phase, which only moves on; new shards come after them. */
  predicate Extends(s: Status, s': Status) {
    && |s| <= |s'|
    && forall k :: 0 <= k < |s| ==> s'[k] == s[k].(phase := s'[k].phase) && Rank(s[k].phase) <= Rank(s'[k].phase)
  }

  lemma GrowsExtends(s: Status, s': Status, i: nat)
    requires Grows(s, s', i) && s[i].phase.Active?
    ensures Extends(s, s')
  {
  }

  lemma ClosesExtends(s: Status, s': Status, i: nat)
    requires Closes(s, s', i)
    ensures Extends(s, s')
  {
  }

  lemma MoveExtends(c: Config, s: Status, m: Move)
    requires Sane(c) && TreeInv(c, s) && Legal(c, s, m)
    ensures Extends(s, Apply(c, s, m))
  {
    match m
    case Create(_, _) =>
    case Split(i, fifo, now) => SplitKeepsInv(c, s, i, fifo, now); GrowsExtends(s, Apply(c, s, m), i);
    case Close(i) => ClosesExtends(s, Apply(c, s, m), i);
  }

  lemma {:induction false} LegalPrefix(c: Config, moves: seq<Move>, k: nat)
    requires LegalHistory(c, moves) && k <= |moves|
    ensures LegalHistory(c, moves[..k])
  {
    if k == |moves| {
      assert moves[..k] == moves;
    } else {
      LegalPrefix(c, moves[..|moves| - 1], k);
      assert moves[..|moves| - 1][..k] == moves[..k];
    }
  }

  /** The status at any point of a history is extended by the status at its end. */
  lemma {:induction false} HistoryExtends(c: Config, moves: seq<Move>, k: nat)
    requires Sane(c) && LegalHistory(c, moves) && k <= |moves|
    ensures Extends(Replay(c, moves[..k]), Replay(c, moves))
  {
    if k == |moves| {
      assert moves[..k] == moves;
    } else {
      var before := moves[..|moves| - 1];
      HistoryExtends(c, before, k);
      assert before[..k] == moves[..k];
      HistoryKeepsInv(c, before);
      MoveExtends(c, Replay(c, before), moves[|moves| - 1]);
    }
  }

  // ---------------------------------------------------------------------------------------------------------------
  // Descent
  // ---------------------------------------------------------------------------------------------------------------

  ghost function ParentOf(s: Status, j: int): (p: int)
    requires 0 <= j < |s| && HasParent(s, j)
    ensures 0 <= p < j && IsChild(s, j, p)
  {
    var p :| 0 <= p < j && IsChild(s, j, p);
    p
  }

  /** Shard d is shard a or was split from one of its descendants. */
  ghost predicate Descendant(s: Status, a: int, d: int)
    requires ParentsFirst(s) && 0 <= d < |s|
    decreases d
  {
    d == a || (d > 0 && HasParent(s, d) && Descendant(s, a, ParentOf(s, d)))
  }

  ghost function Depth(s: Status, j: int): nat
    requires ParentsFirst(s) && 0 <= j < |s|
    decreases j
  {
    if j == 0 || !HasParent(s, j) then 0 else 1 + Depth(s, ParentOf(s, j))
  }

  lemma ParentStays(s: Status, s': Status, j: int)
    requires ParentsFirst(s) && ParentsFirst(s') && Extends(s, s') && 0 < j < |s|
    ensures HasParent(s, j) && HasParent(s', j) && ParentOf(s', j) == ParentOf(s, j)
  {
    assert HasParent(s, j);
    var p, p' := ParentOf(s, j), ParentOf(s', j);
    assert s'[p].id == s[p].id == s[j].parentId == s'[j].parentId == s'[p'].id;
  }

  lemma {:induction false} DescentStays(s: Status, s': Status, a: int, d: int)
    requires ParentsFirst(s) && ParentsFirst(s') && Extends(s, s') && 0 <= d < |s|
    ensures Descendant(s', a, d) == Descendant(s, a, d)
    decreases d
  {
    if d > 0 {
      ParentStays(s, s', d);
      DescentStays(s, s', a, ParentOf(s, d));
    }
  }

  lemma {:induction false} DepthStays(s: Status, s': Status, j: int)
    requires ParentsFirst(s) && ParentsFirst(s') && Extends(s, s') && 0 <= j < |s|
    ensures Depth(s', j) == Depth(s, j)
    decreases j
  {
    if j > 0 {
      ParentStays(s, s', j);
      DepthStays(s, s', ParentOf(s, j));
    }
  }

  /** A new shard's parent is the shard that was split. */
  lemma NewParent(s: Status, s': Status, i: nat, j: int)
    requires Grows(s, s', i) && ParentsFirst(s') && |s| <= j < |s'|
    ensures HasParent(s', j) && ParentOf(s', j) == i
  {
    assert HasParent(s', j);
    assert s'[ParentOf(s', j)].id == s'[i].id;
  }

  /** Whoever owns a key of some shard's range descends from that shard. */
  ghost predicate OwnersDescend(s: Status)
    requires ParentsFirst(s)
  {
    forall a, j, h :: 0 <= a < |s| && InRange(s[a], h) && Owns(s, j, h) ==> Descendant(s, a, j)
  }

  lemma GrowsKeepsDescent(s: Status, s': Status, i: nat)
    requires Grows(s, s', i) && ProperRanges(s) && s[i].phase.Active? && Partitioned(s)
    requires ParentsFirst(s) && ParentsFirst(s') && Extends(s, s') && OwnersDescend(s)
    ensures OwnersDescend(s')
  {
    forall a, j, h | 0 <= a < |s'| && InRange(s'[a], h) && Owns(s', j, h) ensures Descendant(s', a, j) {
      GrowsOwners(s, s', i, j, h);
      GrowsKeepsRanges(s, s', i);
      if a < |s| {
        if j < |s| {
          DescentStays(s, s', a, j);
        } else {
          DescentStays(s, s', a, i);
          NewParent(s, s', i, j);
        }
      } else {
        assert Owns(s, i, h);
      }
    }
  }

  lemma CloseKeepsDescent(s: Status, s': Status, i: nat)
    requires Closes(s, s', i) && ParentsFirst(s) && ParentsFirst(s') && Extends(s, s') && OwnersDescend(s)
    ensures OwnersDescend(s')
  {
    forall a, j, h | 0 <= a < |s'| && InRange(s'[a], h) && Owns(s', j, h) ensures Descendant(s', a, j) {
      assert Owns(s, j, h);
      DescentStays(s, s', a, j);
    }
  }

  ghost predicate DescentInv(s: Status) {
    |s| > 0 ==> ParentsFirst(s) && OwnersDescend(s)
  }

  lemma MoveKeepsDescent(c: Config, s: Status, m: Move)
    requires Sane(c) && TreeInv(c, s) && DescentInv(s) && Legal(c, s, m)
    ensures DescentInv(Apply(c, s, m))
  {
    var s' := Apply(c, s, m);
    MoveKeepsInv(c, s, m);
    match m
    case Create(_, _) =>
    case Split(i, fifo, now) =>
      SplitKeepsInv(c, s, i, fifo, now);
      GrowsExtends(s, s', i);
      GrowsKeepsDescent(s, s', i);
    case Close(i) =>
      ClosesExtends(s, s', i);
      CloseKeepsDescent(s, s', i);
  }

  lemma {:induction false} HistoryKeepsDescent(c: Config, moves: seq<Move>)
    requires Sane(c) && LegalHistory(c, moves)
    ensures DescentInv(Replay(c, moves))
  {
    if |moves| > 0 {
      HistoryKeepsDescent(c, moves[..|moves| - 1]);
      HistoryKeepsInv(c, moves[..|moves| - 1]);
      MoveKeepsDescent(c, Replay(c, moves[..|moves| - 1]), moves[|moves| - 1]);
    }
  }

  /**
   Over any stretch of a queue's life, the shard that owns a key stays the same while it is Active, and otherwise the
   key has moved down the tree to one of its descendants.
   */
  lemma KeysOnlyDescend(c: Config, moves: seq<Move>, k: nat, i: int, j: int, h: int)
    requires Sane(c) && LegalHistory(c, moves) && 0 < k <= |moves|
    requires Owns(Replay(c, moves[..k]), i, h) && Owns(Replay(c, moves), j, h)
    ensures TreeInv(c, Replay(c, moves)) && |Replay(c, moves)| > 0
    ensures Descendant(Replay(c, moves), i, j)
    ensures i < |Replay(c, moves)| && (Replay(c, moves)[i].phase.Active? ==> j == i)
  {
    HistoryExtends(c, moves, k);
    HistoryKeepsInv(c, moves);
    HistoryKeepsDescent(c, moves);
    assert InRange(Replay(c, moves)[i], h);
    assert Replay(c, moves)[i].phase.Active? ==> Owns(Replay(c, moves), i, h);
  }

  /** A key of a shard that is no longer Active is owned by one of its proper descendants. */
  lemma ClosedRangesAreCovered(s: Status, i: nat, h: int)
    requires ParentsFirst(s) && OwnersDescend(s) && Partitioned(s) && ProperRanges(s)
    requires i < |s| && !s[i].phase.Active? && InRange(s[i], h)
    ensures exists j :: Owns(s, j, h) && j != i && Descendant(s, i, j)
  {
    assert HasOwner(s, h);
    var j :| Owns(s, j, h);
    assert Descendant(s, i, j);
  }

  lemma ClosingMovesNoKey(s: Status, s': Status, i: nat, j: int, h: int)
    requires Closes(s, s', i)
    ensures Owns(s', j, h) <==> Owns(s, j, h)
  {
  }

  /**
   Draining is safe: when a Closing shard's topic is deleted, every key of its range is owned by an Active descendant,
   and closing the shard changes nobody's owner.
   */
  lemma DrainsMoveNoKey(c: Config, moves: seq<Move>, i: nat, j: int, h: int)
    requires Sane(c) && LegalHistory(c, moves) && Legal(c, Replay(c, moves), Close(i))
    ensures TreeInv(c, Replay(c, moves)) && |Replay(c, moves)| > 0
    ensures InRange(Replay(c, moves)[i], h) ==>
      exists d :: Owns(Replay(c, moves), d, h) && d != i && Descendant(Replay(c, moves), i, d)
    ensures Owns(Apply(c, Replay(c, moves), Close(i)), j, h) <==> Owns(Replay(c, moves), j, h)
  {
    HistoryKeepsInv(c, moves);
    HistoryKeepsDescent(c, moves);
    if InRange(Replay(c, moves)[i], h) {
      ClosedRangesAreCovered(Replay(c, moves), i, h);
    }
    ClosingMovesNoKey(Replay(c, moves), Apply(c, Replay(c, moves), Close(i)), i, j, h);
  }

  // ---------------------------------------------------------------------------------------------------------------
  // Depth, width and age
  // ---------------------------------------------------------------------------------------------------------------

  /** A number halved d times, rounding down each time. */
  function Halved(n: nat, d: nat): (r: nat)
    ensures r <= n
  {
    if d == 0 then n else Halved(n, d - 1) / 2
  }

  function Pow2(d: nat): (r: nat)
    ensures r > 0
  {
    if d == 0 then 1 else 2 * Pow2(d - 1)
  }

  lemma DivDiv(n: nat, p: nat)
    requires p > 0
    ensures n / p / 2 == n / (2 * p)
  {
    var q := n / p;
    var r := n % p;
    assert n == q * p + r;
    assert n == (q / 2) * (2 * p) + ((q % 2) * p + r);
    DivUnique(n, 2 * p, q / 2, (q % 2) * p + r);
  }

  lemma MulMonotone(a: int, b: int, d: nat)
    requires a <= b
    ensures a * d <= b * d
  {
    assert b * d - a * d == (b - a) * d;
  }

  lemma DivUnique(n: nat, d: nat, q: nat, r: nat)
    requires d > 0 && n == q * d + r && r < d
    ensures n / d == q
  {
    var k := n / d;
    assert n == k * d + n % d;
    if k > q {
      MulMonotone(q + 1, k, d);
    } else if k < q {
      MulMonotone(k + 1, q, d);
    }
  }

  lemma {:induction false} HalvedIsDivision(n: nat, d: nat)
    ensures Halved(n, d) == n / Pow2(d)
  {
    if d > 0 {
      HalvedIsDivision(n, d - 1);
      DivDiv(n, Pow2(d - 1));
    }
  }

  lemma {:induction false} HalvedFalls(n: nat, d: nat, e: nat)
    requires d <= e
    ensures Halved(n, e) <= Halved(n, d)
  {
    if d < e {
      HalvedFalls(n, d, e - 1);
    }
  }

  function Width(x: ShardStatus): int {
    x.hashRangeEnd - x.hashRangeStart
  }

  /** What depth bounds: the width from below, the age from below, and the number of shards. */
  ghost predicate DepthInv(c: Config, s: Status)
    requires ParentsFirst(s)
  {
    forall j :: 0 <= j < |s| ==> DepthInvAt(c, s, j)
  }

  ghost predicate DepthInvAt(c: Config, s: Status, j: int)
    requires ParentsFirst(s) && 0 <= j < |s|
  {
    && Width(s[j]) >= Halved(FULL_HASH_RANGE_END, Depth(s, j))
    && s[j].createdAt > 0 && s[j].createdAt >= s[0].createdAt + Depth(s, j) * c.cooldown
    && 2 * Depth(s, j) <= |s| - 1
  }

  lemma NewDepth(c: Config, s: Status, s': Status, i: nat, j: int, now: int)
    requires Grows(s, s', i) && ProperRanges(s) && ParentsFirst(s) && ParentsFirst(s') && Extends(s, s') && DepthInv(c, s)
    requires |s| <= j < |s'| && s'[j].createdAt == now && now > 0 && now >= s[i].createdAt + c.cooldown
    ensures Depth(s', j) == Depth(s, i) + 1
    ensures Width(s'[j]) >= Width(s[i]) / 2
    ensures s'[j].createdAt >= s[0].createdAt + Depth(s', j) * c.cooldown
  {
    NewParent(s, s', i, j);
    DepthStays(s, s', i);
    SplitHashRangeHalves(s[i].hashRangeStart, s[i].hashRangeEnd);
    assert DepthInvAt(c, s, i);
    OneMoreCooldown(Depth(s, i), c.cooldown);
  }

  lemma OneMoreCooldown(d: nat, cooldown: int)
    ensures (d + 1) * cooldown == d * cooldown + cooldown
  {
  }

  lemma GrowsKeepsDepths(c: Config, s: Status, s': Status, i: nat, now: int)
    requires Grows(s, s', i) && ProperRanges(s) && ParentsFirst(s) && ParentsFirst(s') && Extends(s, s') && DepthInv(c, s)
    requires s'[|s|].createdAt == now && s'[|s| + 1].createdAt == now && now > 0 && now >= s[i].createdAt + c.cooldown
    ensures DepthInv(c, s')
  {
    forall j | 0 <= j < |s'| ensures DepthInvAt(c, s', j) {
      assert DepthInvAt(c, s, if j < |s| then j else i);
      if j < |s| {
        DepthStays(s, s', j);
      } else {
        NewDepth(c, s, s', i, j, now);
      }
    }
  }

  lemma CloseKeepsDepths(c: Config, s: Status, s': Status, i: nat)
    requires Closes(s, s', i) && ParentsFirst(s) && ParentsFirst(s') && Extends(s, s') && DepthInv(c, s)
    ensures DepthInv(c, s')
  {
    forall j | 0 <= j < |s'| ensures DepthInvAt(c, s', j) {
      assert DepthInvAt(c, s, j);
      DepthStays(s, s', j);
    }
  }

  ghost predicate AllDepths(c: Config, s: Status) {
    |s| > 0 ==> ParentsFirst(s) && DepthInv(c, s)
  }

  lemma CreateKeepsDepths(c: Config, fifo: bool, now: int)
    requires now > 0 && TreeInv(c, Apply(c, [], Create(fifo, now)))
    ensures AllDepths(c, Apply(c, [], Create(fifo, now)))
  {
    var s := Apply(c, [], Create(fifo, now));
    assert Depth(s, 0) == 0;
    assert DepthInvAt(c, s, 0);
  }

  lemma SplitKeepsDepths(c: Config, s: Status, i: nat, fifo: bool, now: int)
    requires Sane(c) && TreeInv(c, s) && AllDepths(c, s) && Legal(c, s, Split(i, fifo, now))
    ensures AllDepths(c, Apply(c, s, Split(i, fifo, now)))
  {
    var s' := Apply(c, s, Split(i, fifo, now));
    SplitKeepsInv(c, s, i, fifo, now);
    SplitGrows(c, s, i, fifo, now);
    ChildrenAre(c, s, i, fifo, now);
    assert s'[|s|..][0] == s'[|s|] && s'[|s|..][1] == s'[|s| + 1];
    GrowsExtends(s, s', i);
    assert DepthInvAt(c, s, i);
    GrowsKeepsDepths(c, s, s', i, now);
  }

  lemma MoveKeepsDepths(c: Config, s: Status, m: Move)
    requires Sane(c) && TreeInv(c, s) && AllDepths(c, s) && Legal(c, s, m)
    ensures AllDepths(c, Apply(c, s, m))
  {
    MoveKeepsInv(c, s, m);
    match m
    case Create(fifo, now) => CreateKeepsDepths(c, fifo, now);
    case Split(i, fifo, now) => SplitKeepsDepths(c, s, i, fifo, now);
    case Close(i) =>
      ClosesExtends(s, Apply(c, s, m), i);
      CloseKeepsDepths(c, s, Apply(c, s, m), i);
  }

  lemma {:induction false} HistoryKeepsDepths(c: Config, moves: seq<Move>)
    requires Sane(c) && LegalHistory(c, moves)
    ensures AllDepths(c, Replay(c, moves))
  {
    if |moves| > 0 {
      HistoryKeepsDepths(c, moves[..|moves| - 1]);
      HistoryKeepsInv(c, moves[..|moves| - 1]);
      MoveKeepsDepths(c, Replay(c, moves[..|moves| - 1]), moves[|moves| - 1]);
    }
  }

  /**
   A shard at depth d owns at least (2^32 - 1) / 2^d keys, rounded down, was created at least d cooldowns after the
   first shard, and d is less than MaxShards.
   */
  lemma DepthBounds(c: Config, moves: seq<Move>, j: nat)
    requires Sane(c) && LegalHistory(c, moves) && j < |Replay(c, moves)|
    ensures TreeInv(c, Replay(c, moves))
    ensures
      var s := Replay(c, moves);
      var d := Depth(s, j);
      && Width(s[j]) >= FULL_HASH_RANGE_END / Pow2(d)
      && s[j].createdAt >= s[0].createdAt + d * c.cooldown
      && d < Cap(c)
  {
    HistoryKeepsInv(c, moves);
    HistoryKeepsDepths(c, moves);
    assert DepthInvAt(c, Replay(c, moves), j);
    HalvedIsDivision(FULL_HASH_RANGE_END, Depth(Replay(c, moves), j));
  }
}
