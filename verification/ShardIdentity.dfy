/**
 What an ID stands for in two histories that go apart. After a lost status write the operator may number other shards
 with IDs it has already published; an ID keeps its range exactly as long as the histories make the same splits.
 */
module ShardIdentity {
  import opened ShardTree
  import opened ShardInvariants
  import opened ShardRuns

  /** The shards a history splits, in order. */
  function SplitOrder(moves: seq<Move>): (order: seq<nat>)
    ensures |order| == Splits(moves)
  {
    if |moves| == 0 then []
    else
      var last := moves[|moves| - 1];
      SplitOrder(moves[..|moves| - 1]) + if last.Split? then [last.i] else []
  }

  predicate SameRange(x: ShardStatus, y: ShardStatus) {
    x.hashRangeStart == y.hashRangeStart && x.hashRangeEnd == y.hashRangeEnd
  }

  /** The same ranges under the same positions, and the same shards Active. */
  predicate SameShape(s: Status, t: Status) {
    |s| == |t| && forall i :: 0 <= i < |s| ==> SameRange(s[i], t[i]) && (s[i].phase.Active? <==> t[i].phase.Active?)
  }

  lemma CloseKeepsShape(c: Config, s: Status, t: Status, m: Move)
    requires m.Close? && Legal(c, s, m) && SameShape(s, t)
    ensures SameShape(Apply(c, s, m), t)
  {
  }

  lemma SplitKeepsShape(c: Config, s: Status, t: Status, m: Move, n: Move)
    requires m.Split? && n.Split? && m.i == n.i && m.i < |s| && SameShape(s, t)
    ensures SameShape(Apply(c, s, m), Apply(c, t, n))
  {
  }

  lemma ShapeIsSymmetric(s: Status, t: Status)
    requires SameShape(s, t)
    ensures SameShape(t, s)
  {
  }

  /** Creation only comes first. */
  lemma CreateIsFirst(c: Config, moves: seq<Move>)
    requires Sane(c) && LegalHistory(c, moves) && |moves| > 0 && moves[|moves| - 1].Create?
    ensures |moves| == 1
  {
    HistoryKeepsInv(c, moves[..|moves| - 1]);
  }

  lemma FirstIsCreate(c: Config, moves: seq<Move>)
    requires LegalHistory(c, moves) && |moves| == 1
    ensures moves[0].Create?
  {
    assert moves[..0] == [];
  }

  lemma {:induction false} SameSplitsSameShape(c: Config, a: seq<Move>, b: seq<Move>)
    requires Sane(c) && LegalHistory(c, a) && LegalHistory(c, b) && |a| > 0 && |b| > 0 && SplitOrder(a) == SplitOrder(b)
    ensures SameShape(Replay(c, a), Replay(c, b))
    decreases |a| + |b|
  {
    var x, y := a[|a| - 1], b[|b| - 1];
    var a', b' := a[..|a| - 1], b[..|b| - 1];
    if |a| == 1 { FirstIsCreate(c, a); }
    if |b| == 1 { FirstIsCreate(c, b); }
    if x.Close? {
      SameSplitsSameShape(c, a', b);
      CloseKeepsShape(c, Replay(c, a'), Replay(c, b), x);
    } else if y.Close? {
      SameSplitsSameShape(c, a, b');
      ShapeIsSymmetric(Replay(c, a), Replay(c, b'));
      CloseKeepsShape(c, Replay(c, b'), Replay(c, a), y);
    } else {
      LastSplits(c, a, b);
      if x.Split? {
        SameSplitsSameShape(c, a', b');
        SplitKeepsShape(c, Replay(c, a'), Replay(c, b'), x, y);
      } else {
        CreateIsFirst(c, a);
        CreateIsFirst(c, b);
      }
    }
  }

  lemma LastSplits(c: Config, a: seq<Move>, b: seq<Move>)
    requires Sane(c) && LegalHistory(c, a) && LegalHistory(c, b) && |a| > 0 && |b| > 0 && SplitOrder(a) == SplitOrder(b)
    requires !a[|a| - 1].Close? && !b[|b| - 1].Close?
    ensures
      var x, y := a[|a| - 1], b[|b| - 1];
      && x.Split? == y.Split?
      && (x.Split? ==> x.i == y.i && |a| > 1 && |b| > 1 && SplitOrder(a[..|a| - 1]) == SplitOrder(b[..|b| - 1]))
  {
    var x, y, order := a[|a| - 1], b[|b| - 1], SplitOrder(a);
    if x.Create? { CreateIsFirst(c, a); assert a[..0] == []; }
    if y.Create? { CreateIsFirst(c, b); assert b[..0] == []; }
    if |a| == 1 { FirstIsCreate(c, a); }
    if |b| == 1 { FirstIsCreate(c, b); }
    if x.Split? && y.Split? {
      assert order[..|order| - 1] == SplitOrder(a[..|a| - 1]) == SplitOrder(b[..|b| - 1]);
      assert order[|order| - 1] == x.i == y.i;
    }
  }

  // ---------------------------------------------------------------------------------------------------------------
  // Histories that go apart
  // ---------------------------------------------------------------------------------------------------------------

  /** How long a history is before its split number m, counted from 0. */
  lemma {:induction false} UpToSplit(c: Config, moves: seq<Move>, m: nat) returns (k: nat)
    requires Sane(c) && LegalHistory(c, moves) && |moves| > 0 && m <= |SplitOrder(moves)|
    ensures 0 < k <= |moves| && SplitOrder(moves[..k]) == SplitOrder(moves)[..m]
    ensures m < |SplitOrder(moves)| ==> k < |moves| && moves[k].Split? && moves[k].i == SplitOrder(moves)[m]
    decreases |moves|
  {
    var n := |moves| - 1;
    var before := moves[..n];
    if m == |SplitOrder(moves)| {
      k := |moves|;
      assert moves[..k] == moves;
    } else if m == |SplitOrder(before)| {
      k := n;
      if n == 0 { FirstIsCreate(c, moves); }
    } else {
      k := UpToSplit(c, before, m);
      assert before[..k] == moves[..k];
    }
  }

  /** Two histories that make the same first m splits give the first 2m + 1 shards the same ranges. */
  lemma SameSplitsSameRanges(c: Config, a: seq<Move>, b: seq<Move>, m: nat, i: nat)
    requires Sane(c) && LegalHistory(c, a) && LegalHistory(c, b) && |a| > 0 && |b| > 0
    requires m <= |SplitOrder(a)| && m <= |SplitOrder(b)| && SplitOrder(a)[..m] == SplitOrder(b)[..m] && i < 2 * m + 1
    ensures i < |Replay(c, a)| && i < |Replay(c, b)| && SameRange(Replay(c, a)[i], Replay(c, b)[i])
  {
    var k := UpToSplit(c, a, m);
    var l := UpToSplit(c, b, m);
    LegalPrefix(c, a, k);
    LegalPrefix(c, b, l);
    SameSplitsSameShape(c, a[..k], b[..l]);
    EverySplitAddsTwo(c, a[..k]);
    HistoryExtends(c, a, k);
    HistoryExtends(c, b, l);
  }

  /** The next split of a history makes shards 2m + 1 and 2m + 2 out of the range of the shard it splits. */
  lemma NextSplitMakes(c: Config, a: seq<Move>, k: nat, m: nat, h: int)
    requires Sane(c) && LegalHistory(c, a) && 0 < k < |a| && a[k].Split? && |SplitOrder(a[..k])| == m
    ensures LegalHistory(c, a[..k])
    ensures
      var s, t := Replay(c, a[..k]), Replay(c, a);
      && |s| == 2 * m + 1 && |t| > 2 * m + 2 && a[k].i < |s| && s[a[k].i].phase.Active?
      && (InRange(t[2 * m + 1], h) || InRange(t[2 * m + 2], h) ==> InRange(s[a[k].i], h))
  {
    LegalPrefix(c, a, k);
    LegalPrefix(c, a, k + 1);
    assert a[..k + 1][..k] == a[..k];
    EverySplitAddsTwo(c, a[..k]);
    HistoryKeepsInv(c, a[..k]);
    var s := Replay(c, a[..k]);
    SplitKeepsInv(c, s, a[k].i, a[k].fifo, a[k].now);
    GrowsKeepsRanges(s, Replay(c, a[..k + 1]), a[k].i);
    HistoryExtends(c, a, k + 1);
  }

  lemma ActiveRangesAreDisjoint(c: Config, a: seq<Move>, t: Status, i: nat, j: nat, h: int)
    requires Sane(c) && LegalHistory(c, a) && |a| > 0 && SameShape(Replay(c, a), t) && i < |t| && j < |t| && i != j
    requires t[j].phase.Active? && Replay(c, a)[i].phase.Active?
    ensures !(InRange(Replay(c, a)[i], h) && InRange(t[j], h))
  {
    HistoryKeepsInv(c, a);
    assert Owns(Replay(c, a), i, h) && Owns(Replay(c, a), j, h) ==> i == j;
  }

  /** The IDs n and n + 1 stand for disjoint ranges in the two statuses. */
  predicate GivenAnew(s: Status, t: Status, n: nat, x: int) {
    && |s| > n + 1 && |t| > n + 1
    && (InRange(s[n], x) || InRange(s[n + 1], x) ==> !InRange(t[n], x) && !InRange(t[n + 1], x))
  }

  lemma ShardsCountSplits(c: Config, a: seq<Move>)
    requires LegalHistory(c, a) && |a| > 0
    ensures |Replay(c, a)| == 2 * |SplitOrder(a)| + 1
  {
    EverySplitAddsTwo(c, a);
  }

  /** Two split orders agree up to m and differ there. */
  predicate ForkAt(a: seq<nat>, b: seq<nat>, m: nat) {
    m < |a| && m < |b| && a[..m] == b[..m] && a[m] != b[m]
  }

  /**
   Where two histories first split different shards, the next two IDs stand for disjoint ranges in them. So an ID that is
   published in both maps keeps its range up to the first difference, and from there on it has been given away anew.
   */
  lemma DifferentSplitsDifferentRanges(c: Config, a: seq<Move>, b: seq<Move>, m: nat, n: nat, h: int)
    requires Sane(c) && LegalHistory(c, a) && LegalHistory(c, b) && |a| > 0 && |b| > 0
    requires ForkAt(SplitOrder(a), SplitOrder(b), m) && n == 2 * m + 1
    ensures GivenAnew(Replay(c, a), Replay(c, b), n, h)
  {
    var k := UpToSplit(c, a, m);
    var l := UpToSplit(c, b, m);
    NextSplitMakes(c, a, k, m, h);
    NextSplitMakes(c, b, l, m, h);
    SameSplitsSameShape(c, a[..k], b[..l]);
    ActiveRangesAreDisjoint(c, a[..k], Replay(c, b[..l]), a[k].i, b[l].i, h);
  }
}
