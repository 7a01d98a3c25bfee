/**
 What a lost status write does to the maps that are published before and after it. The operator publishes a map and then
 writes the status; when the write is lost, the next reconcile starts from the old status, but the samples of the shards
 that were split are gone, so it cannot split the same shards again.
 */
module LostWrites {
  import opened Options
  import opened Murmur
  import opened Topology
  import opened Router
  import opened ShardTree
  import opened ShardInvariants
  import opened ShardRuns
  import opened ShardTopics
  import opened ShardIdentity
  import opened Reconcile
  import opened ReconcileMoves
  import opened ReconcileSplitting
  import opened ReconcileLaws
  import opened ReconcileRoutes

  /** The reconcile gets as far as publishing the map. */
  predicate Publishes(c: Config, p: Plane, input: Input) {
    && input.env.dlqOk && input.env.finalizerOk
    && var outcome := PassOf(c, input.spec, input.env, Known(p, input)).outcome;
       outcome.Ready? || outcome == Failed("TemporalWorker")
  }

  /** The status a reconcile arrives at, written or not. */
  function Reached(c: Config, p: Plane, input: Input): Status {
    PassOf(c, input.spec, input.env, Known(p, input)).status
  }

  lemma PublishedByPass(c: Config, p: Plane, input: Input)
    requires Publishes(c, p, input)
    ensures Step(c, p, input).published == Some(Published(Reached(c, p, input)))
  {
  }

  /** The shards a reconcile begins with: those of the status, or the first one, which it creates. */
  function Start(c: Config, p: Plane, input: Input): (s: Status)
    ensures |s| > 0
  {
    WithRoot(c, input.spec, input.env, p.status)
  }

  /** What the pass splits. */
  function SplitsOf(c: Config, p: Plane, input: Input): seq<Move> {
    SplitPass(c, input.spec, input.env, Start(c, p, input), Known(p, input).samples).moves
  }

  /** The shard was a write target and is none in the status the pass arrives at. */
  predicate HasSplit(c: Config, p: Plane, input: Input, k: nat) {
    IsSplit(input.spec, input.env, SplitsOf(c, p, input), k)
  }

  /** The queue's kind stays the same until its first shard is written. */
  predicate SameKind(p: Plane, a: Input, b: Input) {
    |p.status| == 0 ==> a.spec.fifo == b.spec.fifo
  }

  /** A publishing pass splits an Active shard if and only if the shard is not Active at its end. */
  lemma SplitIffNotActive(c: Config, p: Plane, input: Input, k: nat)
    requires Publishes(c, p, input) && k < |p.status| && p.status[k].phase.Active?
    ensures k < |Reached(c, p, input)|
    ensures HasSplit(c, p, input, k) <==> !Reached(c, p, input)[k].phase.Active?
    ensures !HasSplit(c, p, input, k) ==> Reached(c, p, input)[k] == p.status[k]
  {
    var spec, env, q := input.spec, input.env, Known(p, input);
    SplitPassCloses(c, spec, env, p.status, q.samples, k);
    DrainPassCloses(c, spec, env, Working(c, spec, env, q), EnsureFrom(env, p.status, 0, p.topics).topics, k);
  }

  lemma LostWriteKeepsStatus(c: Config, p: Plane, a: Input)
    requires Publishes(c, p, a) && !a.env.writeOk
    ensures Step(c, p, a).status == p.status
    ensures Step(c, p, a).samples == SplitPass(c, a.spec, a.env, Start(c, p, a), Known(p, a).samples).samples
  {
  }

  /** After a lost write the next reconcile does not split what the first one has split. */
  lemma NextPassSplitsOthers(c: Config, h: seq<Move>, p: Plane, a: Input, b: Input, k: nat)
    requires Sane(c) && LegalHistory(c, h) && p.status == Replay(c, h) && ClockRuns(a.env) && ClockRuns(b.env)
    requires Publishes(c, p, a) && !a.env.writeOk && HasSplit(c, p, a, k) && SameKind(p, a, b)
    ensures Step(c, p, a).status == p.status && !HasSplit(c, Step(c, p, a), b, k)
  {
    LostWriteKeepsStatus(c, p, a);
    var g := RootIsReachable(c, h, a.spec, a.env, p.status);
    var g' := RootIsReachable(c, h, b.spec, b.env, p.status);
    SplitsWhatIsThere(c, p, a, k);
    NotSplitTwice(c, g, a.spec, a.env, Known(p, a).samples, g', b.spec, b.env, Known(Step(c, p, a), b).samples, k);
  }

  lemma SplitsWhatIsThere(c: Config, p: Plane, input: Input, k: nat)
    requires HasSplit(c, p, input, k)
    ensures k < |Start(c, p, input)|
  {
    var s := Start(c, p, input);
    PlanStaysBetween(c, input.spec, input.env, s, 0, ActiveCount(s), Known(p, input).samples);
  }

  /** A reconcile of an empty status does what it would do if the first shard were there. */
  lemma AsIfStarted(c: Config, p: Plane, input: Input) returns (q: Plane)
    ensures q.status == Start(c, p, input) == Start(c, q, input) && Known(q, input).samples == Known(p, input).samples
    ensures Publishes(c, q, input) == Publishes(c, p, input) && Reached(c, q, input) == Reached(c, p, input)
    ensures Step(c, q, input).published == Step(c, p, input).published
  {
    q := p.(status := Start(c, p, input));
  }

  // ---------------------------------------------------------------------------------------------------------------
  // Routes
  // ---------------------------------------------------------------------------------------------------------------

  /** Two statuses of one history route a key alike if and only if its earlier owner is still Active in the later one. */
  lemma SameRouteIffStillActive(c: Config, h: seq<Move>, k: nat, i: nat, key: Key)
    requires Sane(c) && LegalHistory(c, h) && 0 < k <= |h| && Owns(Replay(c, h[..k]), i, HashKey(key))
    ensures i < |Replay(c, h)|
    ensures Route(Some(Published(Replay(c, h))), key) == Routed(RouteShard(Replay(c, h[..k])[i]))
            <==> Replay(c, h)[i].phase.Active?
  {
    var s, t := Replay(c, h[..k]), Replay(c, h);
    ListsItself(t);
    RoutesToTheOwner(c, h, Published(t), key);
    var j := OwnerOf(t, HashKey(key));
    KeysOnlyDescend(c, h, k, i, j, HashKey(key));
    HistoryExtends(c, h, k);
    TopicsDiffer(c, h, i, j);
  }

  /** Where a publishing reconcile routes a key that shard i owned before: to i unless it split i, and then below i. */
  lemma RouteAfter(c: Config, h: seq<Move>, p: Plane, input: Input, i: nat, key: Key) returns (g: seq<Move>, j: nat)
    requires Sane(c) && LegalHistory(c, h) && |h| > 0 && p.status == Replay(c, h) && Owns(p.status, i, HashKey(key))
    requires ClockRuns(input.env) && Publishes(c, p, input)
    ensures LegalHistory(c, g) && Reached(c, p, input) == Replay(c, g) && TreeInv(c, Replay(c, g)) && j < |Replay(c, g)|
    ensures Route(Step(c, p, input).published, key) == Routed(RouteShard(Replay(c, g)[j]))
    ensures i < |Replay(c, g)| && Replay(c, g)[i].topic == p.status[i].topic && Descendant(Replay(c, g), i, j)
    ensures if HasSplit(c, p, input, i) then j != i else j == i && Replay(c, g)[i] == p.status[i]
  {
    var q := Known(p, input);
    PassGoesOn(c, h, input.spec, input.env, q);
    g := h + PassOf(c, input.spec, input.env, q).moves;
    assert g[..|h|] == h;
    var t := Replay(c, g);
    PublishedByPass(c, p, input);
    ListsItself(t);
    RoutesToTheOwner(c, g, Published(t), key);
    j := OwnerOf(t, HashKey(key));
    KeysOnlyDescend(c, g, |h|, i, j, HashKey(key));
    HistoryExtends(c, g, |h|);
    SplitIffNotActive(c, p, input, i);
  }

  /** In the tree t the first topic belongs to a proper ancestor of the shard with the second. */
  ghost predicate IsAbove(t: Status, high: string, low: string) {
    ParentsFirst(t) &&
    exists i, j :: 0 <= i < |t| && 0 <= j < |t| && i != j && t[i].topic == high && t[j].topic == low && Descendant(t, i, j)
  }

  lemma {:induction false} DescendantsComeLater(s: Status, a: int, d: int)
    requires ParentsFirst(s) && 0 <= d < |s| && Descendant(s, a, d)
    ensures a <= d
    decreases d
  {
    if d != a {
      DescendantsComeLater(s, a, ParentOf(s, d));
    }
  }

  /** Nothing that routes below shard i of one history lies above shard i in another. */
  lemma NotAboveItsAncestor(c: Config, g: seq<Move>, g': seq<Move>, i: nat, j: nat)
    requires Sane(c) && LegalHistory(c, g) && LegalHistory(c, g') && i < |Replay(c, g)| && j < |Replay(c, g')|
    requires TreeInv(c, Replay(c, g')) && Descendant(Replay(c, g'), i, j)
    ensures !IsAbove(Replay(c, g), Replay(c, g')[j].topic, Replay(c, g)[i].topic)
  {
    var t, high := Replay(c, g), Replay(c, g')[j].topic;
    if IsAbove(t, high, t[i].topic) {
      var x, y :| 0 <= x < |t| && 0 <= y < |t| && x != y && t[x].topic == high && t[y].topic == t[i].topic
                  && Descendant(t, x, y);
      TopicsDiffer(c, g, y, i);
      DescendantsComeLater(t, x, y);
      DescendantsComeLater(Replay(c, g'), i, j);
      TopicOfShard(c, g, x);
      TopicOfShard(c, g', j);
      TopicOfOneShard(c, x, j, high);
    }
  }

  /**
   A lost write takes routes back. Reconcile a publishes its map and its status write is lost; reconcile b, whatever it
   splits and drains itself, publishes the next one. The keys of every shard that a split are routed by b to that shard
   again, up from its descendants; and these are the only keys that b routes above where a did, because what a left
   alone a itself still routed to the old shard. The status may be one that was never written: then both reconciles create
   the first shard, and the queue's kind must not change between them, since it is part of the topic's name.
   */
  lemma LostWriteTakesRoutesBack(c: Config, h: seq<Move>, p: Plane, a: Input, b: Input, i: nat, key: Key)
    requires Sane(c) && LegalHistory(c, h) && p.status == Replay(c, h) && Owns(Start(c, p, a), i, HashKey(key))
    requires ClockRuns(a.env) && Publishes(c, p, a) && !a.env.writeOk
    requires ClockRuns(b.env) && Publishes(c, Step(c, p, a), b) && SameKind(p, a, b)
    ensures
      var first, second := Route(Step(c, p, a).published, key), Route(Step(c, Step(c, p, a), b).published, key);
      && first.Routed? && second.Routed?
      && (IsAbove(Reached(c, p, a), second.shard.topic, first.shard.topic) <==> HasSplit(c, p, a, i))
      && (HasSplit(c, p, a, i) ==> second == Routed(RouteShard(Start(c, p, a)[i])) && first != second)
      && (!HasSplit(c, p, a, i) ==> first == Routed(RouteShard(Start(c, p, a)[i])))
  {
    LostWriteKeepsStatus(c, p, a);
    SameStart(c, p, a, b, i, HashKey(key));
    var g, j := RouteFromStart(c, h, p, a, i, key);
    var g', j' := RouteFromStart(c, h, Step(c, p, a), b, i, key);
    if HasSplit(c, p, a, i) {
      NextPassSplitsOthers(c, h, p, a, b, i);
      TopicsDiffer(c, g, i, j);
    } else {
      NotAboveItsAncestor(c, g, g', i, j');
    }
  }

  lemma SameStart(c: Config, p: Plane, a: Input, b: Input, i: nat, x: int)
    requires Owns(Start(c, p, a), i, x) && SameKind(p, a, b) && Step(c, p, a).status == p.status
    ensures Owns(Start(c, Step(c, p, a), b), i, x)
    ensures RouteShard(Start(c, Step(c, p, a), b)[i]) == RouteShard(Start(c, p, a)[i])
  {
  }

  lemma RouteFromStart(c: Config, h: seq<Move>, p: Plane, input: Input, i: nat, key: Key) returns (g: seq<Move>, j: nat)
    requires Sane(c) && LegalHistory(c, h) && p.status == Replay(c, h) && Owns(Start(c, p, input), i, HashKey(key))
    requires ClockRuns(input.env) && Publishes(c, p, input)
    ensures LegalHistory(c, g) && Reached(c, p, input) == Replay(c, g) && TreeInv(c, Replay(c, g)) && j < |Replay(c, g)|
    ensures Route(Step(c, p, input).published, key) == Routed(RouteShard(Replay(c, g)[j]))
    ensures i < |Replay(c, g)| && Replay(c, g)[i].topic == Start(c, p, input)[i].topic && Descendant(Replay(c, g), i, j)
    ensures if HasSplit(c, p, input, i) then j != i else j == i && Replay(c, g)[i] == Start(c, p, input)[i]
  {
    var h' := RootIsReachable(c, h, input.spec, input.env, p.status);
    var q := AsIfStarted(c, p, input);
    g, j := RouteAfter(c, h', q, input, i, key);
  }

  /** The state after some more reconciles. */
  function StepAll(c: Config, p: Plane, inputs: seq<Input>): Plane {
    if |inputs| == 0 then p else Step(c, StepAll(c, p, inputs[..|inputs| - 1]), inputs[|inputs| - 1])
  }

  lemma {:induction false} HistoryAfterAll(c: Config, h: seq<Move>, p: Plane, inputs: seq<Input>) returns (h': seq<Move>)
    requires ClocksRun(inputs) && LegalHistory(c, h) && p.status == Replay(c, h)
    ensures LegalHistory(c, h') && StepAll(c, p, inputs).status == Replay(c, h') && h <= h'
  {
    h' := h;
    if |inputs| > 0 {
      var n := |inputs| - 1;
      var before := HistoryAfterAll(c, h, p, inputs[..n]);
      h' := HistoryAfter(c, before, inputs[n], StepAll(c, p, inputs[..n]));
    }
  }

  /**
   And any later map: after further reconciles, with their own errors and lost writes, the next one that publishes still
   routes a key to the shard that owned it when the write was lost if and only if that shard is Active in the status it
   arrives at, that is if no reconcile since, whose status was kept, has split it, nor this one.
   */
  lemma LaterMapRoutesBackIff(c: Config, h: seq<Move>, p: Plane, a: Input, inputs: seq<Input>, b: Input, i: nat, key: Key)
    requires Sane(c) && LegalHistory(c, h) && |h| > 0 && p.status == Replay(c, h) && Owns(p.status, i, HashKey(key))
    requires ClockRuns(a.env) && Publishes(c, p, a) && !a.env.writeOk && ClocksRun(inputs)
    requires ClockRuns(b.env) && Publishes(c, StepAll(c, Step(c, p, a), inputs), b)
    ensures
      var q := StepAll(c, Step(c, p, a), inputs);
      && i < |Reached(c, q, b)|
      && (Route(Step(c, q, b).published, key) == Routed(RouteShard(p.status[i])) <==> Reached(c, q, b)[i].phase.Active?)
  {
    LostWriteKeepsStatus(c, p, a);
    var q := StepAll(c, Step(c, p, a), inputs);
    var h' := HistoryAfterAll(c, h, Step(c, p, a), inputs);
    PassGoesOn(c, h', b.spec, b.env, Known(q, b));
    var g := h' + PassOf(c, b.spec, b.env, Known(q, b)).moves;
    assert g[..|h|] == h;
    PublishedByPass(c, q, b);
    SameRouteIffStillActive(c, g, |h|, i, key);
  }

  // ---------------------------------------------------------------------------------------------------------------
  // IDs
  // ---------------------------------------------------------------------------------------------------------------

  lemma {:induction false} SplitOrderConcat(a: seq<Move>, b: seq<Move>)
    ensures SplitOrder(a + b) == SplitOrder(a) + SplitOrder(b)
    decreases |b|
  {
    if |b| == 0 {
      assert a + b == a;
    } else {
      var n := |b| - 1;
      SplitOrderConcat(a, b[..n]);
      assert (a + b)[..|a| + n] == a + b[..n];
    }
  }

  lemma {:induction false} SplitOrderFirst(moves: seq<Move>)
    requires |moves| > 0 && moves[0].Split?
    ensures |SplitOrder(moves)| > 0 && SplitOrder(moves)[0] == moves[0].i
  {
    if |moves| == 1 {
      assert SplitOrder(moves[..0]) == [];
    } else {
      SplitOrderFirst(moves[..|moves| - 1]);
    }
  }

  /** The first split a publishing reconcile adds to the history of the status it began with. */
  lemma FirstSplitAdded(c: Config, h: seq<Move>, p: Plane, input: Input) returns (g: seq<Move>, k: nat)
    requires Sane(c) && LegalHistory(c, h) && |h| > 0 && p.status == Replay(c, h) && |p.status| > 0
    requires ClockRuns(input.env) && Publishes(c, p, input) && |SplitsOf(c, p, input)| > 0
    ensures LegalHistory(c, g) && Reached(c, p, input) == Replay(c, g) && |g| > 0
    ensures SplitOrder(h) < SplitOrder(g) && SplitOrder(g)[|SplitOrder(h)|] == k
    ensures k < |p.status| && HasSplit(c, p, input, k)
  {
    var q, moves := Known(p, input), SplitsOf(c, p, input);
    var pass := PassOf(c, input.spec, input.env, q);
    PassGoesOn(c, h, input.spec, input.env, q);
    g := h + pass.moves;
    PlanStaysBetween(c, input.spec, input.env, p.status, 0, ActiveCount(p.status), q.samples);
    PlanIsAsPlanned(c, input.spec, input.env, p.status, 0, ActiveCount(p.status), q.samples);
    k := moves[0].i;
    assert moves[0] in moves;
    assert pass.moves[0] == moves[0];
    SplitOrderFirst(pass.moves);
    SplitOrderConcat(h, pass.moves);
  }

  lemma Forks(before: seq<nat>, a: seq<nat>, b: seq<nat>)
    requires before < a && before < b && a[|before|] != b[|before|]
    ensures ForkAt(a, b, |before|)
  {
  }

  /**
   IDs are given away anew. When a write is lost and both the reconcile whose write it was and the next one that publishes
   split something, then the next two IDs, published by both, stand for disjoint ranges in the two maps.
   */
  lemma LostSplitsGiveIdsAway(c: Config, h: seq<Move>, p: Plane, a: Input, b: Input, x: int)
    requires Sane(c) && LegalHistory(c, h) && |h| > 0 && p.status == Replay(c, h)
    requires ClockRuns(a.env) && Publishes(c, p, a) && !a.env.writeOk && |SplitsOf(c, p, a)| > 0
    requires ClockRuns(b.env) && Publishes(c, Step(c, p, a), b) && |SplitsOf(c, Step(c, p, a), b)| > 0
    ensures GivenAnew(Reached(c, p, a), Reached(c, Step(c, p, a), b), |p.status|, x)
  {
    LostWriteKeepsStatus(c, p, a);
    var g, k := FirstSplitAdded(c, h, p, a);
    var g', k' := FirstSplitAdded(c, h, Step(c, p, a), b);
    NextPassSplitsOthers(c, h, p, a, b, k);
    ShardsCountSplits(c, h);
    Forks(SplitOrder(h), SplitOrder(g), SplitOrder(g'));
    DifferentSplitsDifferentRanges(c, g, g', |SplitOrder(h)|, |p.status|, x);
  }

  /** A status that was never written has one shard to split, and only one of the two reconciles can split it. */
  lemma FirstShardIsSplitOnce(c: Config, p: Plane, a: Input, b: Input)
    requires Sane(c) && |p.status| == 0 && SameKind(p, a, b)
    requires ClockRuns(a.env) && Publishes(c, p, a) && !a.env.writeOk && |SplitsOf(c, p, a)| > 0
    requires ClockRuns(b.env)
    ensures SplitsOf(c, Step(c, p, a), b) == []
  {
    LostWriteKeepsStatus(c, p, a);
    if |SplitsOf(c, Step(c, p, a), b)| > 0 {
      OnlyShardIsSplit(c, p, a);
      OnlyShardIsSplit(c, Step(c, p, a), b);
      NextPassSplitsOthers(c, [], p, a, b, 0);
    }
  }

  lemma OnlyShardIsSplit(c: Config, p: Plane, input: Input)
    requires |p.status| == 0 && |SplitsOf(c, p, input)| > 0
    ensures HasSplit(c, p, input, 0)
  {
    var s, samples := Start(c, p, input), Known(p, input).samples;
    PlanStaysBetween(c, input.spec, input.env, s, 0, ActiveCount(s), samples);
    PlanIsAsPlanned(c, input.spec, input.env, s, 0, ActiveCount(s), samples);
    assert SplitsOf(c, p, input)[0] in SplitsOf(c, p, input);
  }

  lemma {:induction false} ClosesSplitNothing(moves: seq<Move>)
    requires forall m :: m in moves ==> m.Close?
    ensures SplitOrder(moves) == []
  {
    if |moves| > 0 {
      assert moves[|moves| - 1] in moves;
      ClosesSplitNothing(moves[..|moves| - 1]);
    }
  }

  /** A publishing reconcile adds splits at the end of the order, and none if it splits nothing. */
  lemma SplitsAdded(c: Config, h: seq<Move>, p: Plane, input: Input) returns (g: seq<Move>)
    requires LegalHistory(c, h) && p.status == Replay(c, h) && |p.status| > 0
    requires ClockRuns(input.env) && Publishes(c, p, input)
    ensures LegalHistory(c, g) && Reached(c, p, input) == Replay(c, g) && |g| > 0 && SplitOrder(h) <= SplitOrder(g)
    ensures SplitsOf(c, p, input) == [] ==> SplitOrder(g) == SplitOrder(h)
  {
    var q := Known(p, input);
    var pass := PassOf(c, input.spec, input.env, q);
    PassGoesOn(c, h, input.spec, input.env, q);
    g := h + pass.moves;
    SplitOrderConcat(h, pass.moves);
    if SplitsOf(c, p, input) == [] {
      var w := Working(c, input.spec, input.env, q);
      var topics := EnsureFrom(input.env, p.status, 0, p.topics).topics;
      DrainLoopIsLegal(c, input.spec, input.env, w, 0, topics);
      assert pass.moves == DrainPass(c, input.spec, input.env, w, topics).moves;
      ClosesSplitNothing(pass.moves);
      assert SplitOrder(h) + [] == SplitOrder(h);
    }
  }

  /** The history a publishing reconcile arrives at, with the splits of the persisted one first. */
  lemma SplitsAfterStart(c: Config, h: seq<Move>, p: Plane, input: Input) returns (g: seq<Move>)
    requires LegalHistory(c, h) && p.status == Replay(c, h) && ClockRuns(input.env) && Publishes(c, p, input)
    ensures LegalHistory(c, g) && Reached(c, p, input) == Replay(c, g) && |g| > 0 && SplitOrder(h) <= SplitOrder(g)
    ensures SplitsOf(c, p, input) == [] ==> SplitOrder(g) == SplitOrder(h)
    ensures |Start(c, p, input)| == 2 * |SplitOrder(h)| + 1
  {
    var h' := RootIsReachable(c, h, input.spec, input.env, p.status);
    if |h| == 0 { StartSplitsNothing(c, h'); }
    ShardsCountSplits(c, h');
    var q := AsIfStarted(c, p, input);
    g := SplitsAdded(c, h', q, input);
  }

  lemma StartSplitsNothing(c: Config, h: seq<Move>)
    requires LegalHistory(c, h) && |h| > 0 && |Replay(c, h)| == 1
    ensures SplitOrder(h) == []
  {
    ShardsCountSplits(c, h);
  }

  lemma PrefixOf(before: seq<nat>, a: seq<nat>, n: nat)
    requires before <= a && n <= |before|
    ensures a[..n] == before[..n]
  {
  }

  lemma SameIdAndRange(c: Config, g: seq<Move>, g': seq<Move>, m: nat, i: nat)
    requires Sane(c) && LegalHistory(c, g) && LegalHistory(c, g') && |g| > 0 && |g'| > 0
    requires m <= |SplitOrder(g)| && m <= |SplitOrder(g')| && SplitOrder(g)[..m] == SplitOrder(g')[..m] && i < 2 * m + 1
    ensures i < |Replay(c, g)| && i < |Replay(c, g')|
    ensures Replay(c, g)[i].id == Replay(c, g')[i].id && SameRange(Replay(c, g)[i], Replay(c, g')[i])
  {
    SameSplitsSameRanges(c, g, g', m, i);
    HistoryKeepsInv(c, g);
    HistoryKeepsInv(c, g');
  }

  /**
   The other way round: an ID that is in both maps stands for the same range in both if it was there when the write was
   lost, and every such ID does if either of the two reconciles splits nothing.
   */
  lemma CommonIdsKeepRanges(c: Config, h: seq<Move>, p: Plane, a: Input, b: Input, i: nat)
    requires Sane(c) && LegalHistory(c, h) && p.status == Replay(c, h)
    requires ClockRuns(a.env) && Publishes(c, p, a) && !a.env.writeOk
    requires ClockRuns(b.env) && Publishes(c, Step(c, p, a), b)
    requires i < |Reached(c, p, a)| && i < |Reached(c, Step(c, p, a), b)|
    requires i < |Start(c, p, a)| || SplitsOf(c, p, a) == [] || SplitsOf(c, Step(c, p, a), b) == []
    ensures
      var x, y := Reached(c, p, a)[i], Reached(c, Step(c, p, a), b)[i];
      x.id == y.id && SameRange(x, y)
  {
    LostWriteKeepsStatus(c, p, a);
    var g := SplitsAfterStart(c, h, p, a);
    var g' := SplitsAfterStart(c, h, Step(c, p, a), b);
    ShardsCountSplits(c, g);
    ShardsCountSplits(c, g');
    var m := if i < |Start(c, p, a)| then |SplitOrder(h)|
             else if SplitsOf(c, p, a) == [] then |SplitOrder(g)| else |SplitOrder(g')|;
    PrefixOf(SplitOrder(h), SplitOrder(g), |SplitOrder(h)|);
    PrefixOf(SplitOrder(h), SplitOrder(g'), |SplitOrder(h)|);
    SameIdAndRange(c, g, g', m, i);
  }
}
