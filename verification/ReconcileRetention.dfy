/**
 Retention. A drained shard is to keep its messages until a retention period has passed since it stopped being a write
 target; the code counts from the shard's creation. This says when a shard stopped being a write target, and exactly when
 a pass closes one too early. A pass may also delete a topic too early and not close the shard: ReconcileDeletions has
 the theorem about the topic.
 */
module ReconcileRetention {
  import opened Router
  import opened ShardTree
  import opened ShardInvariants
  import opened ShardRuns
  import opened Reconcile
  import opened ReconcileMoves
  import opened ReconcileSplitting
  import opened ReconcileLaws

  // ---------------------------------------------------------------------------------------------------------------
  // When a shard stopped being a write target
  // ---------------------------------------------------------------------------------------------------------------

  /** The children of shard k were created at the given time. */
  predicate ChildrenFrom(s: Status, k: int, time: int)
    requires 0 <= k < |s|
  {
    forall j :: 0 <= j < |s| && IsChild(s, j, k) ==> s[j].createdAt == time
  }

  /** The time at which shard k stopped being a write target: its children were created when it was split. */
  ghost function StoppedAt(s: Status, k: int): int
    requires 0 <= k < |s| && CutInTwo(s, k)
  {
    var a :| IsPair(s, k, a) && OnlyChildren(s, k, a);
    s[a].createdAt
  }

  lemma StoppedAtIs(s: Status, k: int, time: int)
    requires 0 <= k < |s| && CutInTwo(s, k) && ChildrenFrom(s, k, time)
    ensures StoppedAt(s, k) == time
  {
  }

  /** Once a shard was split, its children keep the time of the split, whatever happens later. */
  lemma ChildrenStay(s: Status, s': Status, k: int, time: int)
    requires 0 <= k < |s| && ParentsFirst(s) && ParentsFirst(s') && Extends(s, s') && ChildrenFrom(s, k, time)
    requires CutInTwo(s, k) && CutInTwo(s', k)
    ensures ChildrenFrom(s', k, time)
  {
    var a :| IsPair(s, k, a) && OnlyChildren(s, k, a);
    assert IsChild(s', a, k) && IsChild(s', a + 1, k);
    var b :| IsPair(s', k, b) && OnlyChildren(s', k, b);
  }

  lemma NewChildrenFrom(s: Status, s': Status, k: nat, kids: Status, time: int)
    requires Grows(s, s', k) && ParentsFirst(s) && IdsDiffer(s') && Childless(s, k) && s'[|s|..] == kids && |kids| == 2
    requires kids[0].createdAt == time && kids[1].createdAt == time
    ensures ChildrenFrom(s', k, time)
  {
    forall j | 0 <= j < |s'| && IsChild(s', j, k) ensures s'[j].createdAt == time {
      GrowsFamily(s, s', k, j, k);
      assert s'[j] == s'[|s|..][j - |s|];
    }
  }

  lemma SplitSetsTime(c: Config, s: Status, k: nat, fifo: bool, now: int)
    requires Sane(c) && TreeInv(c, s) && k < |s| && s[k].phase.Active? && ActiveCount(s) < Cap(c)
    ensures k < |Apply(c, s, Split(k, fifo, now))| && ChildrenFrom(Apply(c, s, Split(k, fifo, now)), k, now)
  {
    SplitKeepsInv(c, s, k, fifo, now);
    SplitGrows(c, s, k, fifo, now);
    ChildrenAre(c, s, k, fifo, now);
    assert Childless(s, k);
    NewChildrenFrom(s, Apply(c, s, Split(k, fifo, now)), k, Children(c, s, k, fifo, now), now);
  }

  lemma NotActiveIsCut(c: Config, h: seq<Move>, k: nat)
    requires Sane(c) && LegalHistory(c, h) && k < |Replay(c, h)| && !Replay(c, h)[k].phase.Active?
    ensures ParentsFirst(Replay(c, h)) && CutInTwo(Replay(c, h), k)
  {
    HistoryKeepsInv(c, h);
  }

  /** Right after the split. */
  lemma SplitSetsTimeInHistory(c: Config, h: seq<Move>, k: nat, fifo: bool, now: int)
    requires Sane(c) && LegalHistory(c, h + [Split(k, fifo, now)])
    ensures
      var s := Replay(c, h + [Split(k, fifo, now)]);
      k < |s| && !s[k].phase.Active? && ChildrenFrom(s, k, now)
  {
    var all, s := h + [Split(k, fifo, now)], Replay(c, h);
    assert all[..|h|] == h;
    HistoryKeepsInv(c, h);
    SplitSetsTime(c, s, k, fifo, now);
    SplitKeepsInv(c, s, k, fifo, now);
  }

  lemma LastSplitSetsTime(c: Config, h: seq<Move>, before: seq<Move>, m: Move)
    requires Sane(c) && LegalHistory(c, h) && h == before + [m] && m.Split?
    ensures m.i < |Replay(c, h)| && !Replay(c, h)[m.i].phase.Active? && ChildrenFrom(Replay(c, h), m.i, m.now)
  {
    SplitSetsTimeInHistory(c, before, m.i, m.fifo, m.now);
  }

  lemma EndsWith(h: seq<Move>, l: nat)
    requires l < |h|
    ensures h[..l + 1] == h[..l] + [h[l]]
  {
  }

  lemma SplitSetsTimeAt(c: Config, first: seq<Move>, h: seq<Move>, l: nat)
    requires Sane(c) && LegalHistory(c, first) && l < |h| && h[l].Split? && first == h[..l + 1]
    ensures
      var s, k := Replay(c, first), h[l].i;
      k < |s| && !s[k].phase.Active? && ChildrenFrom(s, k, h[l].now)
  {
    EndsWith(h, l);
    LastSplitSetsTime(c, first, h[..l], h[l]);
  }

  lemma StoppedStays(s: Status, s': Status, k: int, time: int)
    requires 0 <= k < |s| && ParentsFirst(s) && ParentsFirst(s') && Extends(s, s') && ChildrenFrom(s, k, time)
    requires CutInTwo(s, k) && CutInTwo(s', k)
    ensures StoppedAt(s', k) == time
  {
    ChildrenStay(s, s', k, time);
    StoppedAtIs(s', k, time);
  }

  lemma StillNotActive(s: Status, s': Status, k: int)
    requires 0 <= k < |s| && Extends(s, s') && !s[k].phase.Active? && !s[k].phase.Unset?
    ensures k < |s'| && !s'[k].phase.Active?
  {
  }

  /** The split that made a shard stop being a write target, and its time, which the children carry ever after. */
  lemma StoppedAtIsTheSplitTime(c: Config, h: seq<Move>, l: nat)
    requires Sane(c) && LegalHistory(c, h) && l < |h| && h[l].Split?
    ensures
      var s, k := Replay(c, h), h[l].i;
      k < |s| && !s[k].phase.Active? && CutInTwo(s, k) && StoppedAt(s, k) == h[l].now
  {
    LegalPrefix(c, h, l + 1);
    SplitSetsTimeAt(c, h[..l + 1], h, l);
    var k, s, s' := h[l].i, Replay(c, h[..l + 1]), Replay(c, h);
    HistoryExtends(c, h, l + 1);
    HistoryKeepsPhasesSet(c, h[..l + 1]);
    StillNotActive(s, s', k);
    NotActiveIsCut(c, h[..l + 1], k);
    NotActiveIsCut(c, h, k);
    StoppedStays(s, s', k, h[l].now);
  }

  // ---------------------------------------------------------------------------------------------------------------
  // Closed too early
  // ---------------------------------------------------------------------------------------------------------------

  predicate EnsureGetsThrough(env: Env, s: Status) {
    forall k :: 0 <= k < |s| && !s[k].phase.Closed? ==> env.createOk(s[k].topic)
  }

  predicate SplitsGetThrough(c: Config, spec: Spec, env: Env, s: Status, samples: map<string, Sample>) {
    spec.threshold > 0 ==> forall k :: 0 <= k < |s| ==> !FailsAt(c, spec, env, s, 0, ActiveCount(s), samples, k)
  }

  predicate DrainsGetThrough(spec: Spec, env: Env, w: Status) {
    forall k :: 0 <= k < |w| && w[k].phase.Closing? ==> !DrainStops(spec, env, w[k], k)
  }

  /** No answer of the environment stops the pass before the end of its drains. */
  predicate GetsThrough(c: Config, spec: Spec, env: Env, p: Plane) {
    var s := WithRoot(c, spec, env, p.status);
    && EnsureGetsThrough(env, s) && SplitsGetThrough(c, spec, env, s, p.samples)
    && DrainsGetThrough(spec, env, Working(c, spec, env, p))
  }

  lemma RootTopicsAreDistinct(c: Config, h: seq<Move>, spec: Spec, env: Env, s: Status)
    requires Sane(c) && LegalHistory(c, h) && s == Replay(c, h) && ClockRuns(env)
    ensures TopicsDistinct(WithRoot(c, spec, env, s))
  {
    RootIsLegal(c, spec, env, s);
    HistoryGoesOn(c, h, RootMoves(spec, env, s));
    ReachableTopicsAreDistinct(c, h + RootMoves(spec, env, s));
  }

  lemma SplitsGetThroughIff(c: Config, spec: Spec, env: Env, s: Status, samples: map<string, Sample>)
    requires TopicsDistinct(s)
    ensures SplitPass(c, spec, env, s, samples).ok <==> SplitsGetThrough(c, spec, env, s, samples)
  {
    PlanGetsThroughIff(c, spec, env, s, 0, ActiveCount(s), samples);
  }

  lemma DrainPassGetsThroughIff(c: Config, spec: Spec, env: Env, w: Status, topics: set<string>)
    ensures DrainPass(c, spec, env, w, topics).ok <==> DrainsGetThrough(spec, env, w)
  {
    DrainsGetThroughIff(c, spec, env, w, 0, topics);
  }

  lemma GetsThroughIff(c: Config, spec: Spec, env: Env, p: Plane)
    requires TopicsDistinct(WithRoot(c, spec, env, p.status))
    ensures ReachesTheEndOfDrains(c, spec, env, p) <==> GetsThrough(c, spec, env, p)
  {
    var s := WithRoot(c, spec, env, p.status);
    EnsureGetsThroughIff(env, s, 0, p.topics);
    SplitsGetThroughIff(c, spec, env, s, p.samples);
    DrainPassGetsThroughIff(c, spec, env, Working(c, spec, env, p), EnsureFrom(env, s, 0, p.topics).topics);
  }

  /** Nothing lags behind the shard, its retention counted from its creation is over, and its topic can be deleted. */
  predicate LooksDrained(spec: Spec, env: Env, x: ShardStatus, k: nat) {
    && env.lag(x.topic).Some? && env.lag(x.topic).value <= 0
    && env.drainAt(k) >= x.createdAt + spec.retention && env.deleteOk(x.topic)
  }

  /** The pass closes shard k before a retention period has passed since k stopped being a write target. */
  ghost predicate ClosesTooEarly(c: Config, spec: Spec, env: Env, p: Plane, k: nat)
    requires TreeInv(c, Working(c, spec, env, p)) && k < |Working(c, spec, env, p)|
  {
    var w, status := Working(c, spec, env, p), PassOf(c, spec, env, p).status;
    && !w[k].phase.Closed? && k < |status| && status[k].phase.Closed?
    && !w[k].phase.Active? && env.drainAt(k) < StoppedAt(w, k) + spec.retention
  }

  lemma PassCloses(c: Config, spec: Spec, env: Env, p: Plane, k: nat)
    requires TopicsDistinct(WithRoot(c, spec, env, p.status))
    requires k < |Working(c, spec, env, p)| && !Working(c, spec, env, p)[k].phase.Closed?
    ensures
      var w, status := Working(c, spec, env, p), PassOf(c, spec, env, p).status;
      (k < |status| && status[k].phase.Closed?)
      <==> ReachesTheEndOfDrains(c, spec, env, p) && w[k].phase.Closing? && LooksDrained(spec, env, w[k], k)
  {
    var s, w := WithRoot(c, spec, env, p.status), Working(c, spec, env, p);
    DrainPassCloses(c, spec, env, w, EnsureFrom(env, s, 0, p.topics).topics, k);
    if k < |s| {
      SplitPassCloses(c, spec, env, s, p.samples, k);
      PlanSplitsExactly(c, spec, env, s, 0, ActiveCount(s), p.samples, k);
    }
  }

  /**
   Closed too early, exactly. From any reachable status, a pass ends with shard k closed before a retention period has
   passed since k stopped being a write target if and only if nothing stops the pass, k is Closing when its drains begin,
   nothing lags, its topic can be deleted, and the clock stands between the end of a retention period counted from k's
   creation and the end of one counted from its split.
   */
  lemma ClosedTooEarlyIff(c: Config, h: seq<Move>, spec: Spec, env: Env, p: Plane, k: nat)
    requires Sane(c) && LegalHistory(c, h) && p.status == Replay(c, h) && ClockRuns(env)
    requires k < |Working(c, spec, env, p)|
    ensures TreeInv(c, Working(c, spec, env, p)) && |Working(c, spec, env, p)| > 0
    ensures
      var w := Working(c, spec, env, p);
      ClosesTooEarly(c, spec, env, p, k) <==>
        && GetsThrough(c, spec, env, p) && w[k].phase.Closing?
        && env.lag(w[k].topic).Some? && env.lag(w[k].topic).value <= 0 && env.deleteOk(w[k].topic)
        && w[k].createdAt + spec.retention <= env.drainAt(k) < StoppedAt(w, k) + spec.retention
  {
    var g := WorkingIsReachable(c, h, spec, env, p);
    HistoryKeepsInv(c, g);
    RootTopicsAreDistinct(c, h, spec, env, p.status);
    GetsThroughIff(c, spec, env, p);
    if !Working(c, spec, env, p)[k].phase.Closed? {
      PassCloses(c, spec, env, p, k);
    }
  }

  lemma SplitAndDrained(c: Config, spec: Spec, env: Env, p: Plane, k: nat)
    requires k < |p.status| && p.status[k].phase.Active?
    ensures
      var pass := PassOf(c, spec, env, p);
      && k < |pass.status|
      && (pass.status[k].phase.Closed? <==>
            && ReachesTheEndOfDrains(c, spec, env, p) && LooksDrained(spec, env, p.status[k], k)
            && IsSplit(spec, env, SplitPass(c, spec, env, p.status, p.samples).moves, k))
      && (pass.status[k].phase.Closed? ==> p.status[k].topic !in pass.topics)
  {
    var w, topics := Working(c, spec, env, p), EnsureFrom(env, p.status, 0, p.topics).topics;
    SplitPassCloses(c, spec, env, p.status, p.samples, k);
    DrainPassCloses(c, spec, env, w, topics, k);
  }

  /**
   The case of a single pass. A shard that is a write target when a pass begins is Closed by that pass, and its topic
   deleted, if and only if nothing stops the pass, the shard is split, and it looks drained by its creation time: a shard
   that is old enough, with nothing lagging, is deleted in the very pass that stops it being written to.
   */
  lemma WriteTargetIsClosedIff(c: Config, h: seq<Move>, spec: Spec, env: Env, p: Plane, k: nat)
    requires Sane(c) && LegalHistory(c, h) && p.status == Replay(c, h) && ClockRuns(env)
    requires k < |p.status| && p.status[k].phase.Active?
    ensures
      var pass := PassOf(c, spec, env, p);
      && k < |pass.status|
      && (pass.status[k].phase.Closed? <==>
            && GetsThrough(c, spec, env, p) && LooksDrained(spec, env, p.status[k], k)
            && spec.threshold > 0 && WillSplit(c, spec, env, p.status, 0, ActiveCount(p.status), p.samples, k))
      && (pass.status[k].phase.Closed? ==> p.status[k].topic !in pass.topics)
  {
    SplitAndDrained(c, spec, env, p, k);
    RootTopicsAreDistinct(c, h, spec, env, p.status);
    GetsThroughIff(c, spec, env, p);
    PassSplitsExactly(c, h, spec, env, p.samples, k);
  }
}
