/**
 Which topics a pass deletes before a retention period has passed since their shards stopped being write targets: whether
 or not the pass goes on to close them. The drain loop deletes a topic as it comes to it, and an error at a later shard
 then leaves the deleted one Closing.
 */
module ReconcileDeletions {
  import opened ShardTree
  import opened ShardInvariants
  import opened Reconcile
  import opened ReconcileMoves
  import opened ReconcileSplitting
  import opened ReconcileLaws
  import opened ReconcileRetention
  import opened ReconcileTopics

  /** The topics that exist once the pass has ensured those that are due. */
  function Ensured(c: Config, spec: Spec, env: Env, p: Plane): set<string> {
    EnsureFrom(env, WithRoot(c, spec, env, p.status), 0, p.topics).topics
  }

  /** The pass deletes the topic of shard k before a retention period has passed since k stopped being a write target. */
  ghost predicate DeletesTooEarly(c: Config, spec: Spec, env: Env, p: Plane, k: nat)
    requires TreeInv(c, Working(c, spec, env, p)) && k < |Working(c, spec, env, p)|
  {
    var w := Working(c, spec, env, p);
    && !w[k].phase.Active? && w[k].topic in Ensured(c, spec, env, p) && w[k].topic !in PassOf(c, spec, env, p).topics
    && env.drainAt(k) < StoppedAt(w, k) + spec.retention
  }

  /** The pass comes to shard k in its drain loop. */
  predicate DrainsComeTo(c: Config, spec: Spec, env: Env, p: Plane, k: nat)
    requires k < |Working(c, spec, env, p)|
  {
    var s, w := WithRoot(c, spec, env, p.status), Working(c, spec, env, p);
    && EnsureGetsThrough(env, s) && SplitsGetThrough(c, spec, env, s, p.samples)
    && forall j :: 0 <= j < k && w[j].phase.Closing? ==> !DrainStops(spec, env, w[j], j)
  }

  /** What is Closing when the drains begin was there, and not Closed, when the topics were ensured. */
  lemma ClosingWasOpen(c: Config, spec: Spec, env: Env, p: Plane, k: nat)
    requires TopicsDistinct(WithRoot(c, spec, env, p.status))
    requires k < |Working(c, spec, env, p)| && Working(c, spec, env, p)[k].phase.Closing?
    ensures
      var s := WithRoot(c, spec, env, p.status);
      k < |s| && !s[k].phase.Closed? && s[k].topic == Working(c, spec, env, p)[k].topic
  {
    var s := WithRoot(c, spec, env, p.status);
    PlanStaysBetween(c, spec, env, s, 0, ActiveCount(s), p.samples);
    SplitsTouchOldShards(c, s, SplitPass(c, spec, env, s, p.samples).moves, 0, |s|, k);
    SplitPassCloses(c, spec, env, s, p.samples, k);
    PlanSplitsExactly(c, spec, env, s, 0, ActiveCount(s), p.samples, k);
  }

  lemma ClosingTopicIsEnsured(c: Config, spec: Spec, env: Env, p: Plane, k: nat)
    requires TopicsDistinct(WithRoot(c, spec, env, p.status)) && EnsureGetsThrough(env, WithRoot(c, spec, env, p.status))
    requires k < |Working(c, spec, env, p)| && Working(c, spec, env, p)[k].phase.Closing?
    ensures Working(c, spec, env, p)[k].topic in Ensured(c, spec, env, p)
  {
    var s, topic := WithRoot(c, spec, env, p.status), Working(c, spec, env, p)[k].topic;
    ClosingWasOpen(c, spec, env, p, k);
    assert IsEnsured(env, s, 0, k, topic);
    EnsuredExactly(env, s, 0, p.topics, topic);
  }

  lemma DeletedIsDrained(spec: Spec, env: Env, w: Status, k: nat)
    requires TopicsDistinct(w) && k < |w|
    ensures SomeDeleted(spec, env, w, 0, w[k].topic) <==> IsDeleted(spec, env, w, 0, k, w[k].topic)
  {
  }

  /** The topic of shard k is deleted if and only if the drain loop comes to it and finds it drained. */
  lemma DeletedIff(c: Config, spec: Spec, env: Env, p: Plane, k: nat)
    requires TopicsDistinct(WithRoot(c, spec, env, p.status)) && TopicsDistinct(Working(c, spec, env, p))
    requires k < |Working(c, spec, env, p)|
    ensures
      var w := Working(c, spec, env, p);
      (w[k].topic in Ensured(c, spec, env, p) && w[k].topic !in PassOf(c, spec, env, p).topics)
      <==> DrainsComeTo(c, spec, env, p, k) && Drains(spec, env, w[k], k)
  {
    var s, w := WithRoot(c, spec, env, p.status), Working(c, spec, env, p);
    LeftExactly(c, spec, env, p, w[k].topic);
    EnsuredExactly(env, s, 0, p.topics, w[k].topic);
    DeletedIsDrained(spec, env, w, k);
    if EnsureGetsThrough(env, s) && w[k].phase.Closing? {
      ClosingTopicIsEnsured(c, spec, env, p, k);
    }
  }

  /**
   The retention promise, exactly. From any reachable status, a pass deletes the topic of shard k before a retention
   period has passed since k stopped being a write target if and only if the drain loop comes to k, finds it Closing, with
   nothing lagging, past retention from its creation and not from its split, and Kafka deletes the topic. What happens
   after that, at later shards or when the map is published, makes no difference.
   */
  lemma DeletedTooEarlyIff(c: Config, h: seq<Move>, spec: Spec, env: Env, p: Plane, k: nat)
    requires Sane(c) && LegalHistory(c, h) && p.status == Replay(c, h) && ClockRuns(env)
    requires k < |Working(c, spec, env, p)|
    ensures TreeInv(c, Working(c, spec, env, p)) && |Working(c, spec, env, p)| > 0
    ensures
      var w := Working(c, spec, env, p);
      DeletesTooEarly(c, spec, env, p, k) <==>
        && DrainsComeTo(c, spec, env, p, k) && w[k].phase.Closing?
        && env.lag(w[k].topic).Some? && env.lag(w[k].topic).value <= 0 && env.deleteOk(w[k].topic)
        && w[k].createdAt + spec.retention <= env.drainAt(k) < StoppedAt(w, k) + spec.retention
  {
    var g := WorkingIsReachable(c, h, spec, env, p);
    HistoryKeepsInv(c, g);
    ReachableTopicsAreDistinct(c, g);
    RootTopicsAreDistinct(c, h, spec, env, p.status);
    DeletedIff(c, spec, env, p, k);
  }

  /** What is deleted too early is also closed too early if and only if no later shard stops the drains. */
  lemma DeletedIsClosedIff(c: Config, h: seq<Move>, spec: Spec, env: Env, p: Plane, k: nat)
    requires Sane(c) && LegalHistory(c, h) && p.status == Replay(c, h) && ClockRuns(env)
    requires k < |Working(c, spec, env, p)|
    ensures TreeInv(c, Working(c, spec, env, p))
    ensures ClosesTooEarly(c, spec, env, p, k)
            <==> DeletesTooEarly(c, spec, env, p, k) && DrainsGetThrough(spec, env, Working(c, spec, env, p))
  {
    DeletedTooEarlyIff(c, h, spec, env, p, k);
    ClosedTooEarlyIff(c, h, spec, env, p, k);
  }
}
