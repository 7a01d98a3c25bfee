/** What a reconcile reports, and what it leaves behind at each of its exits. */
module ReconcileOutcomes {
  import opened Options
  import opened Topology
  import opened Router
  import opened ShardTree
  import opened ShardInvariants
  import opened Reconcile
  import opened ReconcileSplitting
  import opened ReconcileLaws
  import opened ReconcileRetention

  /** How a pass ends, by the first thing that stops it. */
  function Ending(c: Config, spec: Spec, env: Env, p: Plane): Outcome {
    var s, w := WithRoot(c, spec, env, p.status), Working(c, spec, env, p);
    if !EnsureGetsThrough(env, s) then Failed("EnsureTopics")
    else if !SplitsGetThrough(c, spec, env, s, p.samples) then Failed("ShardSplit")
    else if !DrainsGetThrough(spec, env, w) then Failed("ShardDrain")
    else if !env.metaOk || !env.mapOk then Failed("PublishRedis")
    else if !env.temporalOk then Failed("TemporalWorker")
    else Ready
  }

  /** The pass comes to the end of its drains. */
  predicate GetsToPublish(o: Outcome) {
    o.Ready? || o == Failed("PublishRedis") || o == Failed("TemporalWorker")
  }

  lemma EndsAs(c: Config, spec: Spec, env: Env, p: Plane)
    requires TopicsDistinct(WithRoot(c, spec, env, p.status))
    ensures PassOf(c, spec, env, p).outcome == Ending(c, spec, env, p)
    ensures GetsToPublish(Ending(c, spec, env, p)) <==> GetsThrough(c, spec, env, p)
  {
    var s := WithRoot(c, spec, env, p.status);
    EnsureGetsThroughIff(env, s, 0, p.topics);
    SplitsGetThroughIff(c, spec, env, s, p.samples);
    DrainPassGetsThroughIff(c, spec, env, Working(c, spec, env, p), EnsureFrom(env, s, 0, p.topics).topics);
  }

  /** What the pass has done when it ends. */
  ghost predicate LeavesBehind(c: Config, spec: Spec, env: Env, p: Plane) {
    var pass, s, w := PassOf(c, spec, env, p), WithRoot(c, spec, env, p.status), Working(c, spec, env, p);
    && (!EnsureGetsThrough(env, s) ==> pass.status == s && pass.samples == p.samples)
    && (EnsureGetsThrough(env, s) ==> pass.samples == SplitPass(c, spec, env, s, p.samples).samples)
    && (EnsureGetsThrough(env, s) && !GetsThrough(c, spec, env, p) ==> pass.status == w)
    && pass.published ==
         if GetsThrough(c, spec, env, p) && env.metaOk && env.mapOk then Some(Published(pass.status)) else p.published
  }

  lemma LeftBehind(c: Config, spec: Spec, env: Env, p: Plane)
    requires TopicsDistinct(WithRoot(c, spec, env, p.status))
    ensures LeavesBehind(c, spec, env, p)
  {
    var s := WithRoot(c, spec, env, p.status);
    EnsureGetsThroughIff(env, s, 0, p.topics);
    SplitsGetThroughIff(c, spec, env, s, p.samples);
    DrainPassGetsThroughIff(c, spec, env, Working(c, spec, env, p), EnsureFrom(env, s, 0, p.topics).topics);
  }

  /**
   The outcome of a reconcile tells how far it got, whatever its loops did on the way. The status it arrives at has the
   splits once the topics are ensured, also those made before a sampling error, and the drains if they get through; the
   samples are those left by the splits; and the map is published exactly when the drains get through and both writes to
   Redis succeed, even if the Temporal worker then fails.
   */
  lemma OutcomeTells(c: Config, h: seq<Move>, spec: Spec, env: Env, p: Plane)
    requires Sane(c) && LegalHistory(c, h) && p.status == Replay(c, h) && ClockRuns(env)
    ensures PassOf(c, spec, env, p).outcome == Ending(c, spec, env, p) && LeavesBehind(c, spec, env, p)
  {
    RootTopicsAreDistinct(c, h, spec, env, p.status);
    EndsAs(c, spec, env, p);
    LeftBehind(c, spec, env, p);
  }

  /**
   What is written: nothing at all when the finalizer cannot be added, only the failed phase when the dead-letter targets
   form a cycle, and else the status the pass arrived at, if the write succeeds; topics, map and samples stay as the pass
   left them even if it does not.
   */
  lemma WrittenIff(c: Config, spec: Spec, env: Env, p: Plane)
    ensures
      var (p', outcome), pass := ReconcileOp(c, spec, env, p), PassOf(c, spec, env, p);
      if env.dlqOk && env.finalizerOk then
        && p'.topics == pass.topics && p'.published == pass.published && p'.samples == pass.samples
        && (env.writeOk ==> p'.status == pass.status && outcome == pass.outcome)
        && (!env.writeOk ==> p'.status == p.status && outcome.NotWritten?)
      else
        && p' == p
        && outcome == if env.dlqOk then NoFinalizer else if env.writeOk then Failed("DLQCycle") else NotWritten
  {
  }

  /** A new queue begins with one Active shard, number 0 without a parent, that owns the whole key space. */
  lemma NewQueueBeginsWith(c: Config, spec: Spec, env: Env)
    ensures WithRoot(c, spec, env, [])
      == [ShardStatus("0", ShardTopicName(c.queueName, spec.fifo, "0"), 0, 0xFFFF_FFFF, Active, "", env.bornAt)]
  {
  }
}
