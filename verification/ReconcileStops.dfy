/** A run in which an error at one shard leaves another one Closing whose topic is deleted too early. */
module ReconcileStops {
  import opened Options
  import opened ShardTree
  import opened ShardInvariants
  import opened ShardTopics
  import opened Reconcile
  import opened ReconcileMoves
  import opened ReconcileLaws
  import opened ReconcileRetention
  import opened ReconcileDeletions
  import opened ReconcileLimits
  import opened ReconcileFork

  /** Shard 1 has been split too: shards 0 and 1 are Closing, their descendants Active. */
  function TwoClosing(): Status {
    Apply(QUEUE, SplitStatus(), Split(1, false, 300))
  }

  /** A second later nothing lags, except that nobody can tell how far behind shard 1 is; retention is 250 seconds. */
  const UNREADABLE := Input(
    false, Spec(false, 0, 250), Calm(301, 0, 0, true, true).(lag := t => if t == LEFT then None else Some(0)))

  lemma TwoClosingIs()
    ensures |TwoClosing()| == 5 && TwoClosing()[0] == SplitStatus()[0] && TwoClosing()[1].phase.Closing?
    ensures TwoClosing()[1].topic == LEFT && TwoClosing()[0].phase.Closing? && TwoClosing()[0].createdAt == 1
  {
    SplitStatusIs();
  }

  lemma TwoClosingIsReachable()
    ensures LegalHistory(QUEUE, History() + [Split(1, false, 300)])
    ensures Replay(QUEUE, History() + [Split(1, false, 300)]) == TwoClosing()
  {
    GrownIsReachable();
    SplitStatusIs();
    HistorySnoc(QUEUE, History(), Split(1, false, 300));
  }

  lemma StoppedAtFirstSplit(h: seq<Move>)
    requires LegalHistory(QUEUE, h) && Replay(QUEUE, h) == TwoClosing() && |h| > 1 && h[1] == Split(0, false, 100)
    ensures TreeInv(QUEUE, TwoClosing()) && |TwoClosing()| > 0 && CutInTwo(TwoClosing(), 0)
    ensures StoppedAt(TwoClosing(), 0) == 100
  {
    HistoryKeepsInv(QUEUE, h);
    StoppedAtIsTheSplitTime(QUEUE, h, 1);
  }

  lemma DrainsStop(p: Plane)
    requires p.status == TwoClosing()
    ensures
      var pass := PassOf(QUEUE, UNREADABLE.spec, UNREADABLE.env, p);
      && Working(QUEUE, UNREADABLE.spec, UNREADABLE.env, p) == TwoClosing()
      && |TwoClosing()| > 0 && DrainsComeTo(QUEUE, UNREADABLE.spec, UNREADABLE.env, p, 0)
      && pass.status == TwoClosing() && pass.outcome == Failed("ShardDrain")
  {
    TwoClosingIs();
    var spec, env, w := UNREADABLE.spec, UNREADABLE.env, TwoClosing();
    EnsureGetsThroughIff(env, w, 0, p.topics);
    assert DrainStops(spec, env, w[1], 1);
    DrainsGetThroughIff(QUEUE, spec, env, w, 0, EnsureFrom(env, w, 0, p.topics).topics);
  }

  lemma DeletedBeforeTheStop(p: Plane, h: seq<Move>)
    requires p.status == TwoClosing() == Replay(QUEUE, h) && LegalHistory(QUEUE, h)
    requires |h| > 1 && h[1] == Split(0, false, 100)
    ensures TreeInv(QUEUE, Working(QUEUE, UNREADABLE.spec, UNREADABLE.env, p))
    ensures |Working(QUEUE, UNREADABLE.spec, UNREADABLE.env, p)| > 0
    ensures DeletesTooEarly(QUEUE, UNREADABLE.spec, UNREADABLE.env, p, 0)
  {
    TwoClosingIs();
    StoppedAtFirstSplit(h);
    DrainsStop(p);
    ShardsHaveTheirTopics(h);
    DeletedTooEarlyIff(QUEUE, h, UNREADABLE.spec, UNREADABLE.env, p, 0);
  }

  lemma ShardsHaveTheirTopics(h: seq<Move>)
    requires TwoClosing() == Replay(QUEUE, h) && LegalHistory(QUEUE, h)
    ensures |TwoClosing()| == 5 && TwoClosing()[0].topic != LEFT
  {
    TwoClosingIs();
    if TwoClosing()[0].topic == LEFT { TopicsDiffer(QUEUE, h, 0, 1); }
  }

  /** The pass deletes the topic of shard k too early, and leaves the shard Closing. */
  ghost predicate DeletesAndLeavesClosing(p: Plane, input: Input, k: nat) {
    var w, p' := Working(QUEUE, input.spec, input.env, Known(p, input)), Step(QUEUE, p, input);
    && TreeInv(QUEUE, w) && k < |w| && DeletesTooEarly(QUEUE, input.spec, input.env, Known(p, input), k)
    && p'.status == w && w[k].phase.Closing? && w[k].topic !in p'.topics
  }

  lemma StopLeavesClosing(p: Plane)
    requires p.status == TwoClosing() && |TwoClosing()| > 0 && TreeInv(QUEUE, TwoClosing())
    requires Working(QUEUE, UNREADABLE.spec, UNREADABLE.env, p) == TwoClosing()
    requires DeletesTooEarly(QUEUE, UNREADABLE.spec, UNREADABLE.env, p, 0)
    ensures DeletesAndLeavesClosing(p, UNREADABLE, 0)
  {
    TwoClosingIs();
    DrainsStop(p);
  }

  lemma TwoClosingReached(inputs: seq<Input>)
    requires inputs == UpToSamples()
    ensures After(QUEUE, inputs + [Busy(LEFT, 300, true)]).status == TwoClosing()
  {
    SamplesReached();
    AfterSnoc(inputs, Busy(LEFT, 300, true));
    LeftReached(After(QUEUE, inputs), true);
    LeftSplits(After(QUEUE, inputs), true);
  }

  /**
   Five reconciles: shards 0 and 1 are split and both being drained. A pass deletes the topic of shard 0 when it has been
   split for 201 of the 250 seconds of retention, and then cannot read the lag of shard 1: it fails, and shard 0 stays
   Closing without its messages.
   */
  lemma DeletedAndStillClosing()
    ensures DeletesAndLeavesClosing(After(QUEUE, UpToSamples() + [Busy(LEFT, 300, true)]), UNREADABLE, 0)
  {
    var p := After(QUEUE, UpToSamples() + [Busy(LEFT, 300, true)]);
    TwoClosingReached(UpToSamples());
    TwoClosingIsReachable();
    TwoClosingIs();
    StoppedAtFirstSplit(History() + [Split(1, false, 300)]);
    DrainsStop(p);
    DeletedBeforeTheStop(p, History() + [Split(1, false, 300)]);
    StopLeavesClosing(p);
  }
}
