/** Which topics exist after a reconcile, and whether the one a key is routed to does. */
module ReconcileTopics {
  import opened Options
  import opened Murmur
  import opened Topology
  import opened Router
  import opened ShardTree
  import opened ShardInvariants
  import opened ShardTopics
  import opened Reconcile
  import opened ReconcileMoves
  import opened ReconcileSplitting
  import opened ReconcileLaws
  import opened ReconcileRoutes
  import opened ReconcileRetention

  // ---------------------------------------------------------------------------------------------------------------
  // Every topic was made for one of the first shards
  // ---------------------------------------------------------------------------------------------------------------

  ghost predicate IsTopicBelow(c: Config, n: nat, topic: string) {
    exists i: nat :: i < n && IsTopicOf(c, i, topic)
  }

  /** The number of shards a pass begins with, once the first shard is there. */
  function Begins(s: Status): nat {
    if |s| == 0 then 1 else |s|
  }

  /** Topics exist only for shards that some status had when a pass began. */
  ghost predicate TopicsAreKnown(c: Config, p: Plane) {
    forall topic :: topic in p.topics ==> IsTopicBelow(c, Begins(p.status), topic)
  }

  lemma EnsuredAreKnown(c: Config, h: seq<Move>, spec: Spec, env: Env, p: Plane, topic: string)
    requires Sane(c) && LegalHistory(c, h) && p.status == Replay(c, h) && ClockRuns(env) && TopicsAreKnown(c, p)
    requires topic in EnsureFrom(env, WithRoot(c, spec, env, p.status), 0, p.topics).topics
    ensures IsTopicBelow(c, Begins(p.status), topic)
  {
    var s1 := WithRoot(c, spec, env, p.status);
    var g := RootIsReachable(c, h, spec, env, p.status);
    EnsureAddsOpenTopics(env, s1, 0, p.topics, topic);
    if topic !in p.topics {
      var k :| 0 <= k < |s1| && !s1[k].phase.Closed? && s1[k].topic == topic;
      TopicOfShard(c, g, k);
    }
  }

  lemma PassTopicsAreEnsured(c: Config, spec: Spec, env: Env, p: Plane, topic: string)
    requires topic in PassOf(c, spec, env, p).topics
    ensures topic in EnsureFrom(env, WithRoot(c, spec, env, p.status), 0, p.topics).topics
  {
    var ensured := EnsureFrom(env, WithRoot(c, spec, env, p.status), 0, p.topics);
    DrainsDeleteClosingTopics(c, spec, env, Working(c, spec, env, p), 0, ensured.topics, topic);
  }

  /** A pass adds shards and never drops one. */
  lemma PassKeepsShards(c: Config, spec: Spec, env: Env, p: Plane)
    ensures |PassOf(c, spec, env, p).status| >= Begins(p.status)
  {
    var s1 := WithRoot(c, spec, env, p.status);
    SplitPassCloses(c, spec, env, s1, p.samples, 0);
  }

  lemma StepKeepsTopicsKnown(c: Config, h: seq<Move>, p: Plane, input: Input)
    requires Sane(c) && LegalHistory(c, h) && p.status == Replay(c, h) && ClockRuns(input.env) && TopicsAreKnown(c, p)
    ensures TopicsAreKnown(c, Step(c, p, input))
  {
    var q, p' := Known(p, input), Step(c, p, input);
    PassKeepsShards(c, input.spec, input.env, q);
    forall topic | topic in p'.topics ensures IsTopicBelow(c, Begins(p'.status), topic) {
      if input.env.dlqOk && input.env.finalizerOk {
        PassTopicsAreEnsured(c, input.spec, input.env, q, topic);
        EnsuredAreKnown(c, h, input.spec, input.env, q, topic);
      }
      var i: nat :| i < Begins(p.status) && IsTopicOf(c, i, topic);
      assert i < Begins(p'.status);
    }
  }

  /** After any series of reconciles every topic is that of a persisted shard, or of the first shard about to be. */
  lemma {:induction false} TopicsStayKnown(c: Config, inputs: seq<Input>)
    requires Sane(c) && ClocksRun(inputs)
    ensures TopicsAreKnown(c, After(c, inputs))
  {
    if |inputs| > 0 {
      var n := |inputs| - 1;
      TopicsStayKnown(c, inputs[..n]);
      var h := PersistedStatusIsReachable(c, inputs[..n]);
      StepKeepsTopicsKnown(c, h, After(c, inputs[..n]), inputs[n]);
    }
  }

  // ---------------------------------------------------------------------------------------------------------------
  // The topic a key is routed to
  // ---------------------------------------------------------------------------------------------------------------

  /** An Active shard that the pass began with has its topic, one that the pass added does not. */
  lemma ActiveTopicExistsIff(c: Config, h: seq<Move>, spec: Spec, env: Env, p: Plane, j: nat)
    requires Sane(c) && LegalHistory(c, h) && p.status == Replay(c, h) && ClockRuns(env) && TopicsAreKnown(c, p)
    requires ReachesTheEndOfDrains(c, spec, env, p)
    requires j < |PassOf(c, spec, env, p).status| && PassOf(c, spec, env, p).status[j].phase.Active?
    ensures PassOf(c, spec, env, p).status[j].topic in PassOf(c, spec, env, p).topics <==> j < Begins(p.status)
  {
    var s1, w, pass := WithRoot(c, spec, env, p.status), Working(c, spec, env, p), PassOf(c, spec, env, p);
    var topics := EnsureFrom(env, s1, 0, p.topics).topics;
    var g := WorkingIsReachable(c, h, spec, env, p);
    PassKeepsShards(c, spec, env, p);
    DrainPassCloses(c, spec, env, w, topics, j);
    assert w[j] == pass.status[j];
    if j < Begins(p.status) {
      SplitPassCloses(c, spec, env, s1, p.samples, j);
      EnsureAddsOpenTopics(env, s1, 0, p.topics, w[j].topic);
      DrainsDeleteClosingTopics(c, spec, env, w, 0, topics, w[j].topic);
      if IsClosingTopic(w, w[j].topic) {
        var k :| 0 <= k < |w| && w[k].phase.Closing? && w[k].topic == w[j].topic;
        TopicsDiffer(c, g, j, k);
      }
    } else if w[j].topic in pass.topics {
      PassTopicsAreEnsured(c, spec, env, p, w[j].topic);
      EnsuredAreKnown(c, h, spec, env, p, w[j].topic);
      var i: nat :| i < Begins(p.status) && IsTopicOf(c, i, w[j].topic);
      TopicOfShard(c, g, j);
      TopicOfOneShard(c, i, j, w[j].topic);
    }
  }

  /** The reconcile gets as far as publishing its map. */
  predicate PublishesMap(c: Config, p: Plane, input: Input) {
    && input.env.dlqOk && input.env.finalizerOk && ReachesTheEndOfDrains(c, input.spec, input.env, Known(p, input))
    && input.env.metaOk && input.env.mapOk
  }

  lemma MapOfPass(c: Config, p: Plane, input: Input)
    requires PublishesMap(c, p, input)
    ensures
      var pass := PassOf(c, input.spec, input.env, Known(p, input));
      Step(c, p, input).published == Some(Published(pass.status)) && Step(c, p, input).topics == pass.topics
  {
  }

  /**
   After any series of reconciles, one that publishes its map leaves a key routed to a topic that exists if and only if
   the key's owner was there when the pass began: the topics of the shards it has added are made by the next one.
   */
  lemma RoutedTopicExistsIff(c: Config, inputs: seq<Input>, input: Input, key: Key)
    requires Sane(c) && ClocksRun(inputs) && ClockRuns(input.env) && PublishesMap(c, After(c, inputs), input)
    ensures
      var p := After(c, inputs);
      var p', s := Step(c, p, input), PassOf(c, input.spec, input.env, Known(p, input)).status;
      && HasOwner(s, HashKey(key))
      && Route(p'.published, key) == Routed(RouteShard(s[OwnerOf(s, HashKey(key))]))
      && (s[OwnerOf(s, HashKey(key))].topic in p'.topics <==> OwnerOf(s, HashKey(key)) < Begins(p.status))
  {
    var p := After(c, inputs);
    var q := Known(p, input);
    var s := PassOf(c, input.spec, input.env, q).status;
    var h := PersistedStatusIsReachable(c, inputs);
    TopicsStayKnown(c, inputs);
    MapOfPass(c, p, input);
    PassGoesOn(c, h, input.spec, input.env, q);
    PassKeepsShards(c, input.spec, input.env, q);
    var g := h + PassOf(c, input.spec, input.env, q).moves;
    ListsItself(s);
    RoutesToTheOwner(c, g, Published(s), key);
    ActiveTopicExistsIff(c, h, input.spec, input.env, q, OwnerOf(s, HashKey(key)));
  }

  // ---------------------------------------------------------------------------------------------------------------
  // After any reconcile
  // ---------------------------------------------------------------------------------------------------------------

  /** Every topic due before shard k, and its own, is ensured. */
  predicate IsEnsured(env: Env, s: Status, i: nat, k: nat, topic: string)
    requires k < |s|
  {
    && !s[k].phase.Closed? && s[k].topic == topic
    && forall j :: i <= j <= k && !s[j].phase.Closed? ==> env.createOk(s[j].topic)
  }

  ghost predicate SomeEnsured(env: Env, s: Status, i: nat, topic: string) {
    exists k :: i <= k < |s| && IsEnsured(env, s, i, k, topic)
  }

  lemma {:induction false} EnsuredExactly(env: Env, s: Status, i: nat, topics: set<string>, topic: string)
    requires i <= |s|
    ensures topic in EnsureFrom(env, s, i, topics).topics <==> topic in topics || SomeEnsured(env, s, i, topic)
    decreases |s| - i
  {
    if i < |s| {
      if s[i].phase.Closed? {
        EnsuredExactly(env, s, i + 1, topics, topic);
        EnsuredLater(env, s, i, topic);
      } else if env.createOk(s[i].topic) {
        EnsuredExactly(env, s, i + 1, topics + {s[i].topic}, topic);
        EnsuredLater(env, s, i, topic);
      }
    }
  }

  lemma EnsuredLater(env: Env, s: Status, i: nat, topic: string)
    requires i < |s| && (s[i].phase.Closed? || env.createOk(s[i].topic))
    ensures SomeEnsured(env, s, i, topic) <==>
      (!s[i].phase.Closed? && s[i].topic == topic) || SomeEnsured(env, s, i + 1, topic)
  {
    if !s[i].phase.Closed? && s[i].topic == topic {
      assert IsEnsured(env, s, i, i, topic);
    }
    if SomeEnsured(env, s, i + 1, topic) {
      var k :| i + 1 <= k < |s| && IsEnsured(env, s, i + 1, k, topic);
      assert IsEnsured(env, s, i, k, topic);
    }
    if SomeEnsured(env, s, i, topic) {
      var k :| i <= k < |s| && IsEnsured(env, s, i, k, topic);
      assert k > i ==> IsEnsured(env, s, i + 1, k, topic);
    }
  }

  /** The drains come to shard k without an error and delete its topic. */
  predicate IsDeleted(spec: Spec, env: Env, s: Status, i: nat, k: nat, topic: string)
    requires k < |s|
  {
    && s[k].topic == topic && Drains(spec, env, s[k], k)
    && forall j :: i <= j < k && s[j].phase.Closing? ==> !DrainStops(spec, env, s[j], j)
  }

  ghost predicate SomeDeleted(spec: Spec, env: Env, s: Status, i: nat, topic: string) {
    exists k :: i <= k < |s| && IsDeleted(spec, env, s, i, k, topic)
  }

  lemma DeletedLater(spec: Spec, env: Env, s: Status, s': Status, i: nat, topic: string)
    requires i < |s| && (s[i].phase.Closing? ==> !DrainStops(spec, env, s[i], i))
    requires |s'| == |s| && forall k :: i < k < |s| ==> s'[k] == s[k]
    ensures SomeDeleted(spec, env, s, i, topic) <==>
      (Drains(spec, env, s[i], i) && s[i].topic == topic) || SomeDeleted(spec, env, s', i + 1, topic)
  {
    if Drains(spec, env, s[i], i) && s[i].topic == topic {
      assert IsDeleted(spec, env, s, i, i, topic);
    }
    if SomeDeleted(spec, env, s', i + 1, topic) {
      var k :| i + 1 <= k < |s'| && IsDeleted(spec, env, s', i + 1, k, topic);
      assert IsDeleted(spec, env, s, i, k, topic);
    }
    if SomeDeleted(spec, env, s, i, topic) {
      var k :| i <= k < |s| && IsDeleted(spec, env, s, i, k, topic);
      assert k > i ==> IsDeleted(spec, env, s', i + 1, k, topic);
    }
  }

  lemma {:induction false} DeletedExactly(
    c: Config, spec: Spec, env: Env, s: Status, i: nat, topics: set<string>, topic: string)
    requires i <= |s|
    ensures topic in DrainFrom(c, spec, env, s, i, topics).topics
            <==> topic in topics && !SomeDeleted(spec, env, s, i, topic)
    decreases |s| - i
  {
    if i < |s| {
      if Drains(spec, env, s[i], i) {
        DeletedExactly(c, spec, env, Apply(c, s, Close(i)), i + 1, topics - {s[i].topic}, topic);
        DeletedLater(spec, env, s, Apply(c, s, Close(i)), i, topic);
      } else if s[i].phase.Closing? && DrainStops(spec, env, s[i], i) {
        NothingPastAnError(spec, env, s, i, topic);
      } else {
        DeletedExactly(c, spec, env, s, i + 1, topics, topic);
        DeletedLater(spec, env, s, s, i, topic);
      }
    }
  }

  lemma NothingPastAnError(spec: Spec, env: Env, s: Status, i: nat, topic: string)
    requires i < |s| && s[i].phase.Closing? && DrainStops(spec, env, s[i], i)
    ensures !SomeDeleted(spec, env, s, i, topic)
  {
  }

  /** What a pass leaves of a topic: it was there or is ensured, and the drains, if they are reached, do not delete it. */
  ghost predicate IsLeft(c: Config, spec: Spec, env: Env, p: Plane, topic: string) {
    var s := WithRoot(c, spec, env, p.status);
    && (topic in p.topics || SomeEnsured(env, s, 0, topic))
    && !(EnsureGetsThrough(env, s) && SplitsGetThrough(c, spec, env, s, p.samples)
         && SomeDeleted(spec, env, Working(c, spec, env, p), 0, topic))
  }

  lemma LeftExactly(c: Config, spec: Spec, env: Env, p: Plane, topic: string)
    requires TopicsDistinct(WithRoot(c, spec, env, p.status))
    ensures topic in PassOf(c, spec, env, p).topics <==> IsLeft(c, spec, env, p, topic)
  {
    var s := WithRoot(c, spec, env, p.status);
    EnsureGetsThroughIff(env, s, 0, p.topics);
    SplitsGetThroughIff(c, spec, env, s, p.samples);
    EnsuredExactly(env, s, 0, p.topics, topic);
    DeletedExactly(c, spec, env, Working(c, spec, env, p), 0, EnsureFrom(env, s, 0, p.topics).topics, topic);
  }

  /**
   After any reconcile, whatever it published or failed to publish: the topic that the map in force routes a key to
   exists if and only if the reconcile left it, that is if it was there or was ensured, and no drain has deleted it.
   */
  lemma RoutedTopicIsLeftIff(c: Config, inputs: seq<Input>, input: Input, key: Key)
    requires Sane(c) && ClocksRun(inputs) && ClockRuns(input.env)
    requires Step(c, After(c, inputs), input).published.Some?
    ensures
      var p, p' := After(c, inputs), Step(c, After(c, inputs), input);
      && Route(p'.published, key).Routed?
      && (Route(p'.published, key).shard.topic in p'.topics <==>
            if input.env.dlqOk && input.env.finalizerOk
            then IsLeft(c, input.spec, input.env, Known(p, input), Route(p'.published, key).shard.topic)
            else Route(p'.published, key).shard.topic in p.topics)
  {
    var p := After(c, inputs);
    assert (inputs + [input])[..|inputs|] == inputs;
    var g := EveryKeyRoutes(c, inputs + [input], key);
    var h := PersistedStatusIsReachable(c, inputs);
    RootTopicsAreDistinct(c, h, input.spec, input.env, p.status);
    LeftExactly(c, input.spec, input.env, Known(p, input), Route(Step(c, p, input).published, key).shard.topic);
  }
}
