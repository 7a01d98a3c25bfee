/** What reconciles do to topics and to the published map. */
module ReconcileLaws {
  import opened Topology
  import opened ShardTree
  import opened ShardInvariants
  import opened ShardRuns
  import opened ShardTopics
  import opened Reconcile
  import opened ReconcileMoves

  // ---------------------------------------------------------------------------------------------------------------
  // Topics
  // ---------------------------------------------------------------------------------------------------------------

  ghost predicate IsOpenTopic(s: Status, topic: string) {
    exists k :: 0 <= k < |s| && !s[k].phase.Closed? && s[k].topic == topic
  }

  /** Topics are only added, and only those of shards that are not Closed; all of those, if nothing fails. */
  lemma {:induction false} EnsureAddsOpenTopics(env: Env, s: Status, i: nat, topics: set<string>, topic: string)
    requires i <= |s|
    ensures
      var r := EnsureFrom(env, s, i, topics);
      && (topic in topics ==> topic in r.topics)
      && (topic in r.topics ==> topic in topics || IsOpenTopic(s, topic))
      && (r.ok ==> forall k :: i <= k < |s| && !s[k].phase.Closed? && s[k].topic == topic ==> topic in r.topics)
    decreases |s| - i
  {
    if i == |s| {
    } else if s[i].phase.Closed? {
      EnsureAddsOpenTopics(env, s, i + 1, topics, topic);
    } else if env.createOk(s[i].topic) {
      EnsureAddsOpenTopics(env, s, i + 1, topics + {s[i].topic}, topic);
    }
  }

  /** All topics are ensured if and only if none that is due fails. */
  lemma {:induction false} EnsureGetsThroughIff(env: Env, s: Status, i: nat, topics: set<string>)
    requires i <= |s|
    ensures EnsureFrom(env, s, i, topics).ok
            <==> forall k :: i <= k < |s| && !s[k].phase.Closed? ==> env.createOk(s[k].topic)
    decreases |s| - i
  {
    if i < |s| {
      if s[i].phase.Closed? {
        EnsureGetsThroughIff(env, s, i + 1, topics);
      } else if env.createOk(s[i].topic) {
        EnsureGetsThroughIff(env, s, i + 1, topics + {s[i].topic});
      }
    }
  }

  ghost predicate IsClosingTopic(s: Status, topic: string) {
    exists k :: 0 <= k < |s| && s[k].phase.Closing? && s[k].topic == topic
  }

  /**
   Drains only delete topics, and only those of Closing shards; a shard they close had nothing left to consume, was past
   its retention, and has lost its topic; every other shard stays as it was.
   */
  lemma {:induction false} DrainsDeleteClosingTopics(
    c: Config, spec: Spec, env: Env, s: Status, i: nat, topics: set<string>, topic: string)
    requires i <= |s|
    ensures
      var r := DrainFrom(c, spec, env, s, i, topics);
      && (topic in r.topics ==> topic in topics)
      && (topic in topics && topic !in r.topics ==> IsClosingTopic(s, topic))
    decreases |s| - i
  {
    if i < |s| {
      if Drains(spec, env, s[i], i) {
        var s' := Apply(c, s, Close(i));
        DrainsDeleteClosingTopics(c, spec, env, s', i + 1, topics - {s[i].topic}, topic);
        if IsClosingTopic(s', topic) {
          var k :| 0 <= k < |s'| && s'[k].phase.Closing? && s'[k].topic == topic;
          assert s[k] == s'[k];
        }
      } else {
        DrainsDeleteClosingTopics(c, spec, env, s, i + 1, topics, topic);
      }
    }
  }

  lemma {:induction false} DrainsCloseDrained(
    c: Config, spec: Spec, env: Env, s: Status, i: nat, topics: set<string>, k: nat)
    requires i <= |s| && k < |s|
    ensures
      var r := DrainFrom(c, spec, env, s, i, topics);
      && |r.status| == |s|
      && (if r.status[k] == s[k] then true
          else i <= k && Drains(spec, env, s[k], k) && r.status[k] == s[k].(phase := Closed) && s[k].topic !in r.topics)
      && (r.ok && i <= k && Drains(spec, env, s[k], k) ==> r.status[k].phase.Closed?)
    decreases |s| - i
  {
    if i < |s| {
      if Drains(spec, env, s[i], i) {
        var s', topics' := Apply(c, s, Close(i)), topics - {s[i].topic};
        DrainsCloseDrained(c, spec, env, s', i + 1, topics', k);
        DrainsDeleteClosingTopics(c, spec, env, s', i + 1, topics', s[i].topic);
      } else {
        DrainsCloseDrained(c, spec, env, s, i + 1, topics, k);
      }
    }
  }

  /** Exactly the shards whose turn it is are closed, unless an error undoes the whole pass. */
  lemma DrainPassCloses(c: Config, spec: Spec, env: Env, s: Status, topics: set<string>, k: nat)
    requires k < |s|
    ensures
      var r := DrainPass(c, spec, env, s, topics);
      && |r.status| == |s|
      && r.status[k] == (if r.ok && Drains(spec, env, s[k], k) then s[k].(phase := Closed) else s[k])
      && (r.ok && Drains(spec, env, s[k], k) ==> s[k].topic !in r.topics)
  {
    DrainsCloseDrained(c, spec, env, s, 0, topics, k);
  }

  /** The drains of a pass get through if and only if no Closing shard meets an error. */
  lemma {:induction false} DrainsGetThroughIff(c: Config, spec: Spec, env: Env, s: Status, i: nat, topics: set<string>)
    requires i <= |s|
    ensures DrainFrom(c, spec, env, s, i, topics).ok
            <==> forall k :: i <= k < |s| && s[k].phase.Closing? ==> !DrainStops(spec, env, s[k], k)
    decreases |s| - i
  {
    if i < |s| {
      if Drains(spec, env, s[i], i) {
        var s' := Apply(c, s, Close(i));
        DrainsGetThroughIff(c, spec, env, s', i + 1, topics - {s[i].topic});
        assert !DrainStops(spec, env, s[i], i) && forall k :: i + 1 <= k < |s| ==> s'[k] == s[k];
      } else {
        DrainsGetThroughIff(c, spec, env, s, i + 1, topics);
      }
    }
  }

  /** The status the drains of a pass begin with. */
  function Working(c: Config, spec: Spec, env: Env, p: Plane): Status {
    SplitPass(c, spec, env, WithRoot(c, spec, env, p.status), p.samples).status
  }

  lemma WorkingIsReachable(c: Config, h: seq<Move>, spec: Spec, env: Env, p: Plane) returns (g: seq<Move>)
    requires LegalHistory(c, h) && p.status == Replay(c, h) && ClockRuns(env)
    ensures LegalHistory(c, g) && Working(c, spec, env, p) == Replay(c, g) && |g| > 0
  {
    var root := RootMoves(spec, env, p.status);
    RootIsLegal(c, spec, env, p.status);
    HistoryGoesOn(c, h, root);
    var s1 := WithRoot(c, spec, env, p.status);
    SplitPassIsLegal(c, spec, env, s1, p.samples);
    HistoryGoesOn(c, h + root, SplitPass(c, spec, env, s1, p.samples).moves);
    g := h + root + SplitPass(c, spec, env, s1, p.samples).moves;
  }

  /** The key ranges below shard k are all owned by other shards that descend from it. */
  ghost predicate CoveredBelow(s: Status, k: nat)
    requires ParentsFirst(s) && k < |s|
  {
    forall h :: InRange(s[k], h) ==> HasOwnerBelow(s, k, h)
  }

  ghost predicate HasOwnerBelow(s: Status, k: nat, h: int)
    requires ParentsFirst(s) && k < |s|
  {
    exists d :: Owns(s, d, h) && d != k && Descendant(s, k, d)
  }

  lemma ClosingIsCovered(c: Config, g: seq<Move>, k: nat)
    requires Sane(c) && LegalHistory(c, g) && k < |Replay(c, g)| && Replay(c, g)[k].phase.Closing?
    ensures TreeInv(c, Replay(c, g)) && CoveredBelow(Replay(c, g), k)
  {
    HistoryKeepsInv(c, g);
    forall h | InRange(Replay(c, g)[k], h) ensures HasOwnerBelow(Replay(c, g), k, h) {
      DrainsMoveNoKey(c, g, k, 0, h);
    }
  }

  /**
   A reconcile deletes a topic only if it is the topic of a Closing shard whose whole range is owned by Active
   descendants, and of no shard that is Active.
   */
  lemma DeletedTopicsAreCovered(c: Config, h: seq<Move>, spec: Spec, env: Env, p: Plane, topic: string) returns (k: nat)
    requires Sane(c) && LegalHistory(c, h) && p.status == Replay(c, h) && ClockRuns(env)
    requires topic in p.topics && topic !in PassOf(c, spec, env, p).topics
    ensures var w := Working(c, spec, env, p);
            && TreeInv(c, w) && k < |w| && w[k].phase.Closing? && w[k].topic == topic && CoveredBelow(w, k)
            && forall d :: 0 <= d < |w| && w[d].phase.Active? ==> w[d].topic != topic
  {
    var w := Working(c, spec, env, p);
    var g := WorkingIsReachable(c, h, spec, env, p);
    var ensured := EnsureFrom(env, WithRoot(c, spec, env, p.status), 0, p.topics);
    EnsureAddsOpenTopics(env, WithRoot(c, spec, env, p.status), 0, p.topics, topic);
    DrainsDeleteClosingTopics(c, spec, env, w, 0, ensured.topics, topic);
    k :| 0 <= k < |w| && w[k].phase.Closing? && w[k].topic == topic;
    ClosingIsCovered(c, g, k);
    forall d | 0 <= d < |w| && w[d].phase.Active? ensures w[d].topic != topic {
      TopicsDiffer(c, g, k, d);
    }
  }

  // ---------------------------------------------------------------------------------------------------------------
  // The topics of Closed shards
  // ---------------------------------------------------------------------------------------------------------------

  predicate ClosedTopicsGone(s: Status, topics: set<string>) {
    forall i :: 0 <= i < |s| && s[i].phase.Closed? ==> s[i].topic !in topics
  }

  lemma EnsureLeavesClosed(c: Config, h: seq<Move>, env: Env, topics: set<string>)
    requires Sane(c) && LegalHistory(c, h) && ClosedTopicsGone(Replay(c, h), topics)
    ensures ClosedTopicsGone(Replay(c, h), EnsureFrom(env, Replay(c, h), 0, topics).topics)
  {
    var s := Replay(c, h);
    forall i | 0 <= i < |s| && s[i].phase.Closed? ensures s[i].topic !in EnsureFrom(env, s, 0, topics).topics {
      EnsureAddsOpenTopics(env, s, 0, topics, s[i].topic);
      if IsOpenTopic(s, s[i].topic) {
        var k :| 0 <= k < |s| && !s[k].phase.Closed? && s[k].topic == s[i].topic;
        TopicsDiffer(c, h, i, k);
      }
    }
  }

  lemma SplitsLeaveClosed(c: Config, spec: Spec, env: Env, s: Status, samples: map<string, Sample>, topics: set<string>)
    requires ClosedTopicsGone(s, topics)
    ensures ClosedTopicsGone(SplitPass(c, spec, env, s, samples).status, topics)
  {
    var r := SplitPass(c, spec, env, s, samples);
    PlanStaysBetween(c, spec, env, s, 0, ActiveCount(s), samples);
    forall k | 0 <= k < |r.status| && r.status[k].phase.Closed? ensures r.status[k].topic !in topics {
      SplitsTouchOldShards(c, s, r.moves, 0, |s|, k);
    }
  }

  lemma DrainsLeaveClosed(c: Config, spec: Spec, env: Env, s: Status, topics: set<string>)
    requires ClosedTopicsGone(s, topics)
    ensures ClosedTopicsGone(DrainPass(c, spec, env, s, topics).status, DrainPass(c, spec, env, s, topics).topics)
  {
    var r := DrainPass(c, spec, env, s, topics);
    forall k | 0 <= k < |r.status| && r.status[k].phase.Closed? ensures r.status[k].topic !in r.topics {
      DrainPassCloses(c, spec, env, s, topics, k);
      DrainsDeleteClosingTopics(c, spec, env, s, 0, topics, r.status[k].topic);
    }
  }

  lemma DrainsKeepGone(c: Config, spec: Spec, env: Env, w: Status, s: Status, topics: set<string>)
    requires ClosedTopicsGone(s, topics)
    ensures ClosedTopicsGone(s, DrainPass(c, spec, env, w, topics).topics)
  {
    forall i | 0 <= i < |s| && s[i].phase.Closed? ensures s[i].topic !in DrainPass(c, spec, env, w, topics).topics {
      DrainsDeleteClosingTopics(c, spec, env, w, 0, topics, s[i].topic);
    }
  }

  /** Whichever of its two statuses a pass leaves, the old or the new, the topics of its Closed shards do not exist. */
  lemma PassLeavesClosed(c: Config, h: seq<Move>, spec: Spec, env: Env, p: Plane)
    requires Sane(c) && LegalHistory(c, h) && p.status == Replay(c, h) && ClockRuns(env)
    requires ClosedTopicsGone(p.status, p.topics)
    ensures
      var pass := PassOf(c, spec, env, p);
      ClosedTopicsGone(pass.status, pass.topics) && ClosedTopicsGone(p.status, pass.topics)
  {
    var s1, root := WithRoot(c, spec, env, p.status), RootMoves(spec, env, p.status);
    RootIsLegal(c, spec, env, p.status);
    HistoryGoesOn(c, h, root);
    EnsureLeavesClosed(c, h + root, env, p.topics);
    var topics := EnsureFrom(env, s1, 0, p.topics).topics;
    SplitsLeaveClosed(c, spec, env, s1, p.samples, topics);
    var w := Working(c, spec, env, p);
    DrainsLeaveClosed(c, spec, env, w, topics);
    DrainsKeepGone(c, spec, env, w, p.status, topics);
  }

  /**
   Topics of Closed shards stay deleted: after any series of reconciles, whatever fails and whichever writes are lost,
   no topic exists that a Closed shard of the persisted status names.
   */
  lemma {:induction false} ClosedTopicsStayGone(c: Config, inputs: seq<Input>) returns (h: seq<Move>)
    requires Sane(c) && ClocksRun(inputs)
    ensures LegalHistory(c, h) && After(c, inputs).status == Replay(c, h)
    ensures ClosedTopicsGone(After(c, inputs).status, After(c, inputs).topics)
  {
    h := [];
    if |inputs| > 0 {
      var n := |inputs| - 1;
      var input, p := inputs[n], After(c, inputs[..n]);
      h := ClosedTopicsStayGone(c, inputs[..n]);
      PassLeavesClosed(c, h, input.spec, input.env, Known(p, input));
      h := HistoryAfter(c, h, input, p);
    }
  }

  /** A pass gets as far as the end of its drains. */
  predicate ReachesTheEndOfDrains(c: Config, spec: Spec, env: Env, p: Plane) {
    var s1 := WithRoot(c, spec, env, p.status);
    && EnsureFrom(env, s1, 0, p.topics).ok && SplitPass(c, spec, env, s1, p.samples).ok
    && DrainPass(c, spec, env, Working(c, spec, env, p), EnsureFrom(env, s1, 0, p.topics).topics).ok
  }
}
