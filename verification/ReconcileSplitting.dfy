/** Which shards a pass splits, said without the loop. */
module ReconcileSplitting {
  import opened Options
  import opened Topology
  import opened ShardTree
  import opened ShardInvariants
  import opened ShardTopics
  import opened Reconcile
  import opened ReconcileMoves

  predicate TopicsDistinct(s: Status) {
    forall i, j :: 0 <= i < |s| && 0 <= j < |s| && s[i].topic == s[j].topic ==> i == j
  }

  /** The loop would look at the shard's throughput: it is Active, and its cooldown is over or has no beginning. */
  predicate IsSampled(c: Config, env: Env, s: Status, k: nat)
    requires k < |s|
  {
    s[k].phase.Active? && (s[k].createdAt == 0 || env.checkAt(k) >= s[k].createdAt + c.cooldown)
  }

  predicate CannotBeSampled(c: Config, env: Env, s: Status, k: nat)
    requires k < |s|
  {
    IsSampled(c, env, s, k) && env.offsetSum(s[k].topic).None?
  }

  /** Records of 1024 bytes have come in at the threshold rate, in bytes per second, or faster since the last sample. */
  predicate RateReaches(threshold: int, last: Sample, offsetSum: int, now: int) {
    now > last.at && (offsetSum - last.offsetSum) as real / (now - last.at) as real * 1024.0 >= threshold as real
  }

  lemma RateTimesSeconds(records: int, seconds: int, threshold: int)
    requires seconds > 0
    ensures records as real / seconds as real * 1024.0 >= threshold as real <==> records * 1024 >= threshold * seconds
  {
    var rate := records as real / seconds as real;
    assert rate * seconds as real == records as real;
    assert rate * 1024.0 * seconds as real == records as real * 1024.0;
    RealsInOrder(rate * 1024.0, threshold as real, seconds as real);
    assert records as real * 1024.0 == (records * 1024) as real;
    assert threshold as real * seconds as real == (threshold * seconds) as real;
  }

  lemma RealsInOrder(a: real, b: real, x: real)
    requires x > 0.0
    ensures a >= b <==> a * x >= b * x
  {
    assert (a - b) * x == a * x - b * x;
  }

  /** The comparison of integers is the one of rates. */
  lemma OverThresholdIsRate(threshold: int, last: Option<Sample>, offsetSum: int, now: int)
    ensures OverThreshold(threshold, last, offsetSum, now) <==> last.Some? && RateReaches(threshold, last.value, offsetSum, now)
  {
    if last.Some? && now > last.value.at {
      RateTimesSeconds(offsetSum - last.value.offsetSum, now - last.value.at, threshold);
    }
  }

  /** Shard k is Active, past its cooldown, and since its last sample its rate has reached the threshold. */
  predicate IsReady(c: Config, spec: Spec, env: Env, s: Status, samples: map<string, Sample>, k: nat)
    requires k < |s|
  {
    && IsSampled(c, env, s, k) && env.offsetSum(s[k].topic).Some? && s[k].topic in samples
    && RateReaches(spec.threshold, samples[s[k].topic], env.offsetSum(s[k].topic).value, env.sampleAt(k))
  }

  lemma ReadyMeansSplits(c: Config, spec: Spec, env: Env, s: Status, samples: map<string, Sample>, k: nat)
    requires k < |s| && IsSampled(c, env, s, k) && env.offsetSum(s[k].topic).Some?
    ensures IsReady(c, spec, env, s, samples, k) <==> Turn(spec, env, s[k].topic, k, samples).verdict.Splits?
  {
    OverThresholdIsRate(
      spec.threshold, Sampled(samples, s[k].topic), env.offsetSum(s[k].topic).value, env.sampleAt(k));
  }

  /** How many of the shards i to k - 1 are ready. */
  function ReadyCount(c: Config, spec: Spec, env: Env, s: Status, samples: map<string, Sample>, i: nat, k: nat): nat
    requires i <= k <= |s|
    decreases k - i
  {
    if i == k then 0
    else (if IsReady(c, spec, env, s, samples, i) then 1 else 0) + ReadyCount(c, spec, env, s, samples, i + 1, k)
  }

  predicate AllSampled(c: Config, env: Env, s: Status, i: nat, k: nat)
    requires k <= |s|
  {
    forall j :: i <= j < k ==> !CannotBeSampled(c, env, s, j)
  }

  predicate IsSplit(spec: Spec, env: Env, moves: seq<Move>, k: nat) {
    Split(k, spec.fifo, env.sampleAt(k)) in moves
  }

  /** The samples of the shards from i on are the same in both. */
  predicate SameSamples(s: Status, i: nat, a: map<string, Sample>, b: map<string, Sample>) {
    forall k :: i <= k < |s| ==> Sampled(a, s[k].topic) == Sampled(b, s[k].topic)
  }

  lemma TurnKeepsOtherSamples(spec: Spec, env: Env, s: Status, i: nat, samples: map<string, Sample>)
    requires TopicsDistinct(s) && i < |s|
    ensures SameSamples(s, i + 1, samples, Turn(spec, env, s[i].topic, i, samples).samples)
  {
    forall k | i + 1 <= k < |s|
      ensures Sampled(samples, s[k].topic) == Sampled(Turn(spec, env, s[i].topic, i, samples).samples, s[k].topic)
    {
      assert s[k].topic != s[i].topic;
    }
  }

  lemma {:induction false} SameReadyCount(
    c: Config, spec: Spec, env: Env, s: Status, a: map<string, Sample>, b: map<string, Sample>, i: nat, k: nat)
    requires i <= k <= |s| && SameSamples(s, i, a, b)
    ensures ReadyCount(c, spec, env, s, a, i, k) == ReadyCount(c, spec, env, s, b, i, k)
    decreases k - i
  {
    if i < k {
      SameReadyCount(c, spec, env, s, a, b, i + 1, k);
    }
  }

  /** What the condition on shard k comes to when shard i has been dealt with. */
  lemma ConditionGoesOn(
    c: Config, spec: Spec, env: Env, s: Status, i: nat, samples: map<string, Sample>, sampled: map<string, Sample>, k: nat)
    requires i < k < |s| && SameSamples(s, i + 1, samples, sampled)
    ensures IsReady(c, spec, env, s, samples, k) == IsReady(c, spec, env, s, sampled, k)
    ensures AllSampled(c, env, s, i, k) == (!CannotBeSampled(c, env, s, i) && AllSampled(c, env, s, i + 1, k))
    ensures ReadyCount(c, spec, env, s, samples, i, k) ==
      (if IsReady(c, spec, env, s, samples, i) then 1 else 0) + ReadyCount(c, spec, env, s, sampled, i + 1, k)
  {
    SameReadyCount(c, spec, env, s, samples, sampled, i + 1, k);
  }

  lemma NotAgain(spec: Spec, env: Env, moves: seq<Move>, i: nat, n: nat, k: nat)
    requires SplitsBetween(moves, i, n) && k < i
    ensures !IsSplit(spec, env, moves, k)
  {
  }

  /** The condition under which the loop, from shard i on, splits shard k. */
  predicate WillSplit(
    c: Config, spec: Spec, env: Env, s: Status, i: nat, active: int, samples: map<string, Sample>, k: nat)
    requires i <= k < |s|
  {
    && IsReady(c, spec, env, s, samples, k) && AllSampled(c, env, s, i, k)
    && active + ReadyCount(c, spec, env, s, samples, i, k) < (if c.maxShards <= 0 then 8 else c.maxShards)
  }

  lemma {:induction false} PlanSplitsExactly(
    c: Config, spec: Spec, env: Env, s: Status, i: nat, active: int, samples: map<string, Sample>, k: nat)
    requires TopicsDistinct(s) && i <= k < |s|
    ensures IsSplit(spec, env, PlanFrom(c, spec, env, s, i, active, samples).moves, k)
            <==> WillSplit(c, spec, env, s, i, active, samples, k)
    decreases |s| - i
  {
    if s[i].phase.Active? && active >= Cap(c) {
    } else if !IsSampled(c, env, s, i) {
      if i == k {
        PlanStaysBetween(c, spec, env, s, i + 1, active, samples);
        NotAgain(spec, env, PlanFrom(c, spec, env, s, i + 1, active, samples).moves, i + 1, |s|, k);
      } else {
        ConditionGoesOn(c, spec, env, s, i, samples, samples, k);
        PlanSplitsExactly(c, spec, env, s, i + 1, active, samples, k);
      }
    } else if env.offsetSum(s[i].topic).Some? {
      ReadyMeansSplits(c, spec, env, s, samples, i);
      var turn := Turn(spec, env, s[i].topic, i, samples);
      var active' := if turn.verdict.Splits? then active + 1 else active;
      if i == k {
        PlanStaysBetween(c, spec, env, s, i + 1, active', turn.samples);
        NotAgain(spec, env, PlanFrom(c, spec, env, s, i + 1, active', turn.samples).moves, i + 1, |s|, k);
      } else {
        TurnKeepsOtherSamples(spec, env, s, i, samples);
        ConditionGoesOn(c, spec, env, s, i, samples, turn.samples, k);
        PlanSplitsExactly(c, spec, env, s, i + 1, active', turn.samples, k);
      }
    } else {
      assert CannotBeSampled(c, env, s, i);
    }
  }

  /**
   A pass splits shard k of a reachable status if and only if splitting is on, k is ready, every shard before k that had
   to be sampled could be, and with all ready shards before k split there is still room for one more Active shard.
   */
  lemma PassSplitsExactly(
    c: Config, h: seq<Move>, spec: Spec, env: Env, samples: map<string, Sample>, k: nat)
    requires Sane(c) && LegalHistory(c, h) && k < |Replay(c, h)|
    ensures
      var s := Replay(c, h);
      IsSplit(spec, env, SplitPass(c, spec, env, s, samples).moves, k)
      <==> spec.threshold > 0 && WillSplit(c, spec, env, s, 0, ActiveCount(s), samples, k)
  {
    var s := Replay(c, h);
    ReachableTopicsAreDistinct(c, h);
    PlanSplitsExactly(c, spec, env, s, 0, ActiveCount(s), samples, k);
  }

  /** The loop comes to shard k with room left, and cannot sample it. */
  predicate FailsAt(
    c: Config, spec: Spec, env: Env, s: Status, i: nat, active: int, samples: map<string, Sample>, k: nat)
    requires i <= k < |s|
  {
    && CannotBeSampled(c, env, s, k) && AllSampled(c, env, s, i, k)
    && active + ReadyCount(c, spec, env, s, samples, i, k) < (if c.maxShards <= 0 then 8 else c.maxShards)
  }

  /** The split loop gets through if and only if there is no shard at which it fails. */
  lemma {:induction false} PlanGetsThroughIff(
    c: Config, spec: Spec, env: Env, s: Status, i: nat, active: int, samples: map<string, Sample>)
    requires TopicsDistinct(s) && i <= |s|
    ensures PlanFrom(c, spec, env, s, i, active, samples).ok
            <==> forall k :: i <= k < |s| ==> !FailsAt(c, spec, env, s, i, active, samples, k)
    decreases |s| - i
  {
    if i == |s| || (s[i].phase.Active? && active >= Cap(c)) {
    } else if CannotBeSampled(c, env, s, i) {
      assert FailsAt(c, spec, env, s, i, active, samples, i);
    } else {
      if IsSampled(c, env, s, i) { ReadyMeansSplits(c, spec, env, s, samples, i); }
      var next := if IsSampled(c, env, s, i) then Turn(spec, env, s[i].topic, i, samples).samples else samples;
      var active' := if IsReady(c, spec, env, s, samples, i) then active + 1 else active;
      PlanGetsThroughIff(c, spec, env, s, i + 1, active', next);
      TurnKeepsOtherSamples(spec, env, s, i, samples);
      forall k | i < k < |s|
        ensures FailsAt(c, spec, env, s, i, active, samples, k) == FailsAt(c, spec, env, s, i + 1, active', next, k)
      {
        ConditionGoesOn(c, spec, env, s, i, samples, next, k);
      }
      assert !FailsAt(c, spec, env, s, i, active, samples, i);
      assert PlanFrom(c, spec, env, s, i, active, samples).ok == PlanFrom(c, spec, env, s, i + 1, active', next).ok;
      if !PlanFrom(c, spec, env, s, i, active, samples).ok {
        var k :| i + 1 <= k < |s| && FailsAt(c, spec, env, s, i + 1, active', next, k);
        assert FailsAt(c, spec, env, s, i, active, samples, k);
      } else {
        forall k | i <= k < |s| ensures !FailsAt(c, spec, env, s, i, active, samples, k) {
          assert k > i ==> !FailsAt(c, spec, env, s, i + 1, active', next, k);
        }
      }
    }
  }

  // ---------------------------------------------------------------------------------------------------------------
  // What the operator remembers
  // ---------------------------------------------------------------------------------------------------------------

  lemma {:induction false} PlanLeaves(
    c: Config, spec: Spec, env: Env, s: Status, i: nat, active: int, samples: map<string, Sample>, topic: string)
    requires i <= |s| && forall j :: i <= j < |s| ==> s[j].topic != topic
    ensures Sampled(PlanFrom(c, spec, env, s, i, active, samples).samples, topic) == Sampled(samples, topic)
    decreases |s| - i
  {
    if i == |s| || (s[i].phase.Active? && active >= Cap(c)) {
    } else if !IsSampled(c, env, s, i) {
      PlanLeaves(c, spec, env, s, i + 1, active, samples, topic);
    } else {
      var turn := Turn(spec, env, s[i].topic, i, samples);
      PlanLeaves(c, spec, env, s, i + 1, if turn.verdict.Splits? then active + 1 else active, turn.samples, topic);
    }
  }

  /** The loop, from shard i on, comes to shard k with room left and samples it. */
  predicate TakesSample(
    c: Config, spec: Spec, env: Env, s: Status, i: nat, active: int, samples: map<string, Sample>, k: nat)
    requires i <= k < |s|
  {
    && IsSampled(c, env, s, k) && env.offsetSum(s[k].topic).Some? && AllSampled(c, env, s, i, k)
    && active + ReadyCount(c, spec, env, s, samples, i, k) < (if c.maxShards <= 0 then 8 else c.maxShards)
  }

  /** The sample of shard k after the loop: none if it was split, a new one if it was sampled, and else the old one. */
  function Remembered(
    c: Config, spec: Spec, env: Env, s: Status, i: nat, active: int, samples: map<string, Sample>, k: nat): Option<Sample>
    requires i <= k < |s|
  {
    if !TakesSample(c, spec, env, s, i, active, samples, k) then Sampled(samples, s[k].topic)
    else if IsReady(c, spec, env, s, samples, k) then None
    else Some(Sample(env.offsetSum(s[k].topic).value, env.sampleAt(k)))
  }

  lemma {:induction false} PlanRemembers(
    c: Config, spec: Spec, env: Env, s: Status, i: nat, active: int, samples: map<string, Sample>, k: nat)
    requires TopicsDistinct(s) && i <= k < |s|
    ensures Sampled(PlanFrom(c, spec, env, s, i, active, samples).samples, s[k].topic)
            == Remembered(c, spec, env, s, i, active, samples, k)
    decreases |s| - i
  {
    if s[i].phase.Active? && active >= Cap(c) {
    } else if !IsSampled(c, env, s, i) {
      if i == k {
        PlanLeaves(c, spec, env, s, i + 1, active, samples, s[k].topic);
      } else {
        ConditionGoesOn(c, spec, env, s, i, samples, samples, k);
        PlanRemembers(c, spec, env, s, i + 1, active, samples, k);
      }
    } else if env.offsetSum(s[i].topic).Some? {
      ReadyMeansSplits(c, spec, env, s, samples, i);
      var turn := Turn(spec, env, s[i].topic, i, samples);
      var active' := if turn.verdict.Splits? then active + 1 else active;
      if i == k {
        PlanLeaves(c, spec, env, s, i + 1, active', turn.samples, s[k].topic);
      } else {
        TurnKeepsOtherSamples(spec, env, s, i, samples);
        ConditionGoesOn(c, spec, env, s, i, samples, turn.samples, k);
        PlanRemembers(c, spec, env, s, i + 1, active', turn.samples, k);
      }
    } else {
      assert CannotBeSampled(c, env, s, i);
    }
  }

  /**
   What the operator remembers after the splits of a pass over a reachable status, which it does even if they fail: of a
   shard that it split nothing, of one that it sampled the new sample, and of every other shard and topic what it knew.
   */
  lemma PassRemembersExactly(
    c: Config, h: seq<Move>, spec: Spec, env: Env, samples: map<string, Sample>, topic: string)
    requires Sane(c) && LegalHistory(c, h)
    ensures
      var s, r := Replay(c, h), SplitPass(c, spec, env, Replay(c, h), samples);
      && (forall k :: 0 <= k < |s| && s[k].topic == topic && spec.threshold > 0 ==>
            Sampled(r.samples, topic) == Remembered(c, spec, env, s, 0, ActiveCount(s), samples, k))
      && (spec.threshold <= 0 || (forall k :: 0 <= k < |s| ==> s[k].topic != topic) ==>
            Sampled(r.samples, topic) == Sampled(samples, topic))
  {
    var s := Replay(c, h);
    ReachableTopicsAreDistinct(c, h);
    if k: nat :| k < |s| && s[k].topic == topic {
      PlanRemembers(c, spec, env, s, 0, ActiveCount(s), samples, k);
    } else {
      PlanLeaves(c, spec, env, s, 0, ActiveCount(s), samples, topic);
    }
  }

  lemma ReachableTopicsAreDistinct(c: Config, h: seq<Move>)
    requires Sane(c) && LegalHistory(c, h)
    ensures TopicsDistinct(Replay(c, h))
  {
    var s := Replay(c, h);
    forall i, j | 0 <= i < |s| && 0 <= j < |s| && s[i].topic == s[j].topic ensures i == j {
      TopicsDiffer(c, h, i, j);
    }
  }

  /**
   A pass forgets the samples of the shards it splits, so a second pass that begins with the same topic in the same place
   does not split it.
   */
  lemma NotSplitTwice(
    c: Config, h: seq<Move>, spec: Spec, env: Env, samples: map<string, Sample>,
    h': seq<Move>, spec': Spec, env': Env, samples': map<string, Sample>, k: nat)
    requires Sane(c) && LegalHistory(c, h) && k < |Replay(c, h)|
    requires LegalHistory(c, h') && k < |Replay(c, h')| && Replay(c, h')[k].topic == Replay(c, h)[k].topic
    requires IsSplit(spec, env, SplitPass(c, spec, env, Replay(c, h), samples).moves, k)
    requires samples' == SplitPass(c, spec, env, Replay(c, h), samples).samples || samples' == map[]
    ensures !IsSplit(spec', env', SplitPass(c, spec', env', Replay(c, h'), samples').moves, k)
  {
    var s := Replay(c, h);
    ReachableTopicsAreDistinct(c, h);
    PlanSplitsExactly(c, spec, env, s, 0, ActiveCount(s), samples, k);
    PlanRemembers(c, spec, env, s, 0, ActiveCount(s), samples, k);
    PassSplitsExactly(c, h', spec', env', samples', k);
  }

  // ---------------------------------------------------------------------------------------------------------------
  // What is left of the shards
  // ---------------------------------------------------------------------------------------------------------------

  /** Every move is the split of some shard, for the queue's kind and at the shard's own sampling time. */
  predicate AsPlanned(spec: Spec, env: Env, moves: seq<Move>) {
    forall l :: 0 <= l < |moves| ==> moves[l].Split? && moves[l] == Split(moves[l].i, spec.fifo, env.sampleAt(moves[l].i))
  }

  lemma {:induction false} PlanIsAsPlanned(
    c: Config, spec: Spec, env: Env, s: Status, i: nat, active: int, samples: map<string, Sample>)
    requires i <= |s|
    ensures AsPlanned(spec, env, PlanFrom(c, spec, env, s, i, active, samples).moves)
    decreases |s| - i
  {
    if i == |s| || (s[i].phase.Active? && active >= Cap(c)) {
    } else if !s[i].phase.Active? || CoolingDown(c, env, s, i) {
      PlanIsAsPlanned(c, spec, env, s, i + 1, active, samples);
    } else {
      var turn := Turn(spec, env, s[i].topic, i, samples);
      PlanIsAsPlanned(c, spec, env, s, i + 1, if turn.verdict.Splits? then active + 1 else active, turn.samples);
    }
  }

  lemma OneSplitCloses(c: Config, s: Status, m: Move, k: nat)
    requires m.Split? && m.i < |s| && k < |s|
    ensures |Apply(c, s, m)| == |s| + 2
    ensures Apply(c, s, m)[k] == if k == m.i then s[k].(phase := Closing) else s[k]
  {
  }

  lemma SplitInHeadOrTail(spec: Spec, env: Env, moves: seq<Move>, i: nat, n: nat, k: nat)
    requires SplitsBetween(moves, i, n) && AsPlanned(spec, env, moves) && |moves| > 0
    ensures SplitsBetween(moves[1..], moves[0].i + 1, n) && AsPlanned(spec, env, moves[1..])
    ensures IsSplit(spec, env, moves, k) <==> k == moves[0].i || IsSplit(spec, env, moves[1..], k)
    ensures k == moves[0].i ==> !IsSplit(spec, env, moves[1..], k)
  {
    assert moves == [moves[0]] + moves[1..];
  }

  /** After the splits the shards that were split are Closing and the others of the list are as they were. */
  lemma {:induction false} SplitsClose(
    c: Config, spec: Spec, env: Env, s: Status, moves: seq<Move>, i: nat, n: nat, k: nat)
    requires SplitsBetween(moves, i, n) && AsPlanned(spec, env, moves) && n <= |s| && k < |s|
    ensures
      var t := ApplyAll(c, s, moves);
      |t| >= |s| && t[k] == if IsSplit(spec, env, moves, k) then s[k].(phase := Closing) else s[k]
    decreases |moves|
  {
    if |moves| > 0 {
      OneSplitCloses(c, s, moves[0], k);
      SplitInHeadOrTail(spec, env, moves, i, n, k);
      SplitsClose(c, spec, env, Apply(c, s, moves[0]), moves[1..], moves[0].i + 1, n, k);
    }
  }

  /** A pass turns exactly the shards it splits to Closing. */
  lemma SplitPassCloses(c: Config, spec: Spec, env: Env, s: Status, samples: map<string, Sample>, k: nat)
    requires k < |s|
    ensures
      var r := SplitPass(c, spec, env, s, samples);
      |r.status| >= |s| && r.status[k] == if IsSplit(spec, env, r.moves, k) then s[k].(phase := Closing) else s[k]
  {
    PlanStaysBetween(c, spec, env, s, 0, ActiveCount(s), samples);
    PlanIsAsPlanned(c, spec, env, s, 0, ActiveCount(s), samples);
    SplitsClose(c, spec, env, s, SplitPass(c, spec, env, s, samples).moves, 0, |s|, k);
  }
}
