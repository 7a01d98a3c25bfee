/** A run of five reconciles after which the same two IDs have stood for different ranges in two published maps. */
module ReconcileFork {
  import opened Options
  import opened Router
  import opened ShardTree
  import opened ShardInvariants
  import opened ShardTopics
  import opened ShardIdentity
  import opened Reconcile
  import opened ReconcileLaws
  import opened LostWrites
  import opened ReconcileLimits

  const LEFT := SplitStatus()[1].topic
  const RIGHT := SplitStatus()[2].topic

  function History(): seq<Move> {
    [Create(false, 1)] + [Split(0, false, 100)]
  }

  /** The third reconcile takes the first samples of the two children. */
  const SAMPLES := Input(false, Spec(false, 1, 60), Calm(200, 0, 1, true, true))

  /** One in which only the given topic has grown. */
  function Busy(topic: string, time: int, writeOk: bool): Input {
    Input(false, Spec(false, 1, 60),
          Calm(time, 0, 1, true, writeOk).(offsetSum := t => Some(if t == topic then 100 else 0)))
  }

  /** What holds of all these environments: nothing fails and nothing has drained. */
  ghost predicate IsCalm(env: Env) {
    && env.dlqOk && env.finalizerOk && env.metaOk && env.mapOk && env.temporalOk
    && (forall t :: env.createOk(t)) && (forall t :: env.lag(t) == Some(1))
  }

  lemma CalmPass(p: Plane, input: Input)
    requires IsCalm(input.env) && |p.status| > 0
    requires SplitPass(QUEUE, input.spec, input.env, p.status, Known(p, input).samples).ok
    ensures Publishes(QUEUE, p, input)
    ensures
      var splits := SplitPass(QUEUE, input.spec, input.env, p.status, Known(p, input).samples);
      Reached(QUEUE, p, input) == splits.status && PassOf(QUEUE, input.spec, input.env, Known(p, input)).samples == splits.samples
  {
    var spec, env, q := input.spec, input.env, Known(p, input);
    var w := Working(QUEUE, spec, env, q);
    var topics := EnsureFrom(env, p.status, 0, p.topics).topics;
    EnsureGetsThroughIff(env, p.status, 0, p.topics);
    DrainsGetThroughIff(QUEUE, spec, env, w, 0, topics);
    forall k | 0 <= k < |w| ensures DrainPass(QUEUE, spec, env, w, topics).status[k] == w[k] {
      DrainPassCloses(QUEUE, spec, env, w, topics, k);
    }
  }

  lemma GrownIsReachable()
    ensures LegalHistory(QUEUE, History()) && Replay(QUEUE, History()) == SplitStatus() && |History()| > 0
    ensures ActiveCount(SplitStatus()) == 2 && LEFT != RIGHT
    ensures SplitStatus()[1].createdAt == 100 && SplitStatus()[2].createdAt == 100
  {
    SplitIsLegal();
    SplitStatusIs();
    SplitAddsOneActive(QUEUE, Begun().status, 0, false, 100);
    assert ActiveCount(Begun().status) == 1 by { assert Begun().status[..0] == []; }
    if LEFT == RIGHT { TopicsDiffer(QUEUE, History(), 1, 2); }
  }

  /** The split loop over the two children, neither of which can fail to be sampled. */
  lemma TwoTurns(spec: Spec, env: Env, s: Status, samples: map<string, Sample>)
    requires |s| == 3 && s[0].phase.Closing? && s[1].phase.Active? && s[2].phase.Active? && ActiveCount(s) == 2
    requires !CoolingDown(QUEUE, env, s, 1) && !CoolingDown(QUEUE, env, s, 2) && spec.threshold > 0
    requires env.offsetSum(s[1].topic).Some? && env.offsetSum(s[2].topic).Some?
    ensures
      var first := Turn(spec, env, s[1].topic, 1, samples);
      var second := Turn(spec, env, s[2].topic, 2, first.samples);
      PlanOf(QUEUE, spec, env, s, samples) == SplitPlan(
        second.samples,
        (if first.verdict.Splits? then [Split(1, spec.fifo, env.sampleAt(1))] else [])
        + (if second.verdict.Splits? then [Split(2, spec.fifo, env.sampleAt(2))] else []), true)
  {
    var first := Turn(spec, env, s[1].topic, 1, samples);
    var second := Turn(spec, env, s[2].topic, 2, first.samples);
    var active := if first.verdict.Splits? then 3 else 2;
    var last := if second.verdict.Splits? then [Split(2, spec.fifo, env.sampleAt(2))] else [];
    assert PlanFrom(QUEUE, spec, env, s, 3, if second.verdict.Splits? then active + 1 else active, second.samples)
           == SplitPlan(second.samples, [], true);
    assert PlanFrom(QUEUE, spec, env, s, 2, active, first.samples) == SplitPlan(second.samples, last, true);
    assert PlanFrom(QUEUE, spec, env, s, 1, 2, samples).ok;
    assert [] + last == last;
  }

  /** A state with the split persisted and some samples. */
  predicate IsGrown(p: Plane, samples: map<string, Sample>) {
    p.status == SplitStatus() && p.samples == samples
  }

  lemma LeftTurns(left: string, right: string, writeOk: bool)
    requires left != right
    ensures
      var a := Busy(left, 300, writeOk);
      && Turn(a.spec, a.env, left, 1, map[left := Sample(0, 200), right := Sample(0, 200)])
         == TurnResult(map[right := Sample(0, 200)], Splits)
      && Turn(a.spec, a.env, right, 2, map[right := Sample(0, 200)]) == TurnResult(map[right := Sample(0, 300)], Stays)
  {
  }

  lemma RightTurns(left: string, right: string)
    requires left != right
    ensures
      var b := Busy(right, 400, true);
      && Turn(b.spec, b.env, left, 1, map[right := Sample(0, 300)])
         == TurnResult(map[left := Sample(0, 400), right := Sample(0, 300)], Stays)
      && Turn(b.spec, b.env, right, 2, map[left := Sample(0, 400), right := Sample(0, 300)])
         == TurnResult(map[left := Sample(0, 400)], Splits)
  {
  }

  lemma SamplesTaken(p: Plane)
    requires IsGrown(p, map[])
    ensures IsGrown(Step(QUEUE, p, SAMPLES), map[LEFT := Sample(0, 200), RIGHT := Sample(0, 200)])
  {
    GrownIsReachable();
    SplitStatusIs();
    TwoTurns(SAMPLES.spec, SAMPLES.env, SplitStatus(), map[]);
    CalmPass(p, SAMPLES);
  }

  lemma LeftSplits(p: Plane, writeOk: bool)
    requires IsGrown(p, map[LEFT := Sample(0, 200), RIGHT := Sample(0, 200)])
    ensures Publishes(QUEUE, p, Busy(LEFT, 300, writeOk))
    ensures SplitsOf(QUEUE, p, Busy(LEFT, 300, writeOk)) == [Split(1, false, 300)]
    ensures !writeOk ==> IsGrown(Step(QUEUE, p, Busy(LEFT, 300, writeOk)), map[RIGHT := Sample(0, 300)])
    ensures writeOk ==> Step(QUEUE, p, Busy(LEFT, 300, writeOk)).status == Reached(QUEUE, p, Busy(LEFT, 300, writeOk))
  {
    GrownIsReachable();
    SplitStatusIs();
    var a := Busy(LEFT, 300, writeOk);
    LeftTurns(LEFT, RIGHT, writeOk);
    TwoTurns(a.spec, a.env, SplitStatus(), p.samples);
    CalmPass(p, a);
  }

  lemma RightSplits(p: Plane)
    requires IsGrown(p, map[RIGHT := Sample(0, 300)])
    ensures Publishes(QUEUE, p, Busy(RIGHT, 400, true))
    ensures SplitsOf(QUEUE, p, Busy(RIGHT, 400, true)) == [Split(2, false, 400)]
  {
    GrownIsReachable();
    SplitStatusIs();
    var b := Busy(RIGHT, 400, true);
    RightTurns(LEFT, RIGHT);
    TwoTurns(b.spec, b.env, SplitStatus(), p.samples);
    CalmPass(p, b);
  }

  // ---------------------------------------------------------------------------------------------------------------
  // The run
  // ---------------------------------------------------------------------------------------------------------------

  function UpToSamples(): seq<Input> {
    [FIRST] + [Second(1, true, true)] + [SAMPLES]
  }

  lemma SamplesReached()
    ensures IsGrown(After(QUEUE, UpToSamples()), map[LEFT := Sample(0, 200), RIGHT := Sample(0, 200)])
  {
    TwoInputsRun(Second(1, true, true));
    SplitKept();
    AfterSnoc([FIRST] + [Second(1, true, true)], SAMPLES);
    SamplesTaken(Step(QUEUE, Begun(), Second(1, true, true)));
  }

  /** The status the fourth reconcile arrives at, with shard 1 split. */
  lemma LeftReached(p: Plane, writeOk: bool)
    requires IsGrown(p, map[LEFT := Sample(0, 200), RIGHT := Sample(0, 200)])
    ensures Reached(QUEUE, p, Busy(LEFT, 300, writeOk)) == Apply(QUEUE, SplitStatus(), Split(1, false, 300))
  {
    LeftSplits(p, writeOk);
    CalmPass(p, Busy(LEFT, 300, writeOk));
    assert [Split(1, false, 300)][1..] == [];
  }

  /** What the fourth reconcile publishes under ID 3: the lower half of shard 1, which has the key 0. */
  lemma FirstUseOfId(p: Plane)
    requires IsGrown(p, map[LEFT := Sample(0, 200), RIGHT := Sample(0, 200)])
    ensures |Reached(QUEUE, p, Busy(LEFT, 300, false))| == 5 && InRange(Reached(QUEUE, p, Busy(LEFT, 300, false))[3], 0)
  {
    LeftReached(p, false);
    LowestIsCut(SplitStatus());
  }

  lemma LowestIsCut(s: Status)
    requires s == SplitStatus()
    ensures s[1].hashRangeStart == 0 && s[1].hashRangeEnd == 0x7FFF_FFFF && MidOf(s[1]) == 0x3FFF_FFFF
  {
  }

  lemma SameId(g: seq<Move>, g': seq<Move>, n: nat)
    requires LegalHistory(QUEUE, g) && LegalHistory(QUEUE, g') && n < |Replay(QUEUE, g)| && n < |Replay(QUEUE, g')|
    ensures Replay(QUEUE, g)[n].id == Replay(QUEUE, g')[n].id
  {
    HistoryKeepsInv(QUEUE, g);
    HistoryKeepsInv(QUEUE, g');
  }

  lemma GivenAwayByReconciles(p: Plane, x: int)
    requires IsGrown(p, map[LEFT := Sample(0, 200), RIGHT := Sample(0, 200)])
    ensures
      var a, b := Busy(LEFT, 300, false), Busy(RIGHT, 400, true);
      var first, second := Reached(QUEUE, p, a), Reached(QUEUE, Step(QUEUE, p, a), b);
      && GivenAnew(first, second, 3, x) && first[3].id == second[3].id
      && Publishes(QUEUE, p, a) && Publishes(QUEUE, Step(QUEUE, p, a), b)
  {
    var a, b := Busy(LEFT, 300, false), Busy(RIGHT, 400, true);
    GrownIsReachable();
    SplitStatusIs();
    LeftSplits(p, false);
    RightSplits(Step(QUEUE, p, a));
    LostSplitsGiveIdsAway(QUEUE, History(), p, a, b, x);
    var g, k := FirstSplitAdded(QUEUE, History(), p, a);
    var g', k' := FirstSplitAdded(QUEUE, History(), Step(QUEUE, p, a), b);
    SameId(g, g', 3);
  }

  /**
   Five reconciles: shard 0 is split and that is persisted; its children are sampled; shard 1 is split and its children
   published as 3 and 4, but the write is lost; then shard 2 is split, and its children are published as 3 and 4. In the
   first map ID 3 has the key 0, in the second it has no key it had before.
   */
  lemma IdStandsForAnotherRange(x: int)
    ensures
      var inputs, a, b := UpToSamples(), Busy(LEFT, 300, false), Busy(RIGHT, 400, true);
      var first, second := Reached(QUEUE, After(QUEUE, inputs), a), Reached(QUEUE, After(QUEUE, inputs + [a]), b);
      && After(QUEUE, inputs + [a]).published == Some(Published(first))
      && After(QUEUE, inputs + [a] + [b]).published == Some(Published(second))
      && |first| > 3 && |second| > 3 && first[3].id == second[3].id
      && InRange(first[3], 0) && (InRange(first[3], x) ==> !InRange(second[3], x))
  {
    var inputs, a, b := UpToSamples(), Busy(LEFT, 300, false), Busy(RIGHT, 400, true);
    SamplesReached();
    var p := After(QUEUE, inputs);
    AfterSnoc(inputs, a);
    AfterSnoc(inputs + [a], b);
    GivenAwayByReconciles(p, x);
    FirstUseOfId(p);
    PublishedByPass(QUEUE, p, a);
    PublishedByPass(QUEUE, Step(QUEUE, p, a), b);
  }
}
