/** Runs of a few reconciles in which routes go back, IDs are given away anew, and shards are deleted too early. */
module ReconcileLimits {
  import opened Options
  import opened Murmur
  import opened Topology
  import opened Router
  import opened ShardTree
  import opened ShardInvariants
  import opened Reconcile
  import opened ReconcileRoutes
  import opened ReconcileMoves
  import opened ReconcileLaws
  import opened ReconcileRetention
  import opened LostWrites

  // ---------------------------------------------------------------------------------------------------------------
  // The first reconciles of a queue
  // ---------------------------------------------------------------------------------------------------------------

  const QUEUE := Config("q", 8, 0)

  function Calm(time: int, records: int, lag: int, mapOk: bool, writeOk: bool): Env {
    Env(true, true, _ => true, _ => true, _ => Some(records), _ => Some(lag), true, mapOk, true, writeOk,
        time, _ => time, _ => time, _ => time)
  }

  /** The first reconcile: it creates shard 0 and takes its first sample. */
  const FIRST := Input(false, Spec(false, 1, 60), Calm(1, 0, 1, true, true))

  const TOPIC := ShardTopicName("q", false, "0")

  function Begun(): Plane {
    var root := [NewShard(QUEUE, false, "0", "", 0, FULL_HASH_RANGE_END, 1)];
    Plane(root, {TOPIC}, Some(Published(root)), map[TOPIC := Sample(0, 1)])
  }

  lemma FirstReconcile()
    ensures Step(QUEUE, Plane([], {}, None, map[]), FIRST) == Begun()
  {
    var s := Begun().status;
    assert s[..0] == [];
    assert ActiveCount(s) == 1;
  }

  /** Later there are ten records: the second reconcile splits shard 0. */
  function Second(lag: int, mapOk: bool, writeOk: bool): Input {
    Input(false, Spec(false, 1, 60), Calm(100, 10, lag, mapOk, writeOk))
  }

  function SplitStatus(): Status {
    Apply(QUEUE, Begun().status, Split(0, false, 100))
  }

  lemma SecondSplits(lag: int, mapOk: bool, writeOk: bool)
    ensures var second := Second(lag, mapOk, writeOk);
            var r := SplitPass(QUEUE, second.spec, second.env, Begun().status, Begun().samples);
            r.ok && r.status == SplitStatus() && r.moves == [Split(0, false, 100)] && r.samples == map[]
  {
    var s := Begun().status;
    assert s[..0] == [];
    assert ActiveCount(s) == 1;
  }

  lemma SecondEnsures(lag: int, mapOk: bool, writeOk: bool)
    ensures EnsureFrom(Second(lag, mapOk, writeOk).env, Begun().status, 0, {TOPIC}) == TopicsResult({TOPIC}, true)
  {
  }

  lemma SplitStatusIs()
    ensures
      var s := SplitStatus();
      && |s| == 3 && s[0] == Begun().status[0].(phase := Closing) && s[1].phase.Active? && s[2].phase.Active?
      && s[0].topic == TOPIC && s[0].createdAt == 1
  {
  }

  lemma OnlyTheFirstDrains(lag: int, mapOk: bool, writeOk: bool, s: Status)
    requires |s| == 3 && s[0].phase.Closing? && !s[1].phase.Closing? && !s[2].phase.Closing?
    requires s[0].topic == TOPIC && s[0].createdAt == 1
    ensures var second := Second(lag, mapOk, writeOk);
            DrainFrom(QUEUE, second.spec, second.env, s, 0, {TOPIC}) ==
              if lag > 0 then DrainsResult(s, {TOPIC}, [], true)
              else DrainsResult(Apply(QUEUE, s, Close(0)), {}, [Close(0)], true)
  {
    var second := Second(lag, mapOk, writeOk);
    if lag > 0 {
      NothingToDrain(second.spec, second.env, s, 1, {TOPIC});
    } else {
      NothingToDrain(second.spec, second.env, Apply(QUEUE, s, Close(0)), 1, {});
      assert {TOPIC} - {TOPIC} == {};
    }
  }

  lemma SecondDrains(lag: int, mapOk: bool, writeOk: bool)
    ensures var second := Second(lag, mapOk, writeOk);
            DrainPass(QUEUE, second.spec, second.env, SplitStatus(), {TOPIC}) ==
              if lag > 0 then DrainsResult(SplitStatus(), {TOPIC}, [], true)
              else DrainsResult(Apply(QUEUE, SplitStatus(), Close(0)), {}, [Close(0)], true)
  {
    SplitStatusIs();
    OnlyTheFirstDrains(lag, mapOk, writeOk, SplitStatus());
  }

  lemma {:induction false} NothingToDrain(spec: Spec, env: Env, s: Status, i: nat, topics: set<string>)
    requires i <= |s| && forall k :: i <= k < |s| ==> !s[k].phase.Closing?
    ensures DrainFrom(QUEUE, spec, env, s, i, topics) == DrainsResult(s, topics, [], true)
    decreases |s| - i
  {
    if i < |s| {
      NothingToDrain(spec, env, s, i + 1, topics);
    }
  }

  lemma SecondReconcile(lag: int, mapOk: bool, writeOk: bool)
    ensures
      var pass := PassOf(QUEUE, Second(lag, mapOk, writeOk).spec, Second(lag, mapOk, writeOk).env, Begun());
      && pass.outcome == (if mapOk then Ready else Failed("PublishRedis"))
      && pass.published == (if mapOk then Some(Published(pass.status)) else Begun().published)
      && pass.status == (if lag > 0 then SplitStatus() else Apply(QUEUE, SplitStatus(), Close(0)))
      && pass.topics == (if lag > 0 then {TOPIC} else {}) && pass.samples == map[]
  {
    SecondEnsures(lag, mapOk, writeOk);
    SecondSplits(lag, mapOk, writeOk);
    SecondDrains(lag, mapOk, writeOk);
  }

  /** The third reconcile, with splitting turned off, has nothing to do. */
  const THIRD := Input(false, Spec(false, 0, 60), Calm(101, 10, 1, true, true))

  lemma ThirdReconcile(samples: map<string, Sample>, published: Option<seq<Shard>>)
    ensures
      var pass := PassOf(QUEUE, THIRD.spec, THIRD.env, Plane(Begun().status, {TOPIC}, published, samples));
      pass.outcome.Ready? && pass.status == Begun().status
  {
    NothingToDrain(THIRD.spec, THIRD.env, Begun().status, 0, {TOPIC});
  }

  lemma BegunIsLegal()
    ensures LegalHistory(QUEUE, [Create(false, 1)]) && Replay(QUEUE, [Create(false, 1)]) == Begun().status
  {
    assert [Create(false, 1)][..0] == [];
  }

  lemma BegunRoutes(key: Key)
    ensures Owns(Begun().status, 0, HashKey(key))
    ensures Route(Begun().published, key) == Routed(RouteShard(Begun().status[0]))
  {
    BegunIsLegal();
    ListsItself(Begun().status);
    RoutesToTheOwner(QUEUE, [Create(false, 1)], Published(Begun().status), key);
    assert Owns(Begun().status, 0, HashKey(key));
  }

  lemma AfterOne(a: Input)
    ensures After(QUEUE, [a]) == Step(QUEUE, Plane([], {}, None, map[]), a)
  {
    assert [a][..0] == [];
  }

  lemma AfterSnoc(inputs: seq<Input>, a: Input)
    ensures After(QUEUE, inputs + [a]) == Step(QUEUE, After(QUEUE, inputs), a)
  {
    assert (inputs + [a])[..|inputs|] == inputs;
  }

  lemma SecondPublishes()
    ensures
      var p, a := Begun(), Second(1, true, false);
      && Publishes(QUEUE, p, a) && Known(p, a) == p && PassOf(QUEUE, a.spec, a.env, p).status[0].phase.Closing?
      && Step(QUEUE, p, a).status == p.status && Step(QUEUE, p, a).topics == {TOPIC}
  {
    SecondReconcile(1, true, false);
    SplitStatusIs();
  }

  lemma ThirdPublishes(p: Plane)
    requires p.status == Begun().status && p.topics == {TOPIC}
    ensures Known(p, THIRD) == p && Publishes(QUEUE, p, THIRD) && PassOf(QUEUE, THIRD.spec, THIRD.env, p).status == p.status
  {
    ThirdReconcile(p.samples, p.published);
    assert p == Plane(Begun().status, {TOPIC}, p.published, p.samples);
  }

  lemma RoutesGoBack(key: Key)
    ensures
      var p1 := Step(QUEUE, Begun(), Second(1, true, false));
      var p2 := Step(QUEUE, p1, THIRD);
      Route(p1.published, key) != Route(Begun().published, key) && Route(p2.published, key) == Route(Begun().published, key)
  {
    var p, a := Begun(), Second(1, true, false);
    SecondPublishes();
    ThirdPublishes(Step(QUEUE, p, a));
    BegunIsLegal();
    BegunRoutes(key);
    SplitIffNotActive(QUEUE, p, a, 0);
    LostWriteTakesRoutesBack(QUEUE, [Create(false, 1)], p, a, THIRD, 0, key);
  }

  /** A lost write does take routes back: every key goes to shard 0, then to one of its children, then to shard 0 again. */
  lemma RoutesCanGoBack(key: Key)
    ensures
      var first, second, third := After(QUEUE, [FIRST]).published, After(QUEUE, [FIRST] + [Second(1, true, false)]).published,
                                  After(QUEUE, [FIRST] + [Second(1, true, false)] + [THIRD]).published;
      Route(first, key).Routed? && Route(second, key) != Route(first, key) && Route(third, key) == Route(first, key)
  {
    AfterOne(FIRST);
    FirstReconcile();
    AfterSnoc([FIRST], Second(1, true, false));
    AfterSnoc([FIRST] + [Second(1, true, false)], THIRD);
    BegunRoutes(key);
    RoutesGoBack(key);
  }

  lemma DeletedAtOnce(mapOk: bool)
    ensures
      var p, p' := Begun(), Step(QUEUE, Begun(), Second(0, mapOk, true));
      && |p'.status| == 3 && p'.status[0] == p.status[0].(phase := Closed) && p'.topics == {}
      && (if mapOk then p'.published.Some? else p'.published == p.published)
  {
    SecondReconcile(0, mapOk, true);
    assert Step(QUEUE, Begun(), Second(0, mapOk, true)).status == Apply(QUEUE, SplitStatus(), Close(0));
  }

  lemma TwoInputsRun(second: Input)
    requires ClockRuns(second.env)
    ensures ClocksRun([FIRST] + [second])
    ensures After(QUEUE, [FIRST]) == Begun() && After(QUEUE, [FIRST] + [second]) == Step(QUEUE, Begun(), second)
  {
    AfterOne(FIRST);
    FirstReconcile();
    AfterSnoc([FIRST], second);
  }

  /**
   A shard can be split and drained in one pass, having been a write target up to then: nothing lags, and the retention
   period, here a minute, has passed since it was created. Until the pass publishes its map, every key is routed to the
   topic it has deleted, and from then on to a topic that does not exist yet, the children's being created by the next
   pass.
   */
  lemma SplitAndDeletedInOnePass(key: Key)
    ensures
      var p, p' := After(QUEUE, [FIRST]), After(QUEUE, [FIRST] + [Second(0, true, true)]);
      && |p.status| == 1 && p.status[0].phase.Active? && p.topics == {p.status[0].topic}
      && Route(p.published, key) == Routed(RouteShard(p.status[0]))
      && |p'.status| == 3 && p'.status[0] == p.status[0].(phase := Closed) && p'.topics == {}
      && Route(p'.published, key).Routed? && Route(p'.published, key).shard.topic !in p'.topics
  {
    var inputs := [FIRST] + [Second(0, true, true)];
    TwoInputsRun(Second(0, true, true));
    DeletedAtOnce(true);
    BegunRoutes(key);
    var g := EveryKeyRoutes(QUEUE, inputs, key);
  }

  /** When the same pass fails to publish, every key stays routed to the topic it has deleted. */
  lemma RoutedToADeletedTopic(key: Key)
    ensures
      var p, p' := After(QUEUE, [FIRST]), After(QUEUE, [FIRST] + [Second(0, false, true)]);
      && |p.status| == 1 && Route(p'.published, key) == Route(p.published, key) == Routed(RouteShard(p.status[0]))
      && p.status[0].topic in p.topics && p.status[0].topic !in p'.topics
  {
    TwoInputsRun(Second(0, false, true));
    DeletedAtOnce(false);
    BegunRoutes(key);
  }

  // ---------------------------------------------------------------------------------------------------------------
  // A second after its split
  // ---------------------------------------------------------------------------------------------------------------

  lemma SplitIsLegal()
    ensures LegalHistory(QUEUE, [Create(false, 1)] + [Split(0, false, 100)])
    ensures Replay(QUEUE, [Create(false, 1)] + [Split(0, false, 100)]) == SplitStatus()
  {
    BegunIsLegal();
    var h := [Create(false, 1)] + [Split(0, false, 100)];
    assert h[..1] == [Create(false, 1)];
    assert ActiveCount(Begun().status) == 1 by { assert Begun().status[..0] == []; }
  }

  /** One more reconcile, a second after the split, with splitting turned off and nothing lagging. */
  const SOON := Input(false, Spec(false, 0, 60), Calm(101, 10, 0, true, true))

  lemma SplitKept()
    ensures
      var p := Step(QUEUE, Begun(), Second(1, true, true));
      p.status == SplitStatus() && p.topics == {TOPIC} && p.samples == map[]
  {
    SecondReconcile(1, true, true);
  }

  lemma SoonGetsThrough(p: Plane)
    requires p.status == SplitStatus()
    ensures Working(QUEUE, SOON.spec, SOON.env, p) == SplitStatus() && GetsThrough(QUEUE, SOON.spec, SOON.env, p)
  {
    SplitStatusIs();
  }

  /**
   A shard that was split by one pass, and written to up to then, is closed and its topic deleted by the next pass a second
   later: a minute of retention counted from its creation is long over.
   */
  lemma DeletedASecondAfterItsSplit()
    ensures
      var p := After(QUEUE, [FIRST] + [Second(1, true, true)]);
      && p.status == SplitStatus() && CutInTwo(p.status, 0) && StoppedAt(p.status, 0) == 100
      && Working(QUEUE, SOON.spec, SOON.env, p) == p.status && TreeInv(QUEUE, p.status)
      && SOON.env.drainAt(0) == 101 && ClosesTooEarly(QUEUE, SOON.spec, SOON.env, p, 0)
  {
    TwoInputsRun(Second(1, true, true));
    SplitKept();
    SplitStatusIs();
    SplitIsLegal();
    var h := [Create(false, 1)] + [Split(0, false, 100)];
    HistoryKeepsInv(QUEUE, h);
    StoppedAtIsTheSplitTime(QUEUE, h, 1);
    var p := Step(QUEUE, Begun(), Second(1, true, true));
    SoonGetsThrough(p);
    ClosedTooEarlyIff(QUEUE, h, SOON.spec, SOON.env, p, 0);
  }
}
