/** The operator's reconciler: its loops over the shards of a queue, step by step, on the state they change. */
module QueueReconciler {
  import opened Options
  import opened Decimal
  import opened Topology
  import opened Router
  import opened ShardTree
  import opened Reconcile
  import opened ReconcileMoves

  /** The queue object a reconcile works on: read from the API server at its start, written back at its end. */
  class Queue {
    var shards: Status

    constructor (shards: Status)
      ensures this.shards == shards
    {
      this.shards := shards;
    }
  }

  method NextShardID(shards: Status) returns (id: string)
    ensures id == NextShardId(shards)
  {
    var max := -1;
    for i := 0 to |shards|
      invariant max == MaxId(shards[..i])
    {
      assert shards[..i + 1][..i] == shards[..i];
      var n := Atoi(shards[i].id);
      if n.Some? && n.value > max {
        max := n.value;
      }
    }
    assert shards[..|shards|] == shards;
    id := PrintSuccessor(max);
  }

  method CountActive(shards: Status) returns (activeCount: int)
    ensures activeCount == ActiveCount(shards)
  {
    activeCount := 0;
    for i := 0 to |shards|
      invariant activeCount == ActiveCount(shards[..i])
    {
      assert shards[..i + 1][..i] == shards[..i];
      if shards[i].phase == Active {
        activeCount := activeCount + 1;
      }
    }
    assert shards[..|shards|] == shards;
  }

  function ThenPlan(moves: seq<Move>, r: SplitPlan): SplitPlan {
    r.(moves := moves + r.moves)
  }

  function ThenDrains(moves: seq<Move>, r: DrainsResult): DrainsResult {
    r.(moves := moves + r.moves)
  }

  lemma ThenThen(moves: seq<Move>, m: Move, r: SplitPlan)
    ensures ThenPlan(moves, r.(moves := [m] + r.moves)) == ThenPlan(moves + [m], r)
  {
    assert moves + ([m] + r.moves) == moves + [m] + r.moves;
  }

  lemma {:induction false} ApplyAllSnoc(c: Config, s: Status, moves: seq<Move>, m: Move)
    ensures ApplyAll(c, s, moves + [m]) == Apply(c, ApplyAll(c, s, moves), m)
    decreases |moves|
  {
    if |moves| == 0 {
      assert (moves + [m])[1..] == [];
    } else {
      ApplyAllSnoc(c, Apply(c, s, moves[0]), moves[1..], m);
      assert (moves + [m])[1..] == moves[1..] + [m];
    }
  }

  /**
   The split loop at shard i, over a list that has grown out of s by the moves made so far: what was decided and what is
   still to be decided make up the whole plan.
   */
  ghost predicate SplitLoop(
    c: Config, spec: Spec, env: Env, s: Status, plan: SplitPlan,
    i: nat, active: int, samples: map<string, Sample>, shards: Status, moves: seq<Move>)
  {
    && i <= |s| && Agrees(shards, s, i) && shards == ApplyAll(c, s, moves)
    && plan == ThenPlan(moves, PlanFrom(c, spec, env, s, i, active, samples))
  }

  lemma SplitLoopSkips(
    c: Config, spec: Spec, env: Env, s: Status, plan: SplitPlan,
    i: nat, active: int, samples: map<string, Sample>, shards: Status, moves: seq<Move>)
    requires SplitLoop(c, spec, env, s, plan, i, active, samples, shards, moves) && i < |s|
    requires !s[i].phase.Active? || (active < Cap(c) && CoolingDown(c, env, s, i))
    ensures SplitLoop(c, spec, env, s, plan, i + 1, active, samples, shards, moves)
  {
  }

  lemma SplitLoopStops(
    c: Config, spec: Spec, env: Env, s: Status, plan: SplitPlan,
    i: nat, active: int, samples: map<string, Sample>, shards: Status, moves: seq<Move>)
    requires SplitLoop(c, spec, env, s, plan, i, active, samples, shards, moves)
    requires i == |s| || (s[i].phase.Active? && active >= Cap(c))
    ensures plan == SplitPlan(samples, moves, true)
  {
  }

  lemma SplitLoopTurns(
    c: Config, spec: Spec, env: Env, s: Status, plan: SplitPlan,
    i: nat, active: int, samples: map<string, Sample>, shards: Status, moves: seq<Move>)
    requires SplitLoop(c, spec, env, s, plan, i, active, samples, shards, moves) && i < |s|
    requires s[i].phase.Active? && active < Cap(c) && !CoolingDown(c, env, s, i)
    ensures
      var turn, split := Turn(spec, env, s[i].topic, i, samples), Split(i, spec.fifo, env.sampleAt(i));
      match turn.verdict
      case SampleError => plan == SplitPlan(turn.samples, moves, false)
      case Stays => SplitLoop(c, spec, env, s, plan, i + 1, active, turn.samples, shards, moves)
      case Splits =>
        SplitLoop(c, spec, env, s, plan, i + 1, active + 1, turn.samples, Apply(c, shards, split), moves + [split])
  {
    var turn, split := Turn(spec, env, s[i].topic, i, samples), Split(i, spec.fifo, env.sampleAt(i));
    if turn.verdict.Splits? {
      ThenThen(moves, split, PlanFrom(c, spec, env, s, i + 1, active + 1, turn.samples));
      ApplyAllSnoc(c, s, moves, split);
      SplitAgrees(c, shards, s, i, spec.fifo, env.sampleAt(i));
    }
  }

  /** The drain loop at shard i: cur is the status so far, and kept the shards of it that the loop has passed. */
  ghost predicate DrainLoop(
    c: Config, spec: Spec, env: Env, s: Status, whole: DrainsResult,
    i: nat, cur: Status, kept: Status, topics: set<string>, moves: seq<Move>)
  {
    && i <= |s| == |cur| && Agrees(cur, s, i) && kept == cur[..i]
    && whole == ThenDrains(moves, DrainFrom(c, spec, env, cur, i, topics))
  }

  lemma DrainLoopTurns(
    c: Config, spec: Spec, env: Env, s: Status, whole: DrainsResult,
    i: nat, cur: Status, kept: Status, topics: set<string>, moves: seq<Move>)
    requires DrainLoop(c, spec, env, s, whole, i, cur, kept, topics, moves) && i < |s|
    ensures
      if Drains(spec, env, s[i], i) then
        var x := s[i].(phase := Closed);
        DrainLoop(c, spec, env, s, whole, i + 1, cur[i := x], kept + [x], topics - {s[i].topic}, moves + [Close(i)])
      else if s[i].phase.Closing? && DrainStops(spec, env, s[i], i) then whole.topics == topics && !whole.ok
      else DrainLoop(c, spec, env, s, whole, i + 1, cur, kept + [s[i]], topics, moves)
  {
    if Drains(spec, env, s[i], i) {
      var rest := DrainFrom(c, spec, env, cur[i := s[i].(phase := Closed)], i + 1, topics - {s[i].topic});
      assert moves + ([Close(i)] + rest.moves) == moves + [Close(i)] + rest.moves;
    }
  }

  lemma DrainLoopEnds(
    c: Config, spec: Spec, env: Env, s: Status, whole: DrainsResult,
    cur: Status, kept: Status, topics: set<string>, moves: seq<Move>)
    requires DrainLoop(c, spec, env, s, whole, |s|, cur, kept, topics, moves)
    ensures whole == DrainsResult(kept, topics, moves, true)
  {
  }

  class QueueReconciler {
    const config: Config
    var persisted: Status                  // the status in the API server
    var topics: set<string>                // the topics in Kafka
    var published: Option<seq<Shard>>      // the shard map in Redis
    var sampleState: map<string, Sample>
    ghost var history: seq<Move>           // the moves that led to the persisted status

    constructor (config: Config)
      ensures this.config == config && Valid() && View() == Plane([], {}, None, map[])
    {
      this.config := config;
      persisted, topics, published, sampleState, history := [], {}, None, map[], [];
    }

    ghost predicate Valid()
      reads this
    {
      LegalHistory(config, history) && persisted == Replay(config, history)
    }

    function View(): Plane
      reads this
    {
      Plane(persisted, topics, published, sampleState)
    }

    method EnsureShardTopics(queue: Queue, env: Env) returns (ok: bool)
      modifies this`topics
      ensures TopicsResult(topics, ok) == EnsureFrom(env, queue.shards, 0, old(topics))
    {
      for i := 0 to |queue.shards|
        invariant EnsureFrom(env, queue.shards, 0, old(topics)) == EnsureFrom(env, queue.shards, i, topics)
      {
        var s := queue.shards[i];
        if s.phase == Closed {
          continue;
        }
        if !env.createOk(s.topic) {
          return false;
        }
        topics := topics + {s.topic};
      }
      return true;
    }

    method SplitShard(queue: Queue, spec: Spec, i: nat, now: int)
      requires i < |queue.shards|
      modifies queue
      ensures queue.shards == Apply(config, old(queue.shards), Split(i, spec.fifo, now))
    {
      var s := queue.shards[i];
      var mid := SplitHashRange(Uint32(s.hashRangeStart), Uint32(s.hashRangeEnd));
      var childAID := NextShardID(queue.shards);
      var childA := NewShard(config, spec.fifo, childAID, s.id, Uint32(s.hashRangeStart), mid, now);
      var childAIDNum := match Atoi(childAID) case Some(n) => n case None => 0;
      var childBID := PrintSuccessor(childAIDNum);
      var childB := NewShard(config, spec.fifo, childBID, s.id, mid, Uint32(s.hashRangeEnd), now);
      queue.shards := queue.shards[i := s.(phase := Closing)];
      queue.shards := queue.shards + [childA, childB];
    }

    method SampleShard(topic: string, spec: Spec, env: Env, i: nat) returns (verdict: Verdict)
      modifies this`sampleState
      ensures TurnResult(sampleState, verdict) == Turn(spec, env, topic, i, old(sampleState))
    {
      var offsetSum := env.offsetSum(topic);
      if offsetSum.None? {
        return SampleError;
      }
      var prev := Sampled(sampleState, topic);
      var now := env.sampleAt(i);
      sampleState := sampleState[topic := Sample(offsetSum.value, now)];
      if !OverThreshold(spec.threshold, prev, offsetSum.value, now) {
        return Stays;
      }
      sampleState := sampleState - {topic};
      return Splits;
    }

    /** Samples shard i, which is not cooling down, and splits it if it is over the threshold. */
    method SampleAndSplit(
      queue: Queue, spec: Spec, env: Env, i: nat, activeCount: int, ghost s: Status, ghost plan: SplitPlan,
      ghost moves: seq<Move>)
      returns (ok: bool, active: int, ghost done: seq<Move>)
      requires SplitLoop(config, spec, env, s, plan, i, activeCount, sampleState, queue.shards, moves) && i < |s|
      requires s[i].phase.Active? && activeCount < Cap(config) && !CoolingDown(config, env, s, i)
      modifies this`sampleState, queue
      ensures if ok then SplitLoop(config, spec, env, s, plan, i + 1, active, sampleState, queue.shards, done)
              else plan == SplitPlan(sampleState, done, false) && queue.shards == ApplyAll(config, s, done)
    {
      SplitLoopTurns(config, spec, env, s, plan, i, activeCount, sampleState, queue.shards, moves);
      done, active := moves, activeCount;
      var verdict := SampleShard(queue.shards[i].topic, spec, env, i);
      if verdict == SampleError {
        return false, active, done;
      }
      if verdict == Splits {
        SplitShard(queue, spec, i, env.sampleAt(i));
        active := active + 1;
        done := done + [Split(i, spec.fifo, env.sampleAt(i))];
      }
      return true, active, done;
    }

    /** The bound of the loop is the number of shards at its start, although its body adds shards. */
    method ReconcileSplits(queue: Queue, spec: Spec, env: Env) returns (ok: bool, ghost moves: seq<Move>)
      modifies this`sampleState, queue
      ensures SplitsResult(queue.shards, sampleState, moves, ok)
        == SplitPass(config, spec, env, old(queue.shards), old(sampleState))
    {
      moves := [];
      var maxShards := if config.maxShards <= 0 then 8 else config.maxShards;
      if spec.threshold <= 0 {
        return true, moves;
      }
      var activeCount := CountActive(queue.shards);
      ghost var s0, plan := queue.shards, PlanOf(config, spec, env, queue.shards, sampleState);
      for i := 0 to |queue.shards|
        invariant SplitLoop(config, spec, env, s0, plan, i, activeCount, sampleState, queue.shards, moves)
      {
        var s := queue.shards[i];
        if s.phase == Active && activeCount >= maxShards {
          SplitLoopStops(config, spec, env, s0, plan, i, activeCount, sampleState, queue.shards, moves);
          return true, moves;
        }
        if s.phase != Active || (s.createdAt != 0 && env.checkAt(i) < s.createdAt + config.cooldown) {
          SplitLoopSkips(config, spec, env, s0, plan, i, activeCount, sampleState, queue.shards, moves);
          continue;
        }
        ok, activeCount, moves := SampleAndSplit(queue, spec, env, i, activeCount, s0, plan, moves);
        if !ok {
          return;
        }
      }
      SplitLoopStops(config, spec, env, s0, plan, |s0|, activeCount, sampleState, queue.shards, moves);
      return true, moves;
    }

    /** The turn of Closing shard i: it is kept as it is, or its topic is deleted and it is kept as Closed. */
    method DrainShard(s: ShardStatus, spec: Spec, env: Env, i: nat) returns (ok: bool, kept: ShardStatus)
      requires s.phase.Closing?
      modifies this`topics
      ensures ok <==> !DrainStops(spec, env, s, i)
      ensures Drains(spec, env, s, i) ==> kept == s.(phase := Closed) && topics == old(topics) - {s.topic}
      ensures !Drains(spec, env, s, i) ==> kept == s && topics == old(topics)
    {
      var lag := env.lag(s.topic);
      if lag.None? {
        return false, s;
      }
      if lag.value > 0 || env.drainAt(i) < s.createdAt + spec.retention {
        return true, s;
      }
      if !env.deleteOk(s.topic) {
        return false, s;
      }
      topics := topics - {s.topic};
      return true, s.(phase := Closed);
    }

    method ReconcileDrains(queue: Queue, spec: Spec, env: Env) returns (ok: bool, ghost moves: seq<Move>)
      modifies this`topics, queue
      ensures DrainsResult(queue.shards, topics, moves, ok) == DrainPass(config, spec, env, old(queue.shards), old(topics))
    {
      moves := [];
      var shards, kept: Status := queue.shards, [];
      ghost var cur, whole := shards, DrainFrom(config, spec, env, shards, 0, topics);
      for i := 0 to |shards|
        invariant queue.shards == shards && DrainLoop(config, spec, env, shards, whole, i, cur, kept, topics, moves)
      {
        DrainLoopTurns(config, spec, env, shards, whole, i, cur, kept, topics, moves);
        var s := shards[i];
        if s.phase == Closing {
          if Drains(spec, env, s, i) {
            cur, moves := cur[i := s.(phase := Closed)], moves + [Close(i)];
          }
          ok, s := DrainShard(s, spec, env, i);
          if !ok {
            return false, [];
          }
        }
        kept := kept + [s];
      }
      DrainLoopEnds(config, spec, env, shards, whole, cur, kept, topics, moves);
      queue.shards := kept;
      return true, moves;
    }

    method PublishRedisState(queue: Queue, env: Env) returns (ok: bool)
      modifies this`published
      ensures ok == (env.metaOk && env.mapOk)
      ensures published == if ok then Some(Published(queue.shards)) else old(published)
    {
      if !env.metaOk {
        return false;
      }
      var shards: seq<Shard> := [];
      for i := 0 to |queue.shards|
        invariant shards == Published(queue.shards[..i])
      {
        var s := queue.shards[i];
        assert queue.shards[..i + 1][..i] == queue.shards[..i];
        if s.phase == Closed {
          continue;
        }
        shards := shards + [Shard(s.id, s.topic, Uint32(s.hashRangeStart), Uint32(s.hashRangeEnd), s.phase)];
      }
      assert queue.shards[..|queue.shards|] == queue.shards;
      if !env.mapOk {
        return false;
      }
      published := Some(shards);
      return true;
    }

    /** setFailed, and the status update at the end of a reconcile that succeeds: one write, which may be lost. */
    method WriteStatus(queue: Queue, env: Env, reached: Outcome, ghost moves: seq<Move>) returns (outcome: Outcome)
      modifies this`persisted, this`history
      ensures persisted == if env.writeOk then queue.shards else old(persisted)
      ensures history == if env.writeOk then old(history) + moves else old(history)
      ensures outcome == if env.writeOk then reached else NotWritten
    {
      if !env.writeOk {
        return NotWritten;
      }
      persisted := queue.shards;
      history := history + moves;
      return reached;
    }

    /** From the point where the finalizer is in place up to the write: how far it gets, and by which moves. */
    method Advance(queue: Queue, spec: Spec, env: Env) returns (reached: Outcome, ghost moves: seq<Move>)
      requires queue.shards == persisted
      modifies this`topics, this`published, this`sampleState, queue
      ensures Pass(queue.shards, moves, topics, published, sampleState, reached)
        == PassOf(config, spec, env, old(View()))
    {
      moves := [];
      if |queue.shards| == 0 {
        queue.shards := [NewShard(config, spec.fifo, "0", "", 0, FULL_HASH_RANGE_END, env.bornAt)];
        moves := [Create(spec.fifo, env.bornAt)];
      }
      var ok := EnsureShardTopics(queue, env);
      if !ok {
        return Failed("EnsureTopics"), moves;
      }
      ghost var more;
      ok, more := ReconcileSplits(queue, spec, env);
      moves := moves + more;
      if !ok {
        return Failed("ShardSplit"), moves;
      }
      ok, more := ReconcileDrains(queue, spec, env);
      moves := moves + more;
      if !ok {
        return Failed("ShardDrain"), moves;
      }
      ok := PublishRedisState(queue, env);
      if !ok {
        return Failed("PublishRedis"), moves;
      }
      if !env.temporalOk {
        return Failed("TemporalWorker"), moves;
      }
      return Ready, moves;
    }

    /** One reconcile of a queue that exists and is not being deleted. */
    method Reconcile(spec: Spec, env: Env) returns (outcome: Outcome)
      requires Valid() && ClockRuns(env)
      modifies this
      ensures (View(), outcome) == ReconcileOp(config, spec, env, old(View()))
      ensures Valid() && old(history) <= history
    {
      var queue := new Queue(persisted);
      assert history + [] == history;
      if !env.dlqOk {
        outcome := WriteStatus(queue, env, Failed("DLQCycle"), []);
        return;
      }
      if !env.finalizerOk {
        return NoFinalizer;
      }
      ghost var p := View();
      var reached;
      ghost var moves;
      reached, moves := Advance(queue, spec, env);
      PassGoesOn(config, history, spec, env, p);
      outcome := WriteStatus(queue, env, reached, moves);
    }

    /** A restarted operator has forgotten its samples. */
    method Restart()
      requires Valid()
      modifies this`sampleState
      ensures View() == old(View()).(samples := map[]) && Valid()
    {
      sampleState := map[];
    }
  }
}
