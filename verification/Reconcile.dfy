/**
 What one reconcile of a queue does, as a function of the state it reads and of what its environment answers: topics
 ensured, shards split, shards drained, the shard map published, the status written, in that order.
 */
module Reconcile {
  import opened Options
  import opened Topology
  import opened Router
  import opened ShardTree

  const AVG_MESSAGE_SIZE_BYTES_ESTIMATE := 1024

  /** The part of a queue's spec that may change from one reconcile to the next. */
  datatype Spec = Spec(fifo: bool, threshold: int, retention: int)

  /**
   What Kafka, Redis, the API server and the clock answer during one reconcile. The clock is read when the first shard
   is created, before and after the sampling of shard i, and when shard i is considered for draining.
   */
  datatype Env = Env(
    dlqOk: bool, finalizerOk: bool,
    createOk: string -> bool, deleteOk: string -> bool, offsetSum: string -> Option<int>, lag: string -> Option<int>,
    metaOk: bool, mapOk: bool, temporalOk: bool, writeOk: bool,
    bornAt: int, checkAt: nat -> int, sampleAt: nat -> int, drainAt: nat -> int)

  /** Readings are positive, and the clock does not run backwards while a shard is sampled. */
  ghost predicate ClockRuns(env: Env) {
    env.bornAt > 0 && forall i: nat :: 0 < env.checkAt(i) <= env.sampleAt(i)
  }

  datatype Sample = Sample(offsetSum: int, at: int)

  /** The persisted status, the topics that exist, the shard map in Redis, and the operator's memory of its samples. */
  datatype Plane = Plane(
    status: Status, topics: set<string>, published: Option<seq<Shard>>, samples: map<string, Sample>)

  datatype Outcome =
    | Ready
    | Failed(reason: string)            // setFailed: the status was written, with phase Failed
    | NotWritten                        // the status could not be written
    | NoFinalizer

  // ---------------------------------------------------------------------------------------------------------------
  // ensureShardTopics
  // ---------------------------------------------------------------------------------------------------------------

  datatype TopicsResult = TopicsResult(topics: set<string>, ok: bool)

  /** Creates the topics of shards i and up that are not Closed, until one fails. */
  function EnsureFrom(env: Env, s: Status, i: nat, topics: set<string>): TopicsResult
    requires i <= |s|
    decreases |s| - i
  {
    if i == |s| then TopicsResult(topics, true)
    else if s[i].phase.Closed? then EnsureFrom(env, s, i + 1, topics)
    else if !env.createOk(s[i].topic) then TopicsResult(topics, false)
    else EnsureFrom(env, s, i + 1, topics + {s[i].topic})
  }

  // ---------------------------------------------------------------------------------------------------------------
  // reconcileSplits
  // ---------------------------------------------------------------------------------------------------------------

  /** What the loop decides: its samples, its splits, and whether it got through without an error. */
  datatype SplitPlan = SplitPlan(samples: map<string, Sample>, moves: seq<Move>, ok: bool)

  predicate CoolingDown(c: Config, env: Env, s: Status, i: nat)
    requires i < |s|
  {
    s[i].createdAt != 0 && env.checkAt(i) < s[i].createdAt + c.cooldown
  }

  /** The estimate since the last sample, in bytes per second and multiplied out, reaches the threshold. */
  predicate OverThreshold(threshold: int, prev: Option<Sample>, offsetSum: int, now: int) {
    && prev.Some? && now - prev.value.at > 0
    && (offsetSum - prev.value.offsetSum) * AVG_MESSAGE_SIZE_BYTES_ESTIMATE >= threshold * (now - prev.value.at)
  }

  function Sampled(samples: map<string, Sample>, topic: string): Option<Sample> {
    if topic in samples then Some(samples[topic]) else None
  }

  /** What sampling a shard leads to. */
  datatype Verdict = SampleError | Stays | Splits

  datatype TurnResult = TurnResult(samples: map<string, Sample>, verdict: Verdict)

  /** The turn of the Active shard at index i, with the given topic, when it is not cooling down. */
  function Turn(spec: Spec, env: Env, topic: string, i: nat, samples: map<string, Sample>): TurnResult {
    match env.offsetSum(topic)
    case None => TurnResult(samples, SampleError)
    case Some(sum) =>
      var sampled := samples[topic := Sample(sum, env.sampleAt(i))];
      if OverThreshold(spec.threshold, Sampled(samples, topic), sum, env.sampleAt(i)) then
        TurnResult(sampled - {topic}, Splits)
      else TurnResult(sampled, Stays)
  }

  /** The decisions on shards i and up, which depend only on the shards there were when the loop began. */
  function PlanFrom(c: Config, spec: Spec, env: Env, s: Status, i: nat, active: int, samples: map<string, Sample>): SplitPlan
    requires i <= |s|
    decreases |s| - i
  {
    if i == |s| then SplitPlan(samples, [], true)
    else if !s[i].phase.Active? then PlanFrom(c, spec, env, s, i + 1, active, samples)
    else if active >= Cap(c) then SplitPlan(samples, [], true)
    else if CoolingDown(c, env, s, i) then PlanFrom(c, spec, env, s, i + 1, active, samples)
    else
      var turn := Turn(spec, env, s[i].topic, i, samples);
      match turn.verdict
      case SampleError => SplitPlan(turn.samples, [], false)
      case Stays => PlanFrom(c, spec, env, s, i + 1, active, turn.samples)
      case Splits =>
        var rest := PlanFrom(c, spec, env, s, i + 1, active + 1, turn.samples);
        rest.(moves := [Split(i, spec.fifo, env.sampleAt(i))] + rest.moves)
  }

  function PlanOf(c: Config, spec: Spec, env: Env, s: Status, samples: map<string, Sample>): SplitPlan {
    if spec.threshold <= 0 then SplitPlan(samples, [], true) else PlanFrom(c, spec, env, s, 0, ActiveCount(s), samples)
  }

  datatype SplitsResult = SplitsResult(status: Status, samples: map<string, Sample>, moves: seq<Move>, ok: bool)

  function SplitPass(c: Config, spec: Spec, env: Env, s: Status, samples: map<string, Sample>): SplitsResult {
    var plan := PlanOf(c, spec, env, s, samples);
    SplitsResult(ApplyAll(c, s, plan.moves), plan.samples, plan.moves, plan.ok)
  }

  // ---------------------------------------------------------------------------------------------------------------
  // reconcileDrains
  // ---------------------------------------------------------------------------------------------------------------

  datatype DrainsResult = DrainsResult(status: Status, topics: set<string>, moves: seq<Move>, ok: bool)

  /** The drain loop from shard i on, over a status in which the earlier shards have been dealt with. */
  function DrainFrom(c: Config, spec: Spec, env: Env, s: Status, i: nat, topics: set<string>): (r: DrainsResult)
    requires i <= |s|
    ensures |r.status| == |s|
    decreases |s| - i
  {
    if i == |s| then DrainsResult(s, topics, [], true)
    else if !s[i].phase.Closing? then DrainFrom(c, spec, env, s, i + 1, topics)
    else
      match env.lag(s[i].topic)
      case None => DrainsResult(s, topics, [], false)
      case Some(lag) =>
        if lag > 0 || env.drainAt(i) < s[i].createdAt + spec.retention then DrainFrom(c, spec, env, s, i + 1, topics)
        else if !env.deleteOk(s[i].topic) then DrainsResult(s, topics, [], false)
        else
          var rest := DrainFrom(c, spec, env, Apply(c, s, Close(i)), i + 1, topics - {s[i].topic});
          rest.(moves := [Close(i)] + rest.moves)
  }

  /** After an error the status is as it was, although topics may have been deleted. */
  function DrainPass(c: Config, spec: Spec, env: Env, s: Status, topics: set<string>): DrainsResult {
    var r := DrainFrom(c, spec, env, s, 0, topics);
    if r.ok then r else DrainsResult(s, r.topics, [], false)
  }

  // ---------------------------------------------------------------------------------------------------------------
  // Reconcile
  // ---------------------------------------------------------------------------------------------------------------

  /** How far a pass got: the status it would write, the moves that led there, and how it ends. */
  datatype Pass = Pass(status: Status, moves: seq<Move>, topics: set<string>, published: Option<seq<Shard>>,
                       samples: map<string, Sample>, outcome: Outcome)

  function RootMoves(spec: Spec, env: Env, s: Status): seq<Move> {
    if |s| == 0 then [Create(spec.fifo, env.bornAt)] else []
  }

  function WithRoot(c: Config, spec: Spec, env: Env, s: Status): Status {
    if |s| == 0 then Apply(c, s, Create(spec.fifo, env.bornAt)) else s
  }

  /** Everything up to the write of the status, from the point where the finalizer is in place. */
  function PassOf(c: Config, spec: Spec, env: Env, p: Plane): Pass {
    var s1 := WithRoot(c, spec, env, p.status);
    var root := RootMoves(spec, env, p.status);
    var ensured := EnsureFrom(env, s1, 0, p.topics);
    if !ensured.ok then Pass(s1, root, ensured.topics, p.published, p.samples, Failed("EnsureTopics"))
    else
      var splits := SplitPass(c, spec, env, s1, p.samples);
      if !splits.ok then
        Pass(splits.status, root + splits.moves, ensured.topics, p.published, splits.samples, Failed("ShardSplit"))
      else
        var drains := DrainPass(c, spec, env, splits.status, ensured.topics);
        var moves := root + splits.moves + drains.moves;
        if !drains.ok then Pass(drains.status, moves, drains.topics, p.published, splits.samples, Failed("ShardDrain"))
        else if !(env.metaOk && env.mapOk) then
          Pass(drains.status, moves, drains.topics, p.published, splits.samples, Failed("PublishRedis"))
        else
          Pass(drains.status, moves, drains.topics, Some(Published(drains.status)), splits.samples,
               if env.temporalOk then Ready else Failed("TemporalWorker"))
  }

  /** One reconcile of a queue that exists and is not being deleted. */
  function ReconcileOp(c: Config, spec: Spec, env: Env, p: Plane): (Plane, Outcome) {
    if !env.dlqOk then (p, if env.writeOk then Failed("DLQCycle") else NotWritten)
    else if !env.finalizerOk then (p, NoFinalizer)
    else
      var pass := PassOf(c, spec, env, p);
      (Plane(if env.writeOk then pass.status else p.status, pass.topics, pass.published, pass.samples),
       if env.writeOk then pass.outcome else NotWritten)
  }

  // ---------------------------------------------------------------------------------------------------------------
  // Runs
  // ---------------------------------------------------------------------------------------------------------------

  /** One reconcile, by an operator that may have restarted since the last one and forgotten its samples. */
  datatype Input = Input(restarted: bool, spec: Spec, env: Env)

  /** What the operator knows when it begins. */
  function Known(p: Plane, input: Input): Plane {
    if input.restarted then p.(samples := map[]) else p
  }

  function Step(c: Config, p: Plane, input: Input): Plane {
    ReconcileOp(c, input.spec, input.env, Known(p, input)).0
  }

  /** The state after a series of reconciles of a new queue. */
  function After(c: Config, inputs: seq<Input>): Plane {
    if |inputs| == 0 then Plane([], {}, None, map[])
    else Step(c, After(c, inputs[..|inputs| - 1]), inputs[|inputs| - 1])
  }
}
