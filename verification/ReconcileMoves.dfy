/** Every exit of a reconcile leaves a status that a legal history of moves could have left. */
module ReconcileMoves {
  import opened Topology
  import opened ShardTree
  import opened ShardInvariants
  import opened Reconcile

  lemma HistorySnoc(c: Config, h: seq<Move>, m: Move)
    requires LegalHistory(c, h) && Legal(c, Replay(c, h), m)
    ensures LegalHistory(c, h + [m]) && Replay(c, h + [m]) == Apply(c, Replay(c, h), m)
  {
    assert (h + [m])[..|h|] == h;
  }

  lemma {:induction false} HistoryGoesOn(c: Config, h: seq<Move>, moves: seq<Move>)
    requires LegalHistory(c, h) && LegalFrom(c, Replay(c, h), moves)
    ensures LegalHistory(c, h + moves) && Replay(c, h + moves) == ApplyAll(c, Replay(c, h), moves)
    decreases |moves|
  {
    if |moves| == 0 {
      assert h + moves == h;
    } else {
      var h', rest := h + [moves[0]], moves[1..];
      assert h' + rest == h + moves;
      HistorySnoc(c, h, moves[0]);
      HistoryGoesOn(c, h', rest);
    }
  }

  lemma {:induction false} ThenLegal(c: Config, s: Status, a: seq<Move>, b: seq<Move>)
    requires LegalFrom(c, s, a) && LegalFrom(c, ApplyAll(c, s, a), b)
    ensures LegalFrom(c, s, a + b) && ApplyAll(c, s, a + b) == ApplyAll(c, ApplyAll(c, s, a), b)
    decreases |a|
  {
    if |a| == 0 {
      assert a + b == b;
    } else {
      ThenLegal(c, Apply(c, s, a[0]), a[1..], b);
      assert (a + b)[1..] == a[1..] + b;
    }
  }

  // ---------------------------------------------------------------------------------------------------------------
  // The passes
  // ---------------------------------------------------------------------------------------------------------------

  lemma ConsLegal(c: Config, s: Status, m: Move, rest: seq<Move>)
    requires Legal(c, s, m) && LegalFrom(c, Apply(c, s, m), rest)
    ensures LegalFrom(c, s, [m] + rest) && ApplyAll(c, s, [m] + rest) == ApplyAll(c, Apply(c, s, m), rest)
  {
    assert ([m] + rest)[1..] == rest;
  }

  /** cur has grown out of s, and its shards from i on are still those of s. */
  predicate Agrees(cur: Status, s: Status, i: nat) {
    |s| <= |cur| && forall k :: i <= k < |s| ==> cur[k] == s[k]
  }

  lemma SplitAgrees(c: Config, cur: Status, s: Status, i: nat, fifo: bool, now: int)
    requires Agrees(cur, s, i) && i < |s|
    ensures Agrees(Apply(c, cur, Split(i, fifo, now)), s, i + 1)
  {
  }

  lemma TurnIsLegal(c: Config, env: Env, s: Status, cur: Status, i: nat, fifo: bool)
    requires i < |s| && Agrees(cur, s, i) && ClockRuns(env)
    requires s[i].phase.Active? && ActiveCount(cur) < Cap(c) && !CoolingDown(c, env, s, i)
    ensures Legal(c, cur, Split(i, fifo, env.sampleAt(i)))
  {
    assert cur[i] == s[i];
  }

  /**
   The plan, made of the shards the loop began with, is legal on the list that grows under it: the running count is the
   number of Active shards, and the two clock readings of a shard are in order.
   */
  lemma {:induction false} PlanIsLegal(
    c: Config, spec: Spec, env: Env, s: Status, cur: Status, i: nat, active: int, samples: map<string, Sample>)
    requires i <= |s| && Agrees(cur, s, i) && active == ActiveCount(cur) && ClockRuns(env)
    ensures LegalFrom(c, cur, PlanFrom(c, spec, env, s, i, active, samples).moves)
    decreases |s| - i
  {
    if i == |s| || (s[i].phase.Active? && active >= Cap(c)) {
    } else if !s[i].phase.Active? || CoolingDown(c, env, s, i) {
      PlanIsLegal(c, spec, env, s, cur, i + 1, active, samples);
    } else {
      var turn, split := Turn(spec, env, s[i].topic, i, samples), Split(i, spec.fifo, env.sampleAt(i));
      match turn.verdict
      case SampleError =>
      case Stays => PlanIsLegal(c, spec, env, s, cur, i + 1, active, turn.samples);
      case Splits =>
        TurnIsLegal(c, env, s, cur, i, spec.fifo);
        SplitAgrees(c, cur, s, i, spec.fifo, env.sampleAt(i));
        SplitAddsOneActive(c, cur, i, spec.fifo, env.sampleAt(i));
        PlanIsLegal(c, spec, env, s, Apply(c, cur, split), i + 1, active + 1, turn.samples);
        ConsLegal(c, cur, split, PlanFrom(c, spec, env, s, i + 1, active + 1, turn.samples).moves);
    }
  }

  /** Every move splits one of the shards i to n - 1, each at most once and in order. */
  predicate SplitsBetween(moves: seq<Move>, i: nat, n: nat) {
    && (forall k :: 0 <= k < |moves| ==> moves[k].Split? && i <= moves[k].i < n)
    && (forall k, l :: 0 <= k < l < |moves| ==> moves[k].i < moves[l].i)
  }

  /** A pass splits none of the shards it adds. */
  lemma {:induction false} PlanStaysBetween(
    c: Config, spec: Spec, env: Env, s: Status, i: nat, active: int, samples: map<string, Sample>)
    requires i <= |s|
    ensures SplitsBetween(PlanFrom(c, spec, env, s, i, active, samples).moves, i, |s|)
    decreases |s| - i
  {
    if i == |s| || (s[i].phase.Active? && active >= Cap(c)) {
    } else if !s[i].phase.Active? || CoolingDown(c, env, s, i) {
      PlanStaysBetween(c, spec, env, s, i + 1, active, samples);
    } else {
      var turn := Turn(spec, env, s[i].topic, i, samples);
      PlanStaysBetween(c, spec, env, s, i + 1, if turn.verdict.Splits? then active + 1 else active, turn.samples);
    }
  }

  /** Splits of old shards: each stays or becomes Closing, and what is added is Active. */
  lemma {:induction false} SplitsTouchOldShards(c: Config, s: Status, moves: seq<Move>, i: nat, n: nat, k: nat)
    requires SplitsBetween(moves, i, n) && n <= |s|
    ensures
      var t := ApplyAll(c, s, moves);
      && |t| >= |s|
      && (k < |s| ==> t[k] == s[k] || (i <= k < n && t[k] == s[k].(phase := Closing)))
      && (|s| <= k < |t| ==> t[k].phase.Active?)
    decreases |moves|
  {
    if |moves| > 0 {
      var t, j := Apply(c, s, moves[0]), moves[0].i;
      assert |t| == |s| + 2;
      SplitsTouchOldShards(c, t, moves[1..], j + 1, n, k);
    }
  }

  /** Shard x is drained when its turn comes: it is Closing, nothing lags, its retention is over, its topic is deleted. */
  predicate Drains(spec: Spec, env: Env, x: ShardStatus, i: nat) {
    && x.phase.Closing? && env.lag(x.topic).Some? && env.lag(x.topic).value <= 0
    && env.drainAt(i) >= x.createdAt + spec.retention && env.deleteOk(x.topic)
  }

  /** An error of Kafka ends the pass: the lag cannot be read, or a topic that is due cannot be deleted. */
  predicate DrainStops(spec: Spec, env: Env, x: ShardStatus, i: nat) {
    match env.lag(x.topic)
    case None => true
    case Some(lag) => !(lag > 0 || env.drainAt(i) < x.createdAt + spec.retention) && !env.deleteOk(x.topic)
  }

  lemma {:induction false} DrainLoopIsLegal(c: Config, spec: Spec, env: Env, s: Status, i: nat, topics: set<string>)
    requires i <= |s|
    ensures
      var r := DrainFrom(c, spec, env, s, i, topics);
      LegalFrom(c, s, r.moves) && r.status == ApplyAll(c, s, r.moves) && forall m :: m in r.moves ==> m.Close?
    decreases |s| - i
  {
    if i < |s| {
      if Drains(spec, env, s[i], i) {
        DrainLoopIsLegal(c, spec, env, Apply(c, s, Close(i)), i + 1, topics - {s[i].topic});
        ConsLegal(c, s, Close(i),
                  DrainFrom(c, spec, env, Apply(c, s, Close(i)), i + 1, topics - {s[i].topic}).moves);
      } else {
        DrainLoopIsLegal(c, spec, env, s, i + 1, topics);
      }
    }
  }

  // ---------------------------------------------------------------------------------------------------------------
  // The whole reconcile
  // ---------------------------------------------------------------------------------------------------------------

  lemma RootIsLegal(c: Config, spec: Spec, env: Env, s: Status)
    requires ClockRuns(env)
    ensures LegalFrom(c, s, RootMoves(spec, env, s)) && ApplyAll(c, s, RootMoves(spec, env, s)) == WithRoot(c, spec, env, s)
  {
    var moves := RootMoves(spec, env, s);
    if |s| == 0 {
      assert moves[1..] == [];
    }
  }

  lemma RootIsReachable(c: Config, h: seq<Move>, spec: Spec, env: Env, s: Status) returns (g: seq<Move>)
    requires LegalHistory(c, h) && s == Replay(c, h) && ClockRuns(env)
    ensures LegalHistory(c, g) && WithRoot(c, spec, env, s) == Replay(c, g) && |g| > 0
    ensures |h| > 0 ==> g == h
  {
    RootIsLegal(c, spec, env, s);
    HistoryGoesOn(c, h, RootMoves(spec, env, s));
    g := h + RootMoves(spec, env, s);
    assert h + [] == h;
  }

  lemma SplitPassIsLegal(c: Config, spec: Spec, env: Env, s: Status, samples: map<string, Sample>)
    requires ClockRuns(env)
    ensures
      var r := SplitPass(c, spec, env, s, samples);
      LegalFrom(c, s, r.moves) && r.status == ApplyAll(c, s, r.moves) && SplitsBetween(r.moves, 0, |s|)
  {
    PlanIsLegal(c, spec, env, s, s, 0, ActiveCount(s), samples);
    PlanStaysBetween(c, spec, env, s, 0, ActiveCount(s), samples);
  }

  lemma DrainPassIsLegal(c: Config, spec: Spec, env: Env, s: Status, topics: set<string>)
    ensures
      var r := DrainPass(c, spec, env, s, topics);
      LegalFrom(c, s, r.moves) && r.status == ApplyAll(c, s, r.moves)
  {
    DrainLoopIsLegal(c, spec, env, s, 0, topics);
  }

  /** The first shard, the splits and the drains, one after the other. */
  lemma StagesAreLegal(c: Config, spec: Spec, env: Env, s: Status, samples: map<string, Sample>, topics: set<string>)
    requires ClockRuns(env)
    ensures
      var s1, root := WithRoot(c, spec, env, s), RootMoves(spec, env, s);
      var splits := SplitPass(c, spec, env, s1, samples);
      var drains := DrainPass(c, spec, env, splits.status, topics);
      && LegalFrom(c, s, root) && ApplyAll(c, s, root) == s1
      && LegalFrom(c, s, root + splits.moves) && ApplyAll(c, s, root + splits.moves) == splits.status
      && LegalFrom(c, s, root + splits.moves + drains.moves)
      && ApplyAll(c, s, root + splits.moves + drains.moves) == drains.status
  {
    var s1, root := WithRoot(c, spec, env, s), RootMoves(spec, env, s);
    var splits := SplitPass(c, spec, env, s1, samples);
    RootIsLegal(c, spec, env, s);
    SplitPassIsLegal(c, spec, env, s1, samples);
    ThenLegal(c, s, root, splits.moves);
    DrainPassIsLegal(c, spec, env, splits.status, topics);
    ThenLegal(c, s, root + splits.moves, DrainPass(c, spec, env, splits.status, topics).moves);
  }

  /** At whichever point a pass stops, the status it would write comes from legal moves. */
  lemma PassIsLegal(c: Config, spec: Spec, env: Env, p: Plane)
    requires ClockRuns(env)
    ensures
      var pass := PassOf(c, spec, env, p);
      LegalFrom(c, p.status, pass.moves) && pass.status == ApplyAll(c, p.status, pass.moves)
  {
    StagesAreLegal(
      c, spec, env, p.status, p.samples, EnsureFrom(env, WithRoot(c, spec, env, p.status), 0, p.topics).topics);
  }

  /** The moves of a pass take the history of the status it read on to the status it would write. */
  lemma PassGoesOn(c: Config, h: seq<Move>, spec: Spec, env: Env, p: Plane)
    requires ClockRuns(env) && LegalHistory(c, h) && p.status == Replay(c, h)
    ensures
      var pass := PassOf(c, spec, env, p);
      LegalHistory(c, h + pass.moves) && Replay(c, h + pass.moves) == pass.status
  {
    PassIsLegal(c, spec, env, p);
    HistoryGoesOn(c, h, PassOf(c, spec, env, p).moves);
  }

  ghost predicate ClocksRun(inputs: seq<Input>) {
    forall k :: 0 <= k < |inputs| ==> ClockRuns(inputs[k].env)
  }

  /**
   Safety at every exit: after any series of reconciles, each stopped anywhere by an error or not, with its status
   written or lost, the persisted status is what some legal history of moves leaves.
   */
  lemma {:induction false} PersistedStatusIsReachable(c: Config, inputs: seq<Input>) returns (h: seq<Move>)
    requires ClocksRun(inputs)
    ensures LegalHistory(c, h) && After(c, inputs).status == Replay(c, h)
  {
    h := [];
    if |inputs| > 0 {
      var n := |inputs| - 1;
      var input, p := inputs[n], After(c, inputs[..n]);
      h := PersistedStatusIsReachable(c, inputs[..n]);
      h := HistoryAfter(c, h, input, p);
    }
  }

  lemma HistoryAfter(c: Config, h: seq<Move>, input: Input, p: Plane) returns (h': seq<Move>)
    requires ClockRuns(input.env) && LegalHistory(c, h) && p.status == Replay(c, h)
    ensures LegalHistory(c, h') && Step(c, p, input).status == Replay(c, h')
    ensures h' == h || (input.env.writeOk && h' == h + PassOf(c, input.spec, input.env, Known(p, input)).moves)
  {
    var q := Known(p, input);
    h' := h;
    if input.env.dlqOk && input.env.finalizerOk && input.env.writeOk {
      PassGoesOn(c, h, input.spec, input.env, q);
      h' := h + PassOf(c, input.spec, input.env, q).moves;
    }
  }

  /**
   So after every series of reconciles, at every exit, the persisted Active ranges partition the key space, every other
   shard is cut in two, and no more than MaxShards shards are Active.
   */
  lemma PersistedStatusKeepsInv(c: Config, inputs: seq<Input>)
    requires Sane(c) && ClocksRun(inputs)
    ensures TreeInv(c, After(c, inputs).status)
  {
    var h := PersistedStatusIsReachable(c, inputs);
    HistoryKeepsInv(c, h);
  }
}
