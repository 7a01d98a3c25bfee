/** Routing by the maps that a series of reconciles publishes. */
module ReconcileRoutes {
  import opened Options
  import opened Murmur
  import opened Topology
  import opened Router
  import opened ShardTree
  import opened ShardInvariants
  import opened ShardRuns
  import opened Reconcile
  import opened ReconcileMoves

  /** The map in Redis, if there is one, lists the shards of the status after history g. */
  ghost predicate PublishedAfter(c: Config, published: Option<seq<Shard>>, g: seq<Move>) {
    published.Some? ==> LegalHistory(c, g) && |g| > 0 && published.value == Published(Replay(c, g))
  }

  /** A reconcile that publishes has a non-empty history behind it, and publishes what that history leaves. */
  lemma PassPublishes(c: Config, h: seq<Move>, spec: Spec, env: Env, p: Plane)
    requires LegalHistory(c, h) && p.status == Replay(c, h) && ClockRuns(env)
    ensures
      var pass := PassOf(c, spec, env, p);
      && LegalHistory(c, h + pass.moves) && pass.status == Replay(c, h + pass.moves)
      && (pass.published == p.published || PublishedAfter(c, pass.published, h + pass.moves))
  {
    PassGoesOn(c, h, spec, env, p);
    assert |h| == 0 ==> |RootMoves(spec, env, p.status)| > 0;
  }

  /** Whatever was lost or failed, the map in Redis always lists the shards of some reachable status. */
  lemma {:induction false} PublishedMapIsReachable(c: Config, inputs: seq<Input>) returns (g: seq<Move>)
    requires ClocksRun(inputs)
    ensures PublishedAfter(c, After(c, inputs).published, g)
  {
    g := [];
    if |inputs| > 0 {
      var n := |inputs| - 1;
      var input, p := inputs[n], Known(After(c, inputs[..n]), inputs[n]);
      g := PublishedMapIsReachable(c, inputs[..n]);
      var h := PersistedStatusIsReachable(c, inputs[..n]);
      PassPublishes(c, h, input.spec, input.env, p);
      if input.env.dlqOk && input.env.finalizerOk && PassOf(c, input.spec, input.env, p).published != p.published {
        g := h + PassOf(c, input.spec, input.env, p).moves;
      }
    }
  }

  lemma ListsItself(s: Status)
    ensures Lists(Published(s), s)
  {
  }

  /** So once a queue has a map, every key routes, to the owner of its hash in that status. */
  lemma EveryKeyRoutes(c: Config, inputs: seq<Input>, key: Key) returns (g: seq<Move>)
    requires Sane(c) && ClocksRun(inputs) && After(c, inputs).published.Some?
    ensures LegalHistory(c, g) && HasOwner(Replay(c, g), HashKey(key))
    ensures Route(After(c, inputs).published, key) == Routed(RouteShard(Replay(c, g)[OwnerOf(Replay(c, g), HashKey(key))]))
  {
    g := PublishedMapIsReachable(c, inputs);
    ListsItself(Replay(c, g));
    RoutesToTheOwner(c, g, Published(Replay(c, g)), key);
  }

  // ---------------------------------------------------------------------------------------------------------------
  // Lost writes
  // ---------------------------------------------------------------------------------------------------------------

  ghost predicate NoWriteIsLost(inputs: seq<Input>) {
    forall k :: 0 <= k < |inputs| ==> inputs[k].env.writeOk
  }

  /** When no write is lost, the maps published one after the other belong to one history, in its order. */
  lemma {:induction false} MapsFollowOneHistory(c: Config, inputs: seq<Input>, m: nat)
    returns (h: seq<Move>, k: nat, l: nat)
    requires ClocksRun(inputs) && NoWriteIsLost(inputs) && m <= |inputs|
    ensures LegalHistory(c, h) && After(c, inputs).status == Replay(c, h) && k <= l <= |h|
    ensures PublishedAfter(c, After(c, inputs[..m]).published, h[..k])
    ensures PublishedAfter(c, After(c, inputs).published, h[..l])
    decreases |inputs|
  {
    h, k, l := [], 0, 0;
    assert inputs[..|inputs|] == inputs;
    if |inputs| > 0 {
      var n := |inputs| - 1;
      var m' := if m < n then m else n;
      assert inputs[..n][..m'] == inputs[..m'];
      h, k, l := MapsFollowOneHistory(c, inputs[..n], m');
      var before := h;
      h, l := NextMap(c, h, l, inputs[n], After(c, inputs[..n]));
      assert h[..k] == before[..k];
      if m == |inputs| {
        k := l;
      }
    }
  }

  lemma NextMap(c: Config, h: seq<Move>, l: nat, input: Input, p: Plane) returns (h': seq<Move>, l': nat)
    requires ClockRuns(input.env) && input.env.writeOk && LegalHistory(c, h) && p.status == Replay(c, h)
    requires l <= |h| && PublishedAfter(c, p.published, h[..l])
    ensures LegalHistory(c, h') && Step(c, p, input).status == Replay(c, h') && h <= h'
    ensures l <= l' <= |h'| && PublishedAfter(c, Step(c, p, input).published, h'[..l'])
  {
    var q := Known(p, input);
    h', l' := h, l;
    if input.env.dlqOk && input.env.finalizerOk {
      var pass := PassOf(c, input.spec, input.env, q);
      PassPublishes(c, h, input.spec, input.env, q);
      h' := h + pass.moves;
      assert h'[..l] == h[..l] && h'[..|h'|] == h';
      l' := if pass.published == p.published then l else |h'|;
    }
  }

  /**
   As long as no status write is lost, a key's route only moves down the tree from one published map to any later one.
   */
  lemma RoutesDescendIfNoWriteIsLost(c: Config, inputs: seq<Input>, m: nat, key: Key)
    returns (s: Status, i: int, j: int)
    requires Sane(c) && ClocksRun(inputs) && NoWriteIsLost(inputs) && m <= |inputs|
    requires After(c, inputs[..m]).published.Some? && After(c, inputs).published.Some?
    ensures TreeInv(c, s) && 0 <= i < |s| && 0 <= j < |s| && Descendant(s, i, j)
    ensures Route(After(c, inputs[..m]).published, key).Routed? && Route(After(c, inputs).published, key).Routed?
    ensures Route(After(c, inputs[..m]).published, key).shard.topic == s[i].topic
    ensures Route(After(c, inputs).published, key).shard.topic == s[j].topic
    ensures s[i].phase.Active? ==> i == j
  {
    var h, k, l := MapsFollowOneHistory(c, inputs, m);
    LegalPrefix(c, h, l);
    var g := h[..l];
    assert g[..k] == h[..k];
    s := Replay(c, g);
    ListsItself(Replay(c, g[..k]));
    ListsItself(s);
    RoutesToTheOwner(c, g[..k], Published(Replay(c, g[..k])), key);
    RoutesToTheOwner(c, g, Published(s), key);
    i, j := OwnerOf(Replay(c, g[..k]), HashKey(key)), OwnerOf(s, HashKey(key));
    KeysOnlyDescend(c, g, k, i, j, HashKey(key));
    HistoryExtends(c, g, k);
  }
}
