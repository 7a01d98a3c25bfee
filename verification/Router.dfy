/** The shard map the operator publishes and the message plane routes by. */
module Router {
  import opened Options
  import opened Murmur
  import opened Topology
  import opened ShardTree
  import opened ShardInvariants
  import opened ShardRuns

  // ---------------------------------------------------------------------------------------------------------------
  // The published map
  // ---------------------------------------------------------------------------------------------------------------

  function RouteShard(x: ShardStatus): Shard {
    Shard(x.id, x.topic, Uint32(x.hashRangeStart), Uint32(x.hashRangeEnd), x.phase)
  }

  /** Every shard that is not Closed, in the order of the status. */
  function Published(s: Status): seq<Shard> {
    if |s| == 0 then []
    else
      var before, last := Published(s[..|s| - 1]), s[|s| - 1];
      if last.phase.Closed? then before else before + [RouteShard(last)]
  }

  /** What the map lists of a shard: its ID, topic and phase, and its range on 32 bits. */
  lemma RouteShardIs(x: ShardStatus)
    ensures
      var r := RouteShard(x);
      && r.id == x.id && r.topic == x.topic && r.phase == x.phase
      && r.hashRangeStart == x.hashRangeStart % 0x1_0000_0000 && r.hashRangeEnd == x.hashRangeEnd % 0x1_0000_0000
  {
  }

  ghost predicate IsPublished(s: Status, r: Shard) {
    exists k :: 0 <= k < |s| && !s[k].phase.Closed? && r == RouteShard(s[k])
  }

  lemma {:induction false} PublishedMembers(s: Status, r: Shard)
    ensures r in Published(s) <==> IsPublished(s, r)
  {
    if |s| > 0 {
      PublishedMembers(s[..|s| - 1], r);
      if IsPublished(s, r) {
        var k :| 0 <= k < |s| && !s[k].phase.Closed? && r == RouteShard(s[k]);
        assert k < |s| - 1 ==> s[..|s| - 1][k] == s[k];
      }
    }
  }

  /** The map has the order of the status. */
  lemma {:induction false} PublishedConcat(a: Status, b: Status)
    ensures Published(a + b) == Published(a) + Published(b)
    decreases |b|
  {
    if |b| == 0 {
      assert a + b == a;
    } else {
      var n := |b| - 1;
      assert (a + b)[..|a| + n] == a + b[..n];
      PublishedConcat(a, b[..n]);
    }
  }

  // ---------------------------------------------------------------------------------------------------------------
  // Routing by the map
  // ---------------------------------------------------------------------------------------------------------------

  datatype RouteResult = Routed(shard: Shard) | NoShardMap | NoActiveShard

  function Route(shardMap: Option<seq<Shard>>, key: Key): RouteResult {
    if shardMap.None? || |shardMap.value| == 0 then NoShardMap
    else
      match Selected(WriteTargets(shardMap.value), HashKey(key))
      case None => NoActiveShard
      case Some(shard) => Routed(shard)
  }

  method RouteForSend(shardMap: Option<seq<Shard>>, key: Key) returns (r: RouteResult)
    ensures r == Route(shardMap, key)
  {
    if shardMap.None? || |shardMap.value| == 0 {
      return NoShardMap;
    }
    var active := ActiveShards(shardMap.value);
    var found := SelectShard(active, key);
    match found {
      case None => r := NoActiveShard;
      case Some(shard) => r := Routed(shard);
    }
  }

  /** The shard may be written to and its range contains the hash. */
  predicate Takes(s: Shard, h: int) {
    (s.phase == Unset || s.phase == Active) && s.hashRangeStart <= h < s.hashRangeEnd
  }

  /** Shard i of the list is the first that takes the hash. */
  predicate IsFirstToTake(shards: seq<Shard>, i: nat, h: int) {
    i < |shards| && Takes(shards[i], h) && forall j :: 0 <= j < i ==> !Takes(shards[j], h)
  }

  lemma {:induction false} SelectedConcat(a: seq<Shard>, b: seq<Shard>, h: int)
    ensures Selected(a + b, h) == if Selected(a, h).Some? then Selected(a, h) else Selected(b, h)
  {
    if |a| == 0 {
      assert a + b == b;
    } else {
      assert (a + b)[1..] == a[1..] + b;
      SelectedConcat(a[1..], b, h);
    }
  }

  lemma {:induction false} SelectedIsFirst(shards: seq<Shard>, h: int) returns (i: nat)
    ensures Selected(WriteTargets(shards), h).Some? ==>
      IsFirstToTake(shards, i, h) && Selected(WriteTargets(shards), h).value == shards[i]
    ensures Selected(WriteTargets(shards), h).None? ==> forall s :: s in shards ==> !Takes(s, h)
  {
    i := 0;
    if |shards| > 0 {
      var n := |shards| - 1;
      i := SelectedIsFirst(shards[..n], h);
      if IsWriteTarget(shards[n]) {
        SelectedConcat(WriteTargets(shards[..n]), [shards[n]], h);
        assert [shards[n]][1..] == [];
      }
      if Selected(WriteTargets(shards[..n]), h).None? {
        forall j | 0 <= j < n ensures !Takes(shards[j], h) { assert shards[..n][j] in shards[..n]; }
        i := n;
      } else {
        assert IsFirstToTake(shards, i, h) by { assert forall j :: 0 <= j <= i ==> shards[..n][j] == shards[j]; }
      }
    }
  }

  ghost predicate GoesToFirst(shards: seq<Shard>, h: int, shard: Shard) {
    exists i: nat :: IsFirstToTake(shards, i, h) && shard == shards[i]
  }

  /**
   Routing by any map, whatever its order and its ranges: to the first listed shard that may be written to and contains the
   key's hash; it fails if there is none, or no map, an empty one counting as none.
   */
  lemma RouteIsFirst(shardMap: Option<seq<Shard>>, key: Key)
    ensures Route(shardMap, key).NoShardMap? <==> shardMap.None? || shardMap.value == []
    ensures Route(shardMap, key).NoActiveShard? ==> shardMap.Some? && forall s :: s in shardMap.value ==> !Takes(s, HashKey(key))
    ensures Route(shardMap, key).Routed? ==>
      shardMap.Some? && GoesToFirst(shardMap.value, HashKey(key), Route(shardMap, key).shard)
  {
    if shardMap.Some? {
      var i := SelectedIsFirst(shardMap.value, HashKey(key));
    }
  }

  /** What a consumer subscribes to; None if there is no map yet. */
  function Consumable(shardMap: Option<seq<Shard>>): Option<seq<Shard>> {
    if shardMap.None? || |shardMap.value| == 0 then None else Some(NotClosed(shardMap.value))
  }

  function NotClosed(shards: seq<Shard>): seq<Shard> {
    if |shards| == 0 then []
    else NotClosed(shards[..|shards| - 1]) + if shards[|shards| - 1].phase.Closed? then [] else [shards[|shards| - 1]]
  }

  /** The listed shards that are not Closed, each as often as it is listed, and no others. */
  lemma {:induction false} NotClosedMembers(shards: seq<Shard>, r: Shard)
    ensures multiset(NotClosed(shards))[r] == if r.phase.Closed? then 0 else multiset(shards)[r]
  {
    if |shards| > 0 {
      var n := |shards| - 1;
      NotClosedMembers(shards[..n], r);
      assert shards == shards[..n] + [shards[n]];
    }
  }

  /** And they keep their order. */
  lemma {:induction false} NotClosedConcat(a: seq<Shard>, b: seq<Shard>)
    ensures NotClosed(a + b) == NotClosed(a) + NotClosed(b)
    decreases |b|
  {
    if |b| == 0 {
      assert a + b == a;
    } else {
      var n := |b| - 1;
      assert (a + b)[..|a| + n] == a + b[..n];
      NotClosedConcat(a, b[..n]);
    }
  }

  method ConsumableShards(shardMap: Option<seq<Shard>>) returns (out: Option<seq<Shard>>)
    ensures out == Consumable(shardMap)
  {
    if shardMap.None? || |shardMap.value| == 0 {
      return None;
    }
    var shards, kept := shardMap.value, [];
    for i := 0 to |shards|
      invariant kept == NotClosed(shards[..i])
    {
      assert shards[..i + 1][..i] == shards[..i];
      if shards[i].phase != Closed {
        kept := kept + [shards[i]];
      }
    }
    assert shards[..|shards|] == shards;
    return Some(kept);
  }

  /** The operator publishes no Closed shard, so a consumer subscribes to the whole of a map it published. */
  lemma {:induction false} PublishedIsConsumable(s: Status)
    ensures NotClosed(Published(s)) == Published(s)
  {
    if |s| > 0 {
      PublishedIsConsumable(s[..|s| - 1]);
      var p := Published(s);
      if !s[|s| - 1].phase.Closed? {
        assert p[..|p| - 1] == Published(s[..|s| - 1]);
      }
    }
  }

  // ---------------------------------------------------------------------------------------------------------------
  // Routing is total, unique and follows the tree
  // ---------------------------------------------------------------------------------------------------------------

  predicate PhasesSet(s: Status) {
    forall i :: 0 <= i < |s| ==> !s[i].phase.Unset?
  }

  lemma {:induction false} HistoryKeepsPhasesSet(c: Config, moves: seq<Move>)
    ensures PhasesSet(Replay(c, moves))
  {
    if |moves| > 0 {
      HistoryKeepsPhasesSet(c, moves[..|moves| - 1]);
    }
  }

  /** The list holds the published shards, in any order and any number of times. */
  ghost predicate Lists(shards: seq<Shard>, s: Status) {
    forall r :: r in shards <==> r in Published(s)
  }

  /** The shards of the list that may be written to and cover h are one: the route of h's owner. */
  lemma OnlyTheOwner(s: Status, shards: seq<Shard>, i: int, h: int, r: Shard)
    requires Partitioned(s) && ProperRanges(s) && PhasesSet(s) && Lists(shards, s) && Owns(s, i, h)
    ensures (r in WriteTargets(shards) && Contains(r, h)) <==> r == RouteShard(s[i])
  {
    WriteTargetsMembers(shards, r);
    PublishedMembers(s, r);
    if r in shards && IsWriteTarget(r) && Contains(r, h) {
      var k :| 0 <= k < |s| && !s[k].phase.Closed? && r == RouteShard(s[k]);
      assert Owns(s, k, h);
    }
  }

  lemma SelectsTheOwner(s: Status, shards: seq<Shard>, i: int, h: int)
    requires Partitioned(s) && ProperRanges(s) && PhasesSet(s) && Lists(shards, s) && Owns(s, i, h)
    ensures Selected(WriteTargets(shards), h) == Some(RouteShard(s[i]))
  {
    var found := Selected(WriteTargets(shards), h);
    OnlyTheOwner(s, shards, i, h, RouteShard(s[i]));
    if found.Some? {
      OnlyTheOwner(s, shards, i, h, found.value);
    }
  }

  ghost function OwnerOf(s: Status, h: int): (i: int)
    requires HasOwner(s, h)
    ensures Owns(s, i, h)
  {
    var i :| Owns(s, i, h);
    i
  }

  /**
   Routing is total and unique: by any list of the shards published for a status a queue can reach, every routing key
   goes to exactly one shard, the owner of its hash, and the order of the list does not matter.
   */
  lemma RoutesToTheOwner(c: Config, moves: seq<Move>, shards: seq<Shard>, key: Key)
    requires Sane(c) && LegalHistory(c, moves) && |moves| > 0 && Lists(shards, Replay(c, moves))
    ensures HasOwner(Replay(c, moves), HashKey(key))
    ensures Route(Some(shards), key) == Routed(RouteShard(Replay(c, moves)[OwnerOf(Replay(c, moves), HashKey(key))]))
    ensures forall i :: Owns(Replay(c, moves), i, HashKey(key)) ==> i == OwnerOf(Replay(c, moves), HashKey(key))
  {
    var s := Replay(c, moves);
    HistoryKeepsInv(c, moves);
    HistoryKeepsPhasesSet(c, moves);
    assert HasOwner(s, HashKey(key));
    SelectsTheOwner(s, shards, OwnerOf(s, HashKey(key)), HashKey(key));
  }

  /**
   Over any stretch of a queue's life a key's route stays the same as long as its shard is Active, and otherwise leads
   to a descendant of the shard it led to before. So the keys of shards that are not split never move.
   */
  lemma RoutesOnlyDescend(c: Config, moves: seq<Move>, k: nat, before: seq<Shard>, after: seq<Shard>, key: Key)
    requires Sane(c) && LegalHistory(c, moves) && 0 < k <= |moves|
    requires Lists(before, Replay(c, moves[..k])) && Lists(after, Replay(c, moves))
    ensures TreeInv(c, Replay(c, moves)) && |Replay(c, moves)| > 0
    ensures exists i, j ::
      && Owns(Replay(c, moves[..k]), i, HashKey(key)) && Owns(Replay(c, moves), j, HashKey(key))
      && Route(Some(before), key) == Routed(RouteShard(Replay(c, moves[..k])[i]))
      && Route(Some(after), key) == Routed(RouteShard(Replay(c, moves)[j]))
      && Descendant(Replay(c, moves), i, j)
      && (i < |Replay(c, moves)| && Replay(c, moves)[i].phase.Active? ==> Route(Some(after), key) == Route(Some(before), key))
  {
    LegalPrefix(c, moves, k);
    RoutesToTheOwner(c, moves[..k], before, key);
    RoutesToTheOwner(c, moves, after, key);
    var s, t := Replay(c, moves[..k]), Replay(c, moves);
    var i, j := OwnerOf(s, HashKey(key)), OwnerOf(t, HashKey(key));
    KeysOnlyDescend(c, moves, k, i, j, HashKey(key));
    HistoryExtends(c, moves, k);
    assert t[i].phase.Active? ==> t[i] == s[i];
  }
}
