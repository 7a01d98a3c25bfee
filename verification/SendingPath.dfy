/** One FIFO group over the life of its queue: its messages follow one path down the shard tree, in send order. */
module SendingPath {
  import opened Options
  import opened Murmur
  import opened Topology
  import opened Router
  import opened ShardTree
  import opened ShardInvariants
  import opened ShardRuns
  import opened Sending

  /** One accepted message of the group: the topic it went to and its body. */
  datatype Entry = Entry(topic: string, body: string)

  function Added(b: Bus, e: Event, g: Key): seq<Entry> {
    if e.Send? && e.m.group == g && SendOp(b, e.m, e.random, e.produceOk).1.Sent? && Route(b.shardMap, g).Routed?
    then [Entry(Route(b.shardMap, g).shard.topic, e.m.body)] else []
  }

  /** What group g sent over a run, in the order of the sends. */
  function Journal(b: Bus, events: seq<Event>, g: Key): seq<Entry> {
    if |events| == 0 then []
    else
      var before := events[..|events| - 1];
      Journal(b, before, g) + Added(Run(b, before), events[|events| - 1], g)
  }

  /** The bodies of a journal that went to one topic. */
  function To(journal: seq<Entry>, topic: string): seq<string> {
    if |journal| == 0 then []
    else
      var last := journal[|journal| - 1];
      To(journal[..|journal| - 1], topic) + if last.topic == topic then [last.body] else []
  }

  lemma {:induction false} ToConcat(a: seq<Entry>, b: seq<Entry>, topic: string)
    ensures To(a + b, topic) == To(a, topic) + To(b, topic)
  {
    if |b| == 0 {
      assert a + b == a;
    } else {
      var n := |b| - 1;
      ToConcat(a, b[..n], topic);
      assert (a + b)[..|a| + n] == a + b[..n];
    }
  }

  /** The journal's part that belongs at a place. */
  function At(meta: Meta, journal: seq<Entry>, g: Key, p: Place): seq<string> {
    if p == PlaceOf(meta, g, p.topic) then To(journal, p.topic) else []
  }

  /** What one event adds to the group's records at a place: its own message, if that is where it went. */
  lemma EventAddsEntry(b: Bus, e: Event, g: Key, p: Place)
    requires b.meta.Some? && b.meta.value.fifo && g != []
    ensures Records(b, After(b, e), g, p, At(b.meta.value, Added(b, e, g), g, p))
  {
    if e.Send? {
      UnsentKeepsLogs(b, e.m, e.random, e.produceOk);
      var (b', reply) := SendOp(b, e.m, e.random, e.produceOk);
      if reply.Sent? {
        var q := PlaceOf(b.meta.value, e.m.group, Route(b.shardMap, e.m.group).shard.topic);
        SendAppends(b, e.m, e.random, e.produceOk);
        AppendAdds(b, b', q, Record(Some(e.m.group), e.m.body), g, p);
        OneEntry(Route(b.shardMap, e.m.group).shard.topic, e.m.body, p.topic);
      }
    }
  }

  lemma OneEntry(topic: string, body: string, at: string)
    ensures To([Entry(topic, body)], at) == if topic == at then [body] else []
  {
    assert [Entry(topic, body)][..0] == [];
  }

  lemma {:induction false} RunKeepsMeta(b: Bus, events: seq<Event>)
    ensures Run(b, events).meta == b.meta
  {
    if |events| > 0 {
      var n := |events| - 1;
      RunKeepsMeta(b, events[..n]);
      if events[n].Send? {
        UnsentKeepsLogs(Run(b, events[..n]), events[n].m, events[n].random, events[n].produceOk);
      }
    }
  }

  lemma AtConcat(meta: Meta, a: seq<Entry>, b: seq<Entry>, g: Key, p: Place)
    ensures At(meta, a + b, g, p) == At(meta, a, g, p) + At(meta, b, g, p)
  {
    ToConcat(a, b, p.topic);
  }

  /**
   Over any run, resharding included, the group's records at a place are exactly its accepted messages that were routed
   to that topic, in send order, at the one partition number its key hashes to, and none at any other partition.
   */
  lemma {:induction false} RecordsAreTheJournal(b: Bus, events: seq<Event>, g: Key, p: Place)
    requires b.meta.Some? && b.meta.value.fifo && g != []
    ensures Records(b, Run(b, events), g, p, At(b.meta.value, Journal(b, events, g), g, p))
  {
    if |events| == 0 {
      assert At(b.meta.value, [], g, p) == [];
    } else {
      var n := |events| - 1;
      var t, e := Run(b, events[..n]), events[n];
      var first, second := Journal(b, events[..n], g), Added(Run(b, events[..n]), events[n], g);
      RecordsAreTheJournal(b, events[..n], g, p);
      RunKeepsMeta(b, events[..n]);
      EventAddsEntry(t, e, g, p);
      RecordsChain(b, t, After(t, e), g, p, At(b.meta.value, first, g, p), At(b.meta.value, second, g, p));
      AtConcat(b.meta.value, first, second, g, p);
    }
  }

  // ---------------------------------------------------------------------------------------------------------------
  // The path
  // ---------------------------------------------------------------------------------------------------------------

  /** The map in force lists the shards of the status after the first `time` moves of the history. */
  ghost predicate InForce(c: Config, h: seq<Move>, shardMap: Option<seq<Shard>>, time: nat) {
    0 < time <= |h| && shardMap.Some? && Lists(shardMap.value, Replay(c, h[..time]))
  }

  /** The published maps of the run belong to one history, in its order; times[k] is that of the map in force at event k. */
  ghost predicate FollowsHistory(c: Config, h: seq<Move>, b: Bus, events: seq<Event>, times: seq<nat>) {
    && |times| == |events| + 1
    && InForce(c, h, b.shardMap, times[0])
    && (forall k :: 0 <= k < |events| ==>
          && times[k] <= times[k + 1]
          && (if events[k].Reshard? then InForce(c, h, Some(events[k].shards), times[k + 1]) else times[k + 1] == times[k]))
  }

  lemma FollowsPrefix(c: Config, h: seq<Move>, b: Bus, events: seq<Event>, times: seq<nat>)
    requires FollowsHistory(c, h, b, events, times) && |events| > 0
    ensures FollowsHistory(c, h, b, events[..|events| - 1], times[..|events|])
  {
    assert forall k :: 0 <= k < |events| ==> times[..|events|][k] == times[k];
  }

  lemma {:induction false} MapInForce(c: Config, h: seq<Move>, b: Bus, events: seq<Event>, times: seq<nat>)
    requires FollowsHistory(c, h, b, events, times)
    ensures InForce(c, h, Run(b, events).shardMap, times[|events|])
  {
    if |events| > 0 {
      var n := |events| - 1;
      FollowsPrefix(c, h, b, events, times);
      MapInForce(c, h, b, events[..n], times[..n + 1]);
      if events[n].Send? {
        UnsentKeepsLogs(Run(b, events[..n]), events[n].m, events[n].random, events[n].produceOk);
      }
    }
  }

  /** At that time of the history the shard that owned the hash had the topic. */
  ghost predicate OwnedThen(c: Config, h: seq<Move>, time: nat, hash: int, topic: string) {
    0 < time <= |h| && exists i :: Owns(Replay(c, h[..time]), i, hash) && Replay(c, h[..time])[i].topic == topic
  }

  /** Every entry was routed by its owner at some time, and the times do not go back. */
  ghost predicate Dated(c: Config, h: seq<Move>, journal: seq<Entry>, hash: int, dates: seq<nat>, until: nat) {
    && |dates| == |journal|
    && (forall x :: 0 <= x < |journal| ==> dates[x] <= until && OwnedThen(c, h, dates[x], hash, journal[x].topic))
    && (forall x, y :: 0 <= x < y < |journal| ==> dates[x] <= dates[y])
  }

  lemma EntryIsOwned(c: Config, h: seq<Move>, b: Bus, time: nat, g: Key)
    requires Sane(c) && LegalHistory(c, h) && InForce(c, h, b.shardMap, time)
    ensures Route(b.shardMap, g).Routed? && OwnedThen(c, h, time, HashKey(g), Route(b.shardMap, g).shard.topic)
  {
    LegalPrefix(c, h, time);
    RoutesToTheOwner(c, h[..time], b.shardMap.value, g);
    var s := Replay(c, h[..time]);
    assert Owns(s, OwnerOf(s, HashKey(g)), HashKey(g));
  }

  lemma DatedSnoc(c: Config, h: seq<Move>, journal: seq<Entry>, hash: int, dates: seq<nat>, now: nat, e: Entry)
    requires Dated(c, h, journal, hash, dates, now) && OwnedThen(c, h, now, hash, e.topic)
    ensures Dated(c, h, journal + [e], hash, dates + [now], now)
  {
  }

  lemma DatedUntil(c: Config, h: seq<Move>, journal: seq<Entry>, hash: int, dates: seq<nat>, early: nat, late: nat)
    requires Dated(c, h, journal, hash, dates, early) && early <= late
    ensures Dated(c, h, journal, hash, dates, late)
  {
  }

  lemma {:induction false} JournalIsDated(
    c: Config, h: seq<Move>, b: Bus, events: seq<Event>, times: seq<nat>, g: Key) returns (dates: seq<nat>)
    requires Sane(c) && LegalHistory(c, h) && FollowsHistory(c, h, b, events, times)
    ensures Dated(c, h, Journal(b, events, g), HashKey(g), dates, times[|events|])
  {
    dates := [];
    if |events| > 0 {
      var n := |events| - 1;
      var t := Run(b, events[..n]);
      FollowsPrefix(c, h, b, events, times);
      dates := JournalIsDated(c, h, b, events[..n], times[..n + 1], g);
      MapInForce(c, h, b, events[..n], times[..n + 1]);
      EntryIsOwned(c, h, t, times[n], g);
      if Added(t, events[n], g) != [] {
        DatedSnoc(c, h, Journal(b, events[..n], g), HashKey(g), dates, times[n], Added(t, events[n], g)[0]);
        dates := dates + [times[n]];
      }
      DatedUntil(c, h, Journal(b, events, g), HashKey(g), dates, times[n], times[n + 1]);
    }
  }

  /** The first topic is that of a shard of s, the second that of the same shard or of one of its descendants. */
  ghost predicate LeadsDown(s: Status, first: string, second: string) {
    ParentsFirst(s) &&
    exists i, j :: 0 <= i < |s| && 0 <= j < |s| && s[i].topic == first && s[j].topic == second && Descendant(s, i, j)
  }

  lemma OwnersLeadDown(c: Config, h: seq<Move>, early: nat, late: nat, hash: int, first: string, second: string)
    requires Sane(c) && LegalHistory(c, h) && early <= late
    requires OwnedThen(c, h, early, hash, first) && OwnedThen(c, h, late, hash, second)
    ensures LeadsDown(Replay(c, h), first, second)
  {
    var a, z, s := h[..early], h[..late], Replay(c, h);
    var i :| Owns(Replay(c, a), i, hash) && Replay(c, a)[i].topic == first;
    var j :| Owns(Replay(c, z), j, hash) && Replay(c, z)[j].topic == second;
    LegalPrefix(c, h, late);
    assert z[..early] == a;
    KeysOnlyDescend(c, z, early, i, j, hash);
    HistoryExtends(c, h, early);
    HistoryExtends(c, h, late);
    HistoryKeepsInv(c, h);
    DescentStays(Replay(c, z), s, i, j);
  }

  /**
   Group affinity over a queue's life: as long as the maps published during a run belong to one history, each message of
   the group goes to the topic of the shard that earlier messages went to, or of one of its descendants. So the group's
   topics are one path down the tree, and with the records at each of them in send order, the whole group is.
   */
  lemma GroupFollowsOnePath(
    c: Config, h: seq<Move>, b: Bus, events: seq<Event>, times: seq<nat>, g: Key, x: nat, y: nat)
    requires Sane(c) && LegalHistory(c, h) && FollowsHistory(c, h, b, events, times)
    requires x < y < |Journal(b, events, g)|
    ensures LeadsDown(Replay(c, h), Journal(b, events, g)[x].topic, Journal(b, events, g)[y].topic)
  {
    var dates := JournalIsDated(c, h, b, events, times, g);
    var journal := Journal(b, events, g);
    OwnersLeadDown(c, h, dates[x], dates[y], HashKey(g), journal[x].topic, journal[y].topic);
  }
}
