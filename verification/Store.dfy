/**
 The Redis structures of one queue and its committed Kafka offsets, as one value, with one function for every
 command the message plane sends. A Lua script or a MULTI pipeline is a single command.
 */
module Store {
  import opened Options

  /** A receipt handle. The source ends every handle with a fresh UUID; here a handle is that unique number. */
  type Handle = nat

  /** A Kafka partition of one shard's topic: the key of a pending set, of a watermark and of a commit. */
  datatype Partition = Partition(shardId: string, number: int)

  /** One Kafka record: an offset of a partition. */
  datatype Slot = Slot(part: Partition, offset: int)

  /** The fields of an in-flight hash. An empty group means the queue is not FIFO. */
  datatype InFlight = InFlight(slot: Slot, topic: string, group: string, body: string, receiveCount: int)

  datatype Hash = Hash(fields: InFlight, expiresAt: int)

  datatype Lock = Lock(holder: Handle, expiresAt: int)

  /** Per partition: the pending set, the stored watermark and the consumer group's committed offset. */
  datatype Offsets = Offsets(
    pending: map<Partition, set<int>>, watermark: map<Partition, int>, committed: map<Partition, int>)

  datatype Store = Store(
    now: int,
    inflight: map<Handle, Hash>,
    visIndex: map<Handle, int>,
    redeliver: seq<Handle>,
    locks: map<string, Lock>,
    offsets: Offsets)

  datatype AckOutcome = Acked | NotFound

  datatype ReapOutcome = Gone | DeadLetter(fields: InFlight) | Redeliver(receiveCount: int)

  /** The in-flight hash outlives the visibility timeout by one minute; times are in milliseconds. */
  const HASH_GRACE := 60_000

  function EmptyStore(): Store {
    Store(0, map[], map[], [], map[], Offsets(map[], map[], map[]))
  }

  function PendingOf(st: Store, p: Partition): set<int> {
    if p in st.offsets.pending then st.offsets.pending[p] else {}
  }

  predicate IsPending(st: Store, e: Slot) {
    e.offset in PendingOf(st, e.part)
  }

  function WithPending(st: Store, p: Partition, offsets: set<int>): Store {
    st.(offsets := st.offsets.(pending := st.offsets.pending[p := offsets]))
  }

  /** ZADD on the pending set of a partition. */
  function AddPendingOp(st: Store, e: Slot): Store {
    WithPending(st, e.part, PendingOf(st, e.part) + {e.offset})
  }

  /** ZREM on the pending set of a partition. */
  function RemovePendingOp(st: Store, e: Slot): Store {
    WithPending(st, e.part, PendingOf(st, e.part) - {e.offset})
  }

  lemma Pick<T>(s: set<T>) returns (y: T)
    requires s != {}
    ensures y in s
  {
    y :| y in s;
  }

  lemma {:induction false} MinimumExists(s: set<int>)
    requires s != {}
    ensures exists m :: m in s && forall x :: x in s ==> m <= x
  {
    var y := Pick(s);
    var rest := s - {y};
    if rest == {} {
      assert s == {y};
    } else {
      MinimumExists(rest);
      var m :| m in rest && forall x :: x in rest ==> m <= x;
      assert forall x :: x in s ==> x == y || x in rest;
      assert (if y < m then y else m) in s;
    }
  }

  function Minimum(s: set<int>): (m: int)
    requires s != {}
    ensures m in s && forall x :: x in s ==> m <= x
  {
    MinimumExists(s);
    var m :| m in s && forall x :: x in s ==> m <= x;
    m
  }

  /** The lowest offset of a partition that is not yet resolved, if there is one. */
  function MinPending(st: Store, p: Partition): (r: Option<int>)
    ensures r == None <==> PendingOf(st, p) == {}
    ensures r.Some? ==> r.value in PendingOf(st, p) && forall x :: x in PendingOf(st, p) ==> r.value <= x
  {
    if PendingOf(st, p) == {} then None else Some(Minimum(PendingOf(st, p)))
  }

  function SetWatermarkOp(st: Store, p: Partition, offset: int): Store {
    st.(offsets := st.offsets.(watermark := st.offsets.watermark[p := offset]))
  }

  /** The consumer-group commit on the Kafka side. */
  function CommitOp(st: Store, p: Partition, offset: int): Store {
    st.(offsets := st.offsets.(committed := st.offsets.committed[p := offset]))
  }

  /** SET NX with a time to live. The second result says whether the lock was free. */
  function AcquireOp(st: Store, group: string, h: Handle, ttl: int): (Store, bool) {
    if group in st.locks then (st, false)
    else (st.(locks := st.locks[group := Lock(h, st.now + ttl)]), true)
  }

  /** The compare-and-delete on the group's lock that ends both scripts. */
  function Released(locks: map<string, Lock>, group: string, h: Handle): map<string, Lock> {
    if Releases(locks, group, h) then locks - {group} else locks
  }

  predicate Releases(locks: map<string, Lock>, group: string, h: Handle) {
    group != "" && group in locks && locks[group].holder == h
  }

  function PutInFlightOp(st: Store, h: Handle, fields: InFlight, timeout: int): Store {
    st.(inflight := st.inflight[h := Hash(fields, st.now + timeout + HASH_GRACE)],
        visIndex := st.visIndex[h := st.now + timeout])
  }

  /** What HGETALL finds. */
  function Loaded(st: Store, h: Handle): Option<InFlight> {
    if h in st.inflight then Some(st.inflight[h].fields) else None
  }

  /** The ZADD that ends ExtendVisibility. */
  function SetVisibleOp(st: Store, h: Handle, timeout: int): Store {
    st.(visIndex := st.visIndex[h := st.now + timeout])
  }

  function PushOp(st: Store, h: Handle): Store {
    st.(redeliver := st.redeliver + [h])
  }

  /** LPOP. */
  function PopOp(st: Store): (Store, Option<Handle>) {
    if |st.redeliver| == 0 then (st, None)
    else (st.(redeliver := st.redeliver[1..]), Some(st.redeliver[0]))
  }

  /** ack.lua. */
  function AckOp(st: Store, h: Handle): (Store, AckOutcome) {
    if h !in st.inflight then (st, NotFound)
    else
      var f := st.inflight[h].fields;
      (RemovePendingOp(st, f.slot)
       .(visIndex := st.visIndex - {h},
         inflight := st.inflight - {h},
         locks := Released(st.locks, f.group, h)),
       Acked)
  }

  /** reap.lua. */
  function ReapOp(st: Store, h: Handle, maxReceive: int): (Store, ReapOutcome) {
    if h !in st.visIndex then (st, Gone)
    else if h !in st.inflight then (st.(visIndex := st.visIndex - {h}), Gone)
    else
      var hash := st.inflight[h];
      var f := hash.fields;
      var freed := st.(visIndex := st.visIndex - {h}, locks := Released(st.locks, f.group, h));
      if f.receiveCount >= maxReceive then
        (RemovePendingOp(freed, f.slot).(inflight := st.inflight - {h}), DeadLetter(f))
      else
        (freed.(inflight := st.inflight[h := hash.(fields := f.(receiveCount := f.receiveCount + 1))],
                redeliver := st.redeliver + [h]),
         Redeliver(f.receiveCount + 1))
  }

  /**
   What a caller learns by loading a handle: the record that was last put under it, with the count of its last redeliver
   reply, and nothing once it was acked or dead-lettered; no command on another handle matters.
   */
  lemma LoadedTellsOutcome(st: Store, h: Handle, g: Handle, fields: InFlight, timeout: int, maxReceive: int)
    ensures Loaded(PutInFlightOp(st, h, fields, timeout), g) == if g == h then Some(fields) else Loaded(st, g)
    ensures Loaded(AckOp(st, h).0, g) == if g == h then None else Loaded(st, g)
    ensures AckOp(st, h).1.NotFound? <==> Loaded(st, h) == None
    ensures
      var (st', outcome) := ReapOp(st, h, maxReceive);
      && (g != h || outcome.Gone? ==> Loaded(st', g) == Loaded(st, g))
      && (outcome.DeadLetter? ==> Loaded(st, h) == Some(outcome.fields) && Loaded(st', h) == None)
      && (outcome.Redeliver? ==>
            Loaded(st, h).Some? && Loaded(st', h) == Some(Loaded(st, h).value.(receiveCount := outcome.receiveCount)))
  {
  }

  /** Nothing about handles other than h, about other offsets or other locks differs. */
  ghost predicate OnlyAbout(st: Store, st': Store, h: Handle, e: Slot, group: string) {
    && st'.now == st.now
    && (forall g :: g != h ==> (g in st'.inflight <==> g in st.inflight) && (g in st.visIndex <==> g in st'.visIndex))
    && (forall g :: g != h && g in st.inflight ==> st'.inflight[g] == st.inflight[g])
    && (forall g :: g != h && g in st.visIndex ==> st'.visIndex[g] == st.visIndex[g])
    && (forall x :: x != e ==> (IsPending(st', x) <==> IsPending(st, x)))
    && (forall g :: g != group ==> (g in st'.locks <==> g in st.locks) && (g in st.locks ==> st'.locks[g] == st.locks[g]))
    && st'.offsets.committed == st.offsets.committed && st'.offsets.watermark == st.offsets.watermark
  }

  /** After a script has run its compare-and-delete, the group is unlocked or still locked by somebody else. */
  ghost predicate LetsGo(st: Store, st': Store, h: Handle, group: string) {
    if group != "" && group in st.locks && st.locks[group].holder != h
    then group in st'.locks && st'.locks[group] == st.locks[group]
    else group != "" ==> group !in st'.locks
  }

  /** An ack leaves nothing of a live message, and touches nothing else; a message that is gone it does not touch at all. */
  lemma AckLeavesNothing(st: Store, h: Handle)
    ensures h !in st.inflight ==> AckOp(st, h) == (st, NotFound)
    ensures h in st.inflight ==>
      var (st', outcome), f := AckOp(st, h), st.inflight[h].fields;
      && outcome == Acked && h !in st'.inflight && h !in st'.visIndex && !IsPending(st', f.slot)
      && LetsGo(st, st', h, f.group) && OnlyAbout(st, st', h, f.slot, f.group) && st'.redeliver == st.redeliver
  {
  }

  /**
   A reap takes the handle off the visibility index, whatever comes of it. What was not there is left to whoever was
   faster. A live message loses its own lock; on its last attempt nothing is left of it, and else it goes to the tail of the
   redeliver list, still pending, with its count one higher and its time to live as it was.
   */
  lemma ReapLeaves(st: Store, h: Handle, maxReceive: int)
    ensures h !in st.visIndex ==> ReapOp(st, h, maxReceive) == (st, Gone)
    ensures h in st.visIndex && h !in st.inflight ==> ReapOp(st, h, maxReceive) == (st.(visIndex := st.visIndex - {h}), Gone)
    ensures h in st.visIndex && h in st.inflight ==>
      var (st', outcome), hash, f := ReapOp(st, h, maxReceive), st.inflight[h], st.inflight[h].fields;
      && h !in st'.visIndex && LetsGo(st, st', h, f.group) && OnlyAbout(st, st', h, f.slot, f.group)
      && (if f.receiveCount >= maxReceive then
            && outcome == DeadLetter(f) && h !in st'.inflight && !IsPending(st', f.slot) && st'.redeliver == st.redeliver
          else
            && outcome == Redeliver(f.receiveCount + 1) && st'.redeliver == st.redeliver + [h]
            && h in st'.inflight && st'.inflight[h].expiresAt == hash.expiresAt
            && st'.inflight[h].fields == f.(receiveCount := f.receiveCount + 1)
            && (IsPending(st', f.slot) <==> IsPending(st, f.slot)))
  {
  }

  predicate LockExpired(st: Store, group: string) {
    group in st.locks && st.locks[group].expiresAt <= st.now
  }

  function ExpireLockOp(st: Store, group: string): Store {
    if LockExpired(st, group) then st.(locks := st.locks - {group}) else st
  }

  function ExpireHashOp(st: Store, h: Handle): Store {
    if h in st.inflight && st.inflight[h].expiresAt <= st.now then st.(inflight := st.inflight - {h}) else st
  }
}
