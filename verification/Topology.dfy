/** Topic names, hash ranges and the choice of a shard and partition for a routing key. */
module Topology {
  import opened Options
  import opened Murmur

  /** A routing key as the bytes of its string. */
  type Key = seq<bv8>

  /** The exclusive end of the key space: the first shard of a queue owns [0, FULL_HASH_RANGE_END). */
  const FULL_HASH_RANGE_END := 0xFFFF_FFFF
  const TWO_TO_THE_32 := 0x1_0000_0000
  const DEFAULT_PARTITION_COUNT := 6

  datatype Phase = Unset | Active | Closing | Closed

  /** A shard as the routing map lists it. */
  datatype Shard = Shard(id: string, topic: string, hashRangeStart: int, hashRangeEnd: int, phase: Phase)

  function ShardTopicName(queueName: string, fifo: bool, shardId: string): string {
    "kmsvc." + queueName + (if fifo then ".fifo" else "") + ".shard-" + shardId
  }

  /** Within one queue two shards share a topic only if they share their ID, even if the queue's kind was changed between. */
  lemma TopicNamesDiffer(queueName: string, fifo: bool, a: string, fifo': bool, b: string)
    requires ShardTopicName(queueName, fifo, a) == ShardTopicName(queueName, fifo', b)
    ensures a == b && fifo == fifo'
  {
    var base := "kmsvc." + queueName;
    var n := |base|;
    var x, y := ShardTopicName(queueName, fifo, a), ShardTopicName(queueName, fifo', b);
    assert x[n..] == (if fifo then ".fifo" else "") + ".shard-" + a;
    assert y[n..] == (if fifo' then ".fifo" else "") + ".shard-" + b;
    assert x[n..][1] == (if fifo then 'f' else 's') && y[n..][1] == (if fifo' then 'f' else 's');
    var m := n + (if fifo then 5 else 0) + 7;
    assert x[m..] == a && y[m..] == b;
  }

  lemma TopicNamesAre()
    ensures ShardTopicName("orders", false, "0") == "kmsvc.orders.shard-0"
    ensures ShardTopicName("orders", true, "2") == "kmsvc.orders.fifo.shard-2"
  {
  }

  function Uint32(n: int): (r: nat)
    ensures r < TWO_TO_THE_32
    ensures 0 <= n < TWO_TO_THE_32 ==> r == n
  {
    n % TWO_TO_THE_32
  }

  /** The midpoint, in 32-bit arithmetic. */
  function SplitHashRange(start: nat, end: nat): nat {
    Uint32(start + Uint32(end - start) / 2)
  }

  /** On a proper range the arithmetic does not wrap, and the midpoint halves the range, the odd key going up. */
  lemma SplitHashRangeHalves(start: nat, end: nat)
    requires start <= end < TWO_TO_THE_32
    ensures
      var mid := SplitHashRange(start, end);
      start <= mid <= end && mid - start == (end - start) / 2 && mid - start <= end - mid <= mid - start + 1
  {
  }

  predicate Contains(s: Shard, h: int) {
    s.hashRangeStart <= h < s.hashRangeEnd
  }

  predicate IsWriteTarget(s: Shard) {
    s.phase.Unset? || s.phase.Active?
  }

  function WriteTargets(shards: seq<Shard>): seq<Shard> {
    if |shards| == 0 then []
    else if IsWriteTarget(shards[|shards| - 1]) then WriteTargets(shards[..|shards| - 1]) + [shards[|shards| - 1]]
    else WriteTargets(shards[..|shards| - 1])
  }

  method ActiveShards(shards: seq<Shard>) returns (active: seq<Shard>)
    ensures active == WriteTargets(shards)
  {
    active := [];
    for i := 0 to |shards|
      invariant active == WriteTargets(shards[..i])
    {
      assert shards[..i + 1][..i] == shards[..i];
      if shards[i].phase == Unset || shards[i].phase == Active {
        active := active + [shards[i]];
      }
    }
    assert shards[..|shards|] == shards;
  }

  /** The write targets are exactly the listed shards that may be written to. */
  lemma {:induction false} WriteTargetsMembers(shards: seq<Shard>, s: Shard)
    ensures s in WriteTargets(shards) <==> s in shards && (s.phase == Unset || s.phase == Active)
  {
    if |shards| > 0 {
      WriteTargetsMembers(shards[..|shards| - 1], s);
      assert shards == shards[..|shards| - 1] + [shards[|shards| - 1]];
    }
  }

  /** The first listed shard whose range contains the key's hash. */
  method SelectShard(shards: seq<Shard>, key: Key) returns (found: Option<Shard>)
    ensures found.Some? ==>
      exists i :: 0 <= i < |shards| && found.value == shards[i] && Contains(shards[i], HashKey(key))
                  && forall j :: 0 <= j < i ==> !Contains(shards[j], HashKey(key))
    ensures found.None? ==> forall s :: s in shards ==> !Contains(s, HashKey(key))
    ensures found == Selected(shards, HashKey(key))
  {
    var h := HashKey(key);
    assert shards[0..] == shards;
    for i := 0 to |shards|
      invariant forall j :: 0 <= j < i ==> !Contains(shards[j], h)
      invariant Selected(shards, h) == Selected(shards[i..], h)
    {
      assert shards[i..][1..] == shards[i + 1..];
      if h >= shards[i].hashRangeStart && h < shards[i].hashRangeEnd {
        return Some(shards[i]);
      }
    }
    return None;
  }

  function Selected(shards: seq<Shard>, h: int): (r: Option<Shard>)
    ensures r.Some? ==> r.value in shards && Contains(r.value, h)
    ensures r.None? ==> forall s :: s in shards ==> !Contains(s, h)
  {
    if |shards| == 0 then None
    else if Contains(shards[0], h) then Some(shards[0])
    else Selected(shards[1..], h)
  }

  /** The partition within a shard's topic; the code converts a positive int32 to uint32. */
  function PartitionWithinShard(key: Key, partitionsPerShard: int): (p: nat)
    ensures p < if partitionsPerShard <= 0 then DEFAULT_PARTITION_COUNT else partitionsPerShard
  {
    var n := if partitionsPerShard <= 0 then DEFAULT_PARTITION_COUNT else partitionsPerShard;
    HashKey(key) % n
  }

  lemma RemaindersAgree(a: nat, b: nat, n: nat)
    requires n > 0
    ensures a % n == b % n <==> (a - b) % n == 0
  {
    Quotient(a - b, n);
    if (a - b) % n == 0 {
      AddMultiple(b, (a - b) / n, n);
    } else if a % n == b % n {
      Quotient(a, n);
      Quotient(b, n);
      assert (a / n - b / n) * n == a / n * n - b / n * n;
      Multiple(a / n - b / n, n);
    }
  }

  lemma AddMultiple(b: nat, q: int, n: nat)
    requires n > 0 && b + q * n >= 0
    ensures (b + q * n) % n == b % n
  {
    Quotient(b, n);
    assert (b / n + q) * n == b / n * n + q * n;
    UniqueRemainder(b + q * n, b / n + q, b % n, n);
  }

  lemma Multiple(q: int, n: nat)
    requires n > 0
    ensures (q * n) % n == 0
  {
    UniqueRemainder(q * n, q, 0, n);
  }

  lemma AtLeastOnce(d: nat, n: nat)
    requires d > 0
    ensures d * n >= n
  {
    if d > 1 {
      AtLeastOnce(d - 1, n);
      assert d * n == (d - 1) * n + n;
    }
  }

  lemma Apart(d: int, n: nat)
    requires d != 0
    ensures d * n >= n || -(d * n) >= n
  {
    if d > 0 {
      AtLeastOnce(d, n);
    } else {
      AtLeastOnce(-d, n);
      assert -d * n == -(d * n);
    }
  }

  lemma UniqueRemainder(a: int, q: int, r: nat, n: nat)
    requires n > 0 && r < n && a == q * n + r
    ensures a % n == r
  {
    Quotient(a, n);
    var x, y := a / n, a % n;
    assert (x - q) * n == x * n - q * n;
    if x != q { Apart(x - q, n); }
  }

  lemma Quotient(a: int, n: nat)
    requires n > 0
    ensures a == a / n * n + a % n
  {
  }

  /** The partition is what is left of the hash when it is dealt out over the partitions, six of them by default. */
  lemma PartitionIsRemainder(key: Key, partitionsPerShard: int)
    ensures
      var n := if partitionsPerShard <= 0 then 6 else partitionsPerShard;
      && 0 <= PartitionWithinShard(key, partitionsPerShard) < n
      && HashKey(key) == HashKey(key) / n * n + PartitionWithinShard(key, partitionsPerShard)
  {
    Quotient(HashKey(key), if partitionsPerShard <= 0 then 6 else partitionsPerShard);
  }

  /** Two keys share a partition if and only if their hashes differ by a multiple of the number of partitions. */
  lemma KeysShareAPartitionIff(a: Key, b: Key, partitionsPerShard: int)
    ensures
      var n := if partitionsPerShard <= 0 then 6 else partitionsPerShard;
      PartitionWithinShard(a, partitionsPerShard) == PartitionWithinShard(b, partitionsPerShard)
      <==> (HashKey(a) - HashKey(b)) % n == 0
  {
    RemaindersAgree(HashKey(a), HashKey(b), if partitionsPerShard <= 0 then 6 else partitionsPerShard);
  }

  /** The keys "21", "abc" and "foobar" on a queue with the default number of partitions. */
  lemma PartitionValues()
    ensures PartitionWithinShard([0x32, 0x31], 0) == 0
    ensures PartitionWithinShard([0x61, 0x62, 0x63], 0) == 3
    ensures PartitionWithinShard([0x66, 0x6f, 0x6f, 0x62, 0x61, 0x72], 0) == 0
  {
    HashValues();
  }
}
