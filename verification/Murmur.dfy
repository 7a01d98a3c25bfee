/** Kafka's murmur2 hash on 32-bit words: the loop with its fall-through tail, and a recursive definition. */
module Murmur {
  const SEED: bv32 := 0x9747b28c
  const M: bv32 := 0x5bd1e995

  /** The little-endian value of up to four bytes. */
  function LittleEndian(s: seq<bv8>): bv32 {
    if |s| == 0 then 0 else Join(s[0] as bv32, LittleEndian(s[1..]))
  }

  function Join(low: bv32, high: bv32): bv32 { low | (high << 8) }

  // The steps of the hash, each one operation on a 32-bit word.

  function Times(h: bv32): bv32 { h * M }

  function Xor(h: bv32, k: bv32): bv32 { h ^ k }

  function Fold13(h: bv32): bv32 { h ^ (h >> 13) }

  function Fold15(h: bv32): bv32 { h ^ (h >> 15) }

  function Fold24(h: bv32): bv32 { h ^ (h >> 24) }

  function Scramble(k: bv32): bv32 {
    Times(Fold24(Times(k)))
  }

  /** The hash after all complete four-byte blocks. */
  function Blocks(h: bv32, data: seq<bv8>): bv32
    decreases |data|
  {
    if |data| < 4 then h else Blocks(Xor(Times(h), Scramble(LittleEndian(data[..4]))), data[4..])
  }

  /** The bytes after the last complete block. */
  function Tail(data: seq<bv8>): seq<bv8>
  {
    data[|data| / 4 * 4..]
  }

  function Finish(h: bv32): bv32 {
    Fold15(Times(Fold13(h)))
  }

  function Length(data: seq<bv8>): bv32 {
    (|data| % 0x1_0000_0000) as bv32
  }

  function Murmur2(data: seq<bv8>): bv32 {
    var h := Blocks(SEED ^ Length(data), data);
    Finish(if Tail(data) == [] then h else Times(Xor(h, LittleEndian(Tail(data)))))
  }

  lemma OneByte(a: bv8)
    ensures LittleEndian([a]) == Join(a as bv32, 0)
  {
    assert [a][1..] == [];
  }

  lemma TwoBytes(a: bv8, b: bv8)
    ensures LittleEndian([a, b]) == Join(a as bv32, Join(b as bv32, 0))
  {
    assert [a, b][1..] == [b];
    OneByte(b);
  }

  lemma ThreeBytes(a: bv8, b: bv8, c: bv8)
    ensures LittleEndian([a, b, c]) == Join(a as bv32, Join(b as bv32, Join(c as bv32, 0)))
  {
    assert [a, b, c][1..] == [b, c];
    TwoBytes(b, c);
  }

  lemma ShiftsOfFour(a: bv32, b: bv32, c: bv32, d: bv32)
    ensures Join(a, Join(b, Join(c, Join(d, 0)))) == a | (b << 8) | (c << 16) | (d << 24)
  {
  }

  lemma FourBytes(a: bv8, b: bv8, c: bv8, d: bv8)
    ensures LittleEndian([a, b, c, d]) ==
      (a as bv32) | ((b as bv32) << 8) | ((c as bv32) << 16) | ((d as bv32) << 24)
  {
    assert [a, b, c, d][1..] == [b, c, d];
    ThreeBytes(b, c, d);
    ShiftsOfFour(a as bv32, b as bv32, c as bv32, d as bv32);
  }

  /** Bytes at different places can be mixed in one at a time. */
  lemma MixThree(a: bv32, b: bv32, c: bv32, h: bv32)
    requires a < 256 && b < 256 && c < 256
    ensures Xor(h, Join(a, Join(b, Join(c, 0)))) == Xor(Xor(Xor(h, c << 16), b << 8), a)
  {
  }

  lemma MixTwo(a: bv32, b: bv32, h: bv32)
    requires a < 256 && b < 256
    ensures Xor(h, Join(a, Join(b, 0))) == Xor(Xor(h, b << 8), a)
  {
  }

  lemma MixOne(a: bv32, h: bv32)
    ensures Xor(h, Join(a, 0)) == Xor(h, a)
  {
  }

  lemma ByteIsSmall(a: bv8)
    ensures (a as bv32) < 256
  {
  }

  lemma TailOfThree(a: bv8, b: bv8, c: bv8, h: bv32)
    ensures Xor(h, LittleEndian([a, b, c])) == Xor(Xor(Xor(h, (c as bv32) << 16), (b as bv32) << 8), a as bv32)
  {
    ThreeBytes(a, b, c);
    ByteIsSmall(a);
    ByteIsSmall(b);
    ByteIsSmall(c);
    MixThree(a as bv32, b as bv32, c as bv32, h);
  }

  lemma TailOfTwo(a: bv8, b: bv8, h: bv32)
    ensures Xor(h, LittleEndian([a, b])) == Xor(Xor(h, (b as bv32) << 8), a as bv32)
  {
    TwoBytes(a, b);
    ByteIsSmall(a);
    ByteIsSmall(b);
    MixTwo(a as bv32, b as bv32, h);
  }

  lemma TailOfOne(a: bv8, h: bv32)
    ensures Xor(h, LittleEndian([a])) == Xor(h, a as bv32)
  {
    OneByte(a);
    MixOne(a as bv32, h);
  }

  /** The loop's word: four bytes, each shifted to its place. */
  function WordAt(data: seq<bv8>, i: nat): bv32
    requires i + 4 <= |data|
  {
    (data[i] as bv32) | ((data[i + 1] as bv32) << 8) | ((data[i + 2] as bv32) << 16) | ((data[i + 3] as bv32) << 24)
  }

  lemma WordIsLittleEndian(data: seq<bv8>, i: nat)
    requires i + 4 <= |data|
    ensures WordAt(data, i) == LittleEndian(data[i..][..4])
  {
    FourBytes(data[i], data[i + 1], data[i + 2], data[i + 3]);
    assert data[i..][..4] == [data[i], data[i + 1], data[i + 2], data[i + 3]];
  }

  lemma NextBlock(h: bv32, data: seq<bv8>, i: nat)
    requires i + 4 <= |data|
    ensures Blocks(h, data[i..]) == Blocks(Xor(Times(h), Scramble(WordAt(data, i))), data[i + 4..])
  {
    WordIsLittleEndian(data, i);
    assert data[i..][4..] == data[i + 4..];
  }

  method ComputeMurmur2(data: seq<bv8>) returns (h: bv32)
    ensures h == Murmur2(data)
  {
    var length := |data|;
    h := MixBlocks(data, SEED ^ Length(data));
    if length % 4 > 0 {
      h := MixTail(data, h);
      h := Times(h);
    }
    h := Fold13(h);
    h := Times(h);
    h := Fold15(h);
  }

  /** The loop over the complete blocks. */
  method MixBlocks(data: seq<bv8>, start: bv32) returns (h: bv32)
    ensures h == Blocks(start, data)
  {
    h := start;
    var four := |data| / 4;
    assert data[0..] == data;
    for i := 0 to four
      invariant Blocks(h, data[4 * i..]) == Blocks(start, data)
    {
      var i4 := i * 4;
      var k := WordAt(data, i4);
      NextBlock(h, data, i4);
      k := Times(k);
      k := Fold24(k);
      k := Times(k);
      h := Times(h);
      h := Xor(h, k);
    }
  }

  /** The switch over the remaining bytes, with its fall-through, up to the last multiplication. */
  method MixTail(data: seq<bv8>, blocks: bv32) returns (h: bv32)
    requires |data| % 4 > 0
    ensures h == Xor(blocks, LittleEndian(Tail(data)))
  {
    h := blocks;
    var rest, base := |data| % 4, |data| / 4 * 4;
    if rest == 3 {
      h := Xor(h, (data[base + 2] as bv32) << 16);
    }
    if rest >= 2 {
      h := Xor(h, (data[base + 1] as bv32) << 8);
    }
    h := Xor(h, data[base] as bv32);
    TailMixed(data, blocks);
  }

  /** The bytes that the switch mixes in, by their number. */
  lemma TailBytes(data: seq<bv8>)
    ensures
      var rest, base := |data| % 4, |data| / 4 * 4;
      && (rest == 3 ==> Tail(data) == [data[base], data[base + 1], data[base + 2]])
      && (rest == 2 ==> Tail(data) == [data[base], data[base + 1]])
      && (rest == 1 ==> Tail(data) == [data[base]])
  {
  }

  lemma TailMixed(data: seq<bv8>, h: bv32)
    requires |data| % 4 > 0
    ensures
      var rest, base := |data| % 4, |data| / 4 * 4;
      var h1 := if rest == 3 then Xor(h, (data[base + 2] as bv32) << 16) else h;
      var h2 := if rest >= 2 then Xor(h1, (data[base + 1] as bv32) << 8) else h1;
      Xor(h2, data[base] as bv32) == Xor(h, LittleEndian(Tail(data)))
  {
    var rest, base := |data| % 4, |data| / 4 * 4;
    TailBytes(data);
    if rest == 3 {
      TailOfThree(data[base], data[base + 1], data[base + 2], h);
    } else if rest == 2 {
      TailOfTwo(data[base], data[base + 1], h);
    } else {
      TailOfOne(data[base], h);
    }
  }

  /** toPositive: the sign bit masked off, which leaves 31 bits. */
  function ToPositive(n: bv32): bv31 {
    (n & 0x7fff_ffff) as bv31
  }

  /** Masking the sign bit is taking the remainder by 2^31. */
  lemma ToPositiveIsModulo(n: bv32)
    ensures ToPositive(n) as bv32 == n % 0x8000_0000
  {
  }

  /** The hash of a routing key, as a number. */
  function HashKey(key: seq<bv8>): (h: nat)
    ensures h <= 0x7fff_ffff
  {
    ToPositive(Murmur2(key)) as nat
  }

  lemma SameWord(a: bv31, b: bv31)
    requires a as bv32 == b as bv32
    ensures a == b
  {
  }

  /** The hash of a key is the remainder of its murmur2 value by 2^31. */
  lemma HashKeyIsRemainder(key: seq<bv8>, rest: bv31)
    requires rest as bv32 == Murmur2(key) % 0x8000_0000
    ensures HashKey(key) == rest as nat
  {
    ToPositiveIsModulo(Murmur2(key));
    SameWord(ToPositive(Murmur2(key)), rest);
  }

  // ---------------------------------------------------------------------------------------------------------------
  // Values of Kafka's own partitioner
  // ---------------------------------------------------------------------------------------------------------------

  /** The hash of a key of one to three bytes. */
  function ShortHash(length: bv32, tail: bv32): bv32 {
    Finish(Times(Xor(SEED ^ length, tail)))
  }

  /** The hash of a key of five to seven bytes. */
  function BlockHash(length: bv32, block: bv32, tail: bv32): bv32 {
    Finish(Times(Xor(Xor(Times(SEED ^ length), Scramble(block)), tail)))
  }

  lemma ExampleHashes()
    ensures ShortHash(2, 0x3132) == 3321034988
    ensures ShortHash(3, 0x636261) == 479470107
    ensures BlockHash(6, 0x626f6f66, 0x7261) == 3504634814
  {
  }

  lemma LengthIs(data: seq<bv8>, n: nat)
    requires |data| == n < 0x1_0000_0000
    ensures Length(data) == n as bv32
  {
  }

  lemma IsShort(data: seq<bv8>, n: nat, length: bv32, tail: bv32)
    requires 0 < |data| == n < 4 && n as bv32 == length && LittleEndian(data) == tail
    ensures Murmur2(data) == ShortHash(length, tail)
  {
    LengthIs(data, n);
    assert Tail(data) == data;
  }

  lemma IsBlockAndTail(data: seq<bv8>, n: nat, length: bv32, block: bv32, tail: bv32)
    requires 4 < |data| == n < 8 && n as bv32 == length && LittleEndian(data[..4]) == block && LittleEndian(data[4..]) == tail
    ensures Murmur2(data) == BlockHash(length, block, tail)
  {
    LengthIs(data, n);
    assert Tail(data) == data[4..];
    var rest := data[4..];
    assert Blocks(Xor(Times(SEED ^ length), Scramble(block)), rest) == Xor(Times(SEED ^ length), Scramble(block));
    assert Blocks(SEED ^ length, data) == Xor(Times(SEED ^ length), Scramble(block));
  }

  lemma ExampleWords()
    ensures LittleEndian([0x32, 0x31]) == 0x3132
    ensures LittleEndian([0x61, 0x62, 0x63]) == 0x636261
    ensures LittleEndian([0x66, 0x6f, 0x6f, 0x62]) == 0x626f6f66
    ensures LittleEndian([0x61, 0x72]) == 0x7261
  {
    TwoBytes(0x32, 0x31);
    ThreeBytes(0x61, 0x62, 0x63);
    FourBytes(0x66, 0x6f, 0x6f, 0x62);
    TwoBytes(0x61, 0x72);
  }

  lemma ShortExamples()
    ensures Murmur2([0x32, 0x31]) == 3321034988
    ensures Murmur2([0x61, 0x62, 0x63]) == 479470107
  {
    ExampleWords();
    ExampleHashes();
    IsShort([0x32, 0x31], 2, 2, 0x3132);
    IsShort([0x61, 0x62, 0x63], 3, 3, 0x636261);
  }

  lemma LongerExample()
    ensures Murmur2([0x66, 0x6f, 0x6f, 0x62, 0x61, 0x72]) == 3504634814
  {
    ExampleWords();
    ExampleHashes();
    var data: seq<bv8> := [0x66, 0x6f, 0x6f, 0x62, 0x61, 0x72];
    assert data[..4] == [0x66, 0x6f, 0x6f, 0x62] && data[4..] == [0x61, 0x72];
    IsBlockAndTail(data, 6, 6, 0x626f6f66, 0x7261);
  }

  /** The keys "21", "abc" and "foobar" have the values that Kafka's own tests give for them. */
  lemma KafkaValues()
    ensures Murmur2([0x32, 0x31]) == 3321034988
    ensures Murmur2([0x61, 0x62, 0x63]) == 479470107
    ensures Murmur2([0x66, 0x6f, 0x6f, 0x62, 0x61, 0x72]) == 3504634814
  {
    ShortExamples();
    LongerExample();
  }

  lemma Remainders()
    ensures 1173551340 as bv31 as bv32 == 3321034988 % 0x8000_0000
    ensures 479470107 as bv31 as bv32 == 479470107 % 0x8000_0000
    ensures 1357151166 as bv31 as bv32 == 3504634814 % 0x8000_0000
  {
  }

  /** And so do their hashes, two of which lose a sign bit. */
  lemma HashValues()
    ensures HashKey([0x32, 0x31]) == 1173551340
    ensures HashKey([0x61, 0x62, 0x63]) == 479470107
    ensures HashKey([0x66, 0x6f, 0x6f, 0x62, 0x61, 0x72]) == 1357151166
  {
    Remainders();
    ShortExamples();
    LongerExample();
    HashKeyIsRemainder([0x32, 0x31], 1173551340);
    HashKeyIsRemainder([0x61, 0x62, 0x63], 479470107);
    HashKeyIsRemainder([0x66, 0x6f, 0x6f, 0x62, 0x61, 0x72], 1357151166);
  }
}
