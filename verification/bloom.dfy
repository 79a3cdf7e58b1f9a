/**
 * src/table/bloom.rs: the Bloom filter of a table, over 32-bit key hashes. The hash function, the
 * checksum function and the bits per key (a floating-point formula in the source) are parameters.
 */
module BloomFilter {
  import opened Bytes
  import opened Common

  datatype Bloom = Bloom(filter: Bytes, k: byte)

  /** `1 << offset`. */
  function Mask(offset: nat): nat {
    if offset == 0 then 1 else 2 * Mask(offset - 1)
  }

  /** `n & (1 << offset) != 0`, in arithmetic. */
  predicate IsBitSet(n: nat, offset: nat) {
    if offset == 0 then n % 2 == 1 else IsBitSet(n / 2, offset - 1)
  }

  /** `n | (1 << offset)`. */
  function WithBit(n: nat, offset: nat): nat {
    if IsBitSet(n, offset) then n else n + Mask(offset)
  }

  lemma {:induction false} WithBitSetsOne(n: nat, offset: nat, p: nat)
    ensures IsBitSet(WithBit(n, offset), p) <==> p == offset || IsBitSet(n, p)
  {
    if offset > 0 {
      var m := Mask(offset - 1);
      HalfOfSum(n, m);
      assert WithBit(n, offset) == n || WithBit(n, offset) == n + 2 * m;
      if p > 0 {
        WithBitSetsOne(n / 2, offset - 1, p - 1);
      }
    } else if n % 2 == 0 {
      HalfOfNext(n);
    }
  }

  lemma HalfOfSum(n: nat, m: nat)
    ensures (n + 2 * m) / 2 == n / 2 + m && (n + 2 * m) % 2 == n % 2
  {
  }

  lemma HalfOfNext(n: nat)
    requires n % 2 == 0
    ensures (n + 1) / 2 == n / 2 && (n + 1) % 2 == 1
  {
  }

  lemma {:induction false} ZeroHasNoBits(offset: nat)
    ensures !IsBitSet(0, offset)
  {
    if offset > 0 {
      ZeroHasNoBits(offset - 1);
    }
  }

  /** Setting one of the low `width` bits of a `width`-bit number does not overflow it. */
  lemma {:induction false} WithBitFits(n: nat, offset: nat, width: nat)
    requires n < Mask(width) && offset < width
    ensures WithBit(n, offset) < Mask(width)
  {
    hide IsBitSet, Mask;
    MaskStep(width - 1);
    if offset > 0 {
      MaskStep(offset - 1);
      BitOfHalf(n, offset);
      WithBitFits(n / 2, offset - 1, width - 1);
    } else {
      LowestBit(n);
    }
  }

  lemma MaskStep(i: nat)
    ensures Mask(0) == 1 && Mask(i + 1) == 2 * Mask(i) && Mask(i) >= 1
  {
    if i > 0 {
      MaskStep(i - 1);
    }
  }

  lemma BitOfHalf(n: nat, offset: nat)
    requires offset > 0
    ensures IsBitSet(n, offset) <==> IsBitSet(n / 2, offset - 1)
  {
  }

  lemma LowestBit(n: nat)
    ensures IsBitSet(n, 0) <==> n % 2 == 1
  {
  }

  /** In base two, the bits of a number are those of its low part and, above them, those of its high part. */
  lemma {:induction false} BitsOfSum(high: nat, low: nat, w: nat, p: nat)
    requires low < Mask(w)
    ensures IsBitSet(high * Mask(w) + low, p) <==> if p < w then IsBitSet(low, p) else IsBitSet(high, p - w)
  {
    hide IsBitSet, Mask;
    MaskStep(w);
    if w > 0 {
      MaskStep(w - 1);
      var m := high * Mask(w - 1);
      var n := high * Mask(w) + low;
      assert n == low + 2 * m;
      HalfOfSum(low, m);
      if p > 0 {
        BitOfHalf(n, p);
        BitOfHalf(low, p);
        BitsOfSum(high, low / 2, w - 1, p - 1);
      } else {
        LowestBit(n);
        LowestBit(low);
      }
    }
  }

  /** `1 << p` has bit `p` and no other. */
  lemma MaskHasOneBit(p: nat, q: nat)
    ensures IsBitSet(Mask(p), q) <==> q == p
  {
    hide Mask;
    MaskStep(p);
    BitsOfSum(1, 0, p, q);
    ZeroHasNoBits(q);
    if q > p {
      ZeroHasNoBits(q - p - 1);
    }
  }

  predicate GetBit(s: Bytes, idx: nat)
    requires idx < 8 * |s|
  {
    IsBitSet(s[idx / 8], idx % 8)
  }

  function SetBit(s: Bytes, idx: nat): (r: Bytes)
    requires idx < 8 * |s|
    ensures |r| == |s|
    ensures forall p :: 0 <= p < 8 * |s| ==> (GetBit(r, p) <==> p == idx || GetBit(s, p))
  {
    WithBitFits(s[idx / 8], idx % 8, 8);
    var r := s[idx / 8 := WithBit(s[idx / 8], idx % 8)];
    assert forall p :: 0 <= p < 8 * |s| ==> (GetBit(r, p) <==> p == idx || GetBit(s, p)) by {
      forall p | 0 <= p < 8 * |s| ensures GetBit(r, p) <==> p == idx || GetBit(s, p) {
        WithBitSetsOne(s[idx / 8], idx % 8, p % 8);
      }
    }
    r
  }

  function RotateLeft15(h: u32): u32 {
    (h % 0x2_0000) * 0x8000 + h / 0x2_0000
  }

  lemma BitsAbove17(high: nat, low: nat, p: nat)
    requires low < 0x2_0000
    ensures IsBitSet(0x2_0000 * high + low, p) <==> if p < 17 then IsBitSet(low, p) else IsBitSet(high, p - 17)
  {
    assert Mask(10) == 1024 && Mask(17) == 0x2_0000;
    BitsOfSum(high, low, 17, p);
  }

  lemma BitsAbove15(high: nat, low: nat, p: nat)
    requires low < 0x8000
    ensures IsBitSet(0x8000 * high + low, p) <==> if p < 15 then IsBitSet(low, p) else IsBitSet(high, p - 15)
  {
    assert Mask(10) == 1024 && Mask(15) == 0x8000;
    BitsOfSum(high, low, 15, p);
  }

  /** `rotate_left(15)`: every bit moves up by 15, and those at the top come back at the bottom. */
  lemma RotatesBits(h: u32, p: nat)
    requires p < 32
    ensures IsBitSet(RotateLeft15(h), (p + 15) % 32) <==> IsBitSet(h, p)
  {
    hide IsBitSet;
    var high, low := h / 0x2_0000, h % 0x2_0000;
    var q := if p < 17 then p + 15 else p - 17;
    assert q == (p + 15) % 32;
    assert h == 0x2_0000 * high + low && RotateLeft15(h) == 0x8000 * low + high;
    BitsAbove17(high, low, p);
    BitsAbove15(low, high, q);
  }

  function WrappingAdd(a: u32, b: u32): u32 {
    (a + b) % 0x1_0000_0000
  }

  /** The `i`-th value of the probing sequence of hash `h`. */
  function Probe(h: u32, i: nat): u32 {
    if i == 0 then h else WrappingAdd(Probe(h, i - 1), RotateLeft15(h))
  }

  /** The probes are equally far apart, modulo the width of a hash. */
  lemma {:induction false} ProbeAt(h: u32, i: nat)
    ensures Probe(h, i) == (h + i * RotateLeft15(h)) % 0x1_0000_0000
  {
    hide RotateLeft15;
    if i > 0 {
      ProbeAt(h, i - 1);
      var d: nat := RotateLeft15(h);
      assert i * d == (i - 1) * d + d;
      WrapOnce(h + (i - 1) * d, d);
    }
  }

  lemma WrapOnce(a: nat, d: nat)
    ensures (a % 0x1_0000_0000 + d) % 0x1_0000_0000 == (a + d) % 0x1_0000_0000
  {
  }

  /** One of the first `k` probes of hash `h` falls on bit `p`. */
  ghost predicate Hits(h: u32, k: nat, nbits: nat, p: nat)
    requires nbits > 0
  {
    exists i :: 0 <= i < k && Probe(h, i) % nbits == p
  }

  ghost predicate Marked(keys: seq<u32>, k: nat, nbits: nat, p: nat)
    requires nbits > 0
  {
    exists j :: 0 <= j < |keys| && Hits(keys[j], k, nbits, p)
  }

  /** The bits of a filter are exactly the probed ones. */
  ghost predicate IsFilterOf(b: Bloom, keys: seq<u32>) {
    && 1 <= b.k <= 30 && |b.filter| >= 8
    && forall p :: 0 <= p < 8 * |b.filter| ==> (GetBit(b.filter, p) <==> Marked(keys, b.k, 8 * |b.filter|, p))
  }

  ghost predicate AllProbesSet(b: Bloom, h: u32)
    requires b.filter != []
  {
    forall i :: 0 <= i < b.k ==> GetBit(b.filter, Probe(h, i) % (8 * |b.filter|))
  }

  /** `MayContain` as a predicate: a filter with more than 30 hash functions answers yes to everything. */
  ghost predicate MayContainSpec(b: Bloom, h: u32)
    requires b.filter != []
  {
    b.k > 30 || AllProbesSet(b, h)
  }

  lemma HitsNext(h: u32, i: nat, nbits: nat)
    requires nbits > 0
    ensures forall p :: Hits(h, i + 1, nbits, p) <==> Hits(h, i, nbits, p) || p == Probe(h, i) % nbits
  {
    assert Hits(h, i + 1, nbits, Probe(h, i) % nbits);
  }

  lemma MarkedSnoc(keys: seq<u32>, h: u32, k: nat, nbits: nat)
    requires nbits > 0
    ensures forall p :: Marked(keys + [h], k, nbits, p) <==> Marked(keys, k, nbits, p) || Hits(h, k, nbits, p)
  {
    var longer := keys + [h];
    assert longer[|keys|] == h;
    forall p | Marked(keys, k, nbits, p) ensures Marked(longer, k, nbits, p) {
      var j :| 0 <= j < |keys| && Hits(keys[j], k, nbits, p);
      assert longer[j] == keys[j];
    }
  }

  method BuildFromKeyHashes(keys: seq<u32>, bitsPerKey: nat, hashFunctions: nat) returns (b: Bloom)
    ensures IsFilterOf(b, keys)
    ensures b.k == if hashFunctions < 1 then 1 else if hashFunctions > 30 then 30 else hashFunctions
    ensures |b.filter| == (Max(|keys| * bitsPerKey, 64) + 7) / 8
  {
    var k := if hashFunctions < 1 then 1 else if hashFunctions > 30 then 30 else hashFunctions;
    var nbytes := (Max(|keys| * bitsPerKey, 64) + 7) / 8;
    var nbits := nbytes * 8;
    var filter: Bytes := seq(nbytes, _ => 0);
    forall p | 0 <= p < nbits ensures !GetBit(filter, p) {
      ZeroHasNoBits(p % 8);
    }
    for j := 0 to |keys|
      invariant |filter| == nbytes
      invariant forall p :: 0 <= p < nbits ==> (GetBit(filter, p) <==> Marked(keys[..j], k, nbits, p))
    {
      var h := keys[j];
      var delta := RotateLeft15(h);
      ghost var before := filter;
      for i := 0 to k
        invariant |filter| == nbytes && h == Probe(keys[j], i)
        invariant forall p :: 0 <= p < nbits ==>
          (GetBit(filter, p) <==> GetBit(before, p) || Hits(keys[j], i, nbits, p))
      {
        HitsNext(keys[j], i, nbits);
        filter := SetBit(filter, h % nbits);
        h := WrappingAdd(h, delta);
      }
      MarkedSnoc(keys[..j], keys[j], k, nbits);
      assert keys[..j + 1] == keys[..j] + [keys[j]];
    }
    assert keys[..|keys|] == keys;
    b := Bloom(filter, k);
  }

  method MayContain(b: Bloom, hash: u32) returns (r: bool)
    requires b.filter != []
    ensures r <==> MayContainSpec(b, hash)
  {
    hide IsBitSet, RotateLeft15, WrappingAdd;
    if b.k > 30 {
      return true;
    }
    var nbits := 8 * |b.filter|;
    var delta := RotateLeft15(hash);
    var h := hash;
    for i := 0 to b.k
      invariant h == Probe(hash, i)
      invariant forall x :: 0 <= x < i ==> GetBit(b.filter, Probe(hash, x) % nbits)
    {
      if !GetBit(b.filter, h % nbits) {
        return false;
      }
      h := WrappingAdd(h, delta);
    }
    return true;
  }

  /** No false negatives; a "no" means the hash was never inserted. */
  lemma NoFalseNegatives(b: Bloom, keys: seq<u32>, h: u32)
    requires IsFilterOf(b, keys) && h in keys
    ensures MayContainSpec(b, h)
  {
    var nbits := 8 * |b.filter|;
    var j :| 0 <= j < |keys| && keys[j] == h;
    forall i | 0 <= i < b.k ensures GetBit(b.filter, Probe(h, i) % nbits) {
      assert Hits(keys[j], b.k, nbits, Probe(h, i) % nbits);
      assert Marked(keys, b.k, nbits, Probe(h, i) % nbits);
    }
  }

  /**
   * A bit of the filter, counted from the lowest of its first byte, is set if and only if it is where one
   * of the first `k` steps from some hash, in its width and modulo the number of bits, ends.
   */
  lemma FilterBits(b: Bloom, keys: seq<u32>, p: nat)
    requires IsFilterOf(b, keys) && p < 8 * |b.filter|
    ensures IsBitSet(b.filter[p / 8], p % 8) <==>
            exists j, i :: 0 <= j < |keys| && 0 <= i < b.k && StepsOn(keys[j], i, 8 * |b.filter|) == p
  {
    hide IsBitSet, RotateLeft15;
    var nbits := 8 * |b.filter|;
    forall h: u32, i: nat ensures StepsOn(h, i, nbits) == Probe(h, i) % nbits {
      ProbeAt(h, i);
    }
    assert GetBit(b.filter, p) <==> Marked(keys, b.k, nbits, p);
    if j, i :| 0 <= j < |keys| && 0 <= i < b.k && StepsOn(keys[j], i, nbits) == p {
      assert Hits(keys[j], b.k, nbits, p);
    }
    if Marked(keys, b.k, nbits, p) {
      var j :| 0 <= j < |keys| && Hits(keys[j], b.k, nbits, p);
      var i :| 0 <= i < b.k && Probe(keys[j], i) % nbits == p;
      assert StepsOn(keys[j], i, nbits) == p;
    }
  }

  function StepsOn(h: u32, i: nat, nbits: nat): nat
    requires nbits > 0
  {
    (h + i * RotateLeft15(h)) % 0x1_0000_0000 % nbits
  }

  /** The answer to a hash is yes exactly when all its bits are set, or there are too many of them. */
  lemma AnswerBits(b: Bloom, h: u32)
    requires b.filter != []
    ensures var nbits := 8 * |b.filter|;
            MayContainSpec(b, h) <==>
            b.k > 30 || forall i: nat :: i < b.k ==>
              IsBitSet(b.filter[StepsOn(h, i, nbits) / 8], StepsOn(h, i, nbits) % 8)
  {
    hide IsBitSet, RotateLeft15;
    var nbits := 8 * |b.filter|;
    forall i: nat ensures StepsOn(h, i, nbits) == Probe(h, i) % nbits {
      ProbeAt(h, i);
    }
  }

  function Encode(crc: Bytes -> u32, b: Bloom): Bytes {
    b.filter + [b.k] + PutU32(crc(b.filter + [b.k]))
  }

  /** The source slices before checking, so a buffer shorter than five bytes is not decoded. */
  function Decode(crc: Bytes -> u32, buf: Bytes): Result<Bloom>
    requires 5 <= |buf|
  {
    var dataLen := |buf| - 4;
    if crc(buf[..dataLen]) != GetU32(buf[dataLen..]) then Err("bloom filter checksum mismatch")
    else Ok(Bloom(buf[..dataLen - 1], buf[dataLen - 1]))
  }

  /** A buffer that does not end with the checksum of all before it is not decoded. */
  lemma FilterChecked(crc: Bytes -> u32, buf: Bytes)
    requires 5 <= |buf|
    ensures Decode(crc, buf).Ok? <==> Big(buf[|buf| - 4..]) == crc(buf[..|buf| - 4])
  {
    GetIsBigEndian(buf[|buf| - 4..]);
    assert buf[|buf| - 4..][..4] == buf[|buf| - 4..];
  }

  /** Filter bytes, number of probes, and the checksum of both. */
  lemma EncodedFilter(crc: Bytes -> u32, b: Bloom)
    ensures var s, n := Encode(crc, b), |b.filter|;
            |s| == n + 5 && s[..n] == b.filter && s[n] == b.k && Big(s[n + 1..]) == crc(s[..n + 1])
  {
    var s, n := Encode(crc, b), |b.filter|;
    assert s[..n + 1] == b.filter + [b.k];
    PutIsBigEndian(0, crc(b.filter + [b.k]), 0);
    assert s[n + 1..] == PutU32(crc(b.filter + [b.k]));
  }

  lemma DecodeEncode(crc: Bytes -> u32, b: Bloom)
    ensures 5 <= |Encode(crc, b)| && Decode(crc, Encode(crc, b)) == Ok(b)
  {
    var payload := b.filter + [b.k];
    var buf := Encode(crc, b);
    GetPutU32(crc(payload), []);
    assert PutU32(crc(payload)) + [] == PutU32(crc(payload));
    assert buf[..|buf| - 4] == payload && buf[|buf| - 4..] == PutU32(crc(payload));
    assert buf[..|buf| - 5] == b.filter && buf[|buf| - 5] == b.k;
    assert crc(buf[..|buf| - 4]) == GetU32(buf[|buf| - 4..]);
  }
}
