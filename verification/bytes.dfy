/** Byte strings: lexicographic order, and the big-endian integers written by the file formats. */
module Bytes {
  type byte = x: int | 0 <= x < 0x100
  type u16 = x: int | 0 <= x < 0x1_0000
  type u32 = x: int | 0 <= x < 0x1_0000_0000
  type u64 = x: int | 0 <= x < 0x1_0000_0000_0000_0000

  type Bytes = seq<byte>

  /** The order of `&[u8]`: first differing byte decides, a proper prefix is smaller. */
  predicate Less(a: Bytes, b: Bytes) {
    b != [] && (a == [] || a[0] < b[0] || (a[0] == b[0] && Less(a[1..], b[1..])))
  }

  lemma {:induction false} LessTrichotomy(a: Bytes, b: Bytes)
    ensures !Less(a, a)
    ensures Less(a, b) || a == b || Less(b, a)
    decreases |a|
  {
    if a == [] {
    } else if b == [] {
      LessTrichotomy(a[1..], []);
    } else {
      LessTrichotomy(a[1..], b[1..]);
      assert a == [a[0]] + a[1..] && b == [b[0]] + b[1..];
    }
  }

  lemma {:induction false} LessTransitive(a: Bytes, b: Bytes, c: Bytes)
    requires Less(a, b) && Less(b, c)
    ensures Less(a, c)
  {
    if a != [] && a[0] == b[0] == c[0] {
      LessTransitive(a[1..], b[1..], c[1..]);
    }
  }

  /** The first position at which the strings differ, or at which the first one ends, decides. */
  lemma {:induction false} LessIff(a: Bytes, b: Bytes)
    ensures Less(a, b) <==>
            exists n: nat ::
              && n <= |a| && n < |b| && a[..n] == b[..n]
              && (n == |a| || a[n] < b[n])
    decreases |a|
  {
    if a != [] && b != [] {
      forall n: nat | 0 < n <= |a| && n <= |b| && a[..n] == b[..n] ensures a[0] == b[0] {
        assert a[..n][0] == a[0] && b[..n][0] == b[0];
      }
      if a[0] == b[0] {
        LessIff(a[1..], b[1..]);
        SameHead(a, b);
      } else {
        assert a[..0] == b[..0];
      }
    } else if b != [] {
      assert a[..0] == b[..0];
    }
  }

  lemma SameHead(a: Bytes, b: Bytes)
    requires a != [] && b != [] && a[0] == b[0]
    ensures (exists n: nat :: n <= |a| && n < |b| && a[..n] == b[..n] && (n == |a| || a[n] < b[n])) <==>
            var a', b' := a[1..], b[1..];
            exists n: nat :: n <= |a'| && n < |b'| && a'[..n] == b'[..n] && (n == |a'| || a'[n] < b'[n])
  {
    var a', b' := a[1..], b[1..];
    if n: nat :| n <= |a'| && n < |b'| && a'[..n] == b'[..n] && (n == |a'| || a'[n] < b'[n]) {
      assert a[..n + 1] == [a[0]] + a'[..n] && b[..n + 1] == [b[0]] + b'[..n];
    }
    if n: nat :| n <= |a| && n < |b| && a[..n] == b[..n] && (n == |a| || a[n] < b[n]) {
      assert n > 0 ==> a'[..n - 1] == a[..n][1..] && b'[..n - 1] == b[..n][1..];
    }
  }

  /** `x as u16` and `x as u32`: the low bits only. */
  function AsU16(x: nat): (r: u16)
    ensures (x - r) % 0x1_0000 == 0
  {
    x % 0x1_0000
  }

  function AsU32(x: nat): (r: u32)
    ensures (x - r) % 0x1_0000_0000 == 0
  {
    x % 0x1_0000_0000
  }

  function PutU16(x: u16): Bytes { [x / 0x100, x % 0x100] }

  function PutU32(x: u32): Bytes { PutU16(x / 0x1_0000) + PutU16(x % 0x1_0000) }

  function PutU64(x: u64): Bytes { PutU32(x / 0x1_0000_0000) + PutU32(x % 0x1_0000_0000) }

  function GetU16(s: Bytes): u16
    requires 2 <= |s|
  {
    s[0] as int * 0x100 + s[1] as int
  }

  function GetU32(s: Bytes): u32
    requires 4 <= |s|
  {
    GetU16(s) as int * 0x1_0000 + GetU16(s[2..]) as int
  }

  function GetU64(s: Bytes): u64
    requires 8 <= |s|
  {
    GetU32(s) as int * 0x1_0000_0000 + GetU32(s[4..]) as int
  }

  /** The number that the bytes are in base 256, the most significant byte first. */
  function Big(s: Bytes): (n: nat)
    ensures |s| == 1 ==> n == s[0]
    ensures |s| == 2 ==> n == 0x100 * s[0] as int + s[1] as int
  {
    if s == [] then 0 else 0x100 * Big(s[..|s| - 1]) + s[|s| - 1] as int
  }

  lemma BigTwoMore(s: Bytes, t: Bytes)
    requires |t| == 2
    ensures Big(s + t) == 0x1_0000 * Big(s) + Big(t)
  {
    var st := s + t;
    assert st[..|st| - 1] == s + [t[0]] && (s + [t[0]])[..|s|] == s;
    assert Big(s + [t[0]]) == 0x100 * Big(s) + t[0] as int;
  }

  lemma BigFourMore(s: Bytes, t: Bytes)
    requires |t| == 4
    ensures Big(s + t) == 0x1_0000_0000 * Big(s) + Big(t)
  {
    assert s + t == (s + t[..2]) + t[2..] && t == t[..2] + t[2..];
    BigTwoMore(s + t[..2], t[2..]);
    BigTwoMore(s, t[..2]);
    BigTwoMore(t[..2], t[2..]);
  }

  /** The formats are big-endian. */
  lemma PutIsBigEndian(x: u16, y: u32, z: u64)
    ensures |PutU16(x)| == 2 && Big(PutU16(x)) == x
    ensures |PutU32(y)| == 4 && Big(PutU32(y)) == y
    ensures |PutU64(z)| == 8 && Big(PutU64(z)) == z
  {
    BigTwoMore(PutU16(y / 0x1_0000), PutU16(y % 0x1_0000));
    var hi, lo := z / 0x1_0000_0000, z % 0x1_0000_0000;
    BigTwoMore(PutU16(hi / 0x1_0000), PutU16(hi % 0x1_0000));
    BigTwoMore(PutU16(lo / 0x1_0000), PutU16(lo % 0x1_0000));
    BigFourMore(PutU32(hi), PutU32(lo));
  }

  lemma GetIsBigEndian(s: Bytes)
    ensures 2 <= |s| ==> GetU16(s) == Big(s[..2])
    ensures 4 <= |s| ==> GetU32(s) == Big(s[..4])
    ensures 8 <= |s| ==> GetU64(s) == Big(s[..8])
  {
    if 4 <= |s| {
      assert s[..4] == s[..2] + s[2..4];
      BigTwoMore(s[..2], s[2..4]);
    }
    if 8 <= |s| {
      assert s[..8] == s[..4] + s[4..8] && s[4..8] == s[4..6] + s[6..8];
      BigTwoMore(s[4..6], s[6..8]);
      BigFourMore(s[..4], s[4..8]);
    }
  }

  /** What was put in front of a buffer is what a reader gets from it. */
  lemma GetPutU16(x: u16, rest: Bytes)
    ensures GetU16(PutU16(x) + rest) == x && (PutU16(x) + rest)[2..] == rest
  {
  }

  lemma GetPutU32(x: u32, rest: Bytes)
    ensures |PutU32(x)| == 4 && GetU32(PutU32(x) + rest) == x && (PutU32(x) + rest)[4..] == rest
  {
    var s := PutU32(x) + rest;
    assert s[2..] == PutU16(x % 0x1_0000) + rest;
  }

  lemma GetPutU64(x: u64, rest: Bytes)
    ensures |PutU64(x)| == 8 && GetU64(PutU64(x) + rest) == x && (PutU64(x) + rest)[8..] == rest
  {
    var hi, lo := x / 0x1_0000_0000, x % 0x1_0000_0000;
    var s := PutU64(x) + rest;
    assert s == PutU32(hi) + (PutU32(lo) + rest);
    GetPutU32(hi, PutU32(lo) + rest);
    GetPutU32(lo, rest);
    assert s[4..] == PutU32(lo) + rest;
  }

  lemma DropDrop(s: Bytes, i: nat, j: nat)
    requires i + j <= |s|
    ensures s[i..][j..] == s[i + j..]
  {
  }

  lemma SliceOfDrop(s: Bytes, i: nat, lo: nat, hi: nat)
    requires lo <= hi && i + hi <= |s|
    ensures s[i..][lo..hi] == s[i + lo..i + hi]
  {
  }
}
