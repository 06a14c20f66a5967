/** coding.cc and crc32c.h: fixed-width and variable-length integers, length-prefixed slices, masked checksums. */
module Coding {
  import opened Keys

  const TWO32: int := 0x1_0000_0000
  const TWO64: int := 0x1_0000_0000_0000_0000

  type uint32 = x: int | 0 <= x < 0x1_0000_0000

  function Pow(base: nat, n: nat): (p: nat)
    ensures 0 < base ==> 0 < p
  {
    if n == 0 then 1 else
      assert 0 < base ==> 0 < base * Pow(base, n - 1);
      base * Pow(base, n - 1)
  }

  // ---------- fixed width, little endian ----------

  function Fixed(n: nat, v: nat): (s: Bytes)
    ensures |s| == n
  {
    if n == 0 then [] else [(v % 256) as byte] + Fixed(n - 1, v / 256)
  }

  function DecodeFixed(s: Bytes): nat {
    if s == [] then 0 else s[0] as nat + 256 * DecodeFixed(s[1..])
  }

  lemma {:induction false} FixedRoundTrip(n: nat, v: nat)
    requires v < Pow(256, n)
    ensures DecodeFixed(Fixed(n, v)) == v
  {
    if n > 0 {
      DivBelow(v, 256, Pow(256, n - 1));
      FixedRoundTrip(n - 1, v / 256);
      assert Fixed(n, v)[1..] == Fixed(n - 1, v / 256);
    }
  }

  lemma {:induction false} FixedOfDecoded(s: Bytes)
    ensures DecodeFixed(s) < Pow(256, |s|) && Fixed(|s|, DecodeFixed(s)) == s
  {
    if s != [] {
      FixedOfDecoded(s[1..]);
      assert s == [s[0]] + s[1..];
    }
  }

  lemma DivBelow(v: nat, d: nat, m: nat)
    requires 0 < d && v < d * m
    ensures v / d < m
  {
    var q := v / d;
    assert d * q <= v;
    assert q >= m ==> d * q >= d * m;
  }

  lemma Powers()
    ensures Pow(256, 4) == TWO32 && Pow(256, 8) == TWO64 && Pow(128, 5) == 8 * TWO32 && Pow(128, 10) == 64 * TWO64
  {
    assert Pow(256, 1) == 256 && Pow(256, 2) == 65536 && Pow(256, 3) == 16777216;
    assert Pow(256, 4) == TWO32 && Pow(256, 5) == 256 * TWO32 && Pow(256, 6) == 65536 * TWO32 && Pow(256, 7) == 16777216 * TWO32;
    assert Pow(128, 1) == 128 && Pow(128, 2) == 16384 && Pow(128, 3) == 2097152 && Pow(128, 4) == 268435456;
    assert Pow(128, 5) == 8 * TWO32 && Pow(128, 6) == 1024 * TWO32 && Pow(128, 7) == 131072 * TWO32;
    assert Pow(128, 8) == 16777216 * TWO32 && Pow(128, 9) == 2147483648 * TWO32;
  }

  lemma Fixed32RoundTrip(v: nat)
    requires v < TWO32
    ensures DecodeFixed(Fixed(4, v)) == v
  {
    Powers();
    FixedRoundTrip(4, v);
  }

  lemma Fixed64RoundTrip(v: nat)
    requires v < TWO64
    ensures DecodeFixed(Fixed(8, v)) == v
  {
    Powers();
    FixedRoundTrip(8, v);
  }

  // ---------- variable length ----------

  function Varint(v: nat): (s: Bytes)
    ensures s != []
  {
    if v < 128 then [v as byte] else [(v % 128 + 128) as byte] + Varint(v / 128)
  }

  /** EncodeVarint64, and PutVarint64 onto dst. */
  method PutVarint64(dst: Bytes, v: nat) returns (r: Bytes)
    ensures r == dst + Varint(v)
  {
    r := dst;
    var x := v;
    while x >= 128
      invariant r + Varint(x) == dst + Varint(v)
    {
      var first: byte := (x % 128 + 128) as byte;
      assert r + Varint(x) == r + [first] + Varint(x / 128);
      r := r + [first];
      x := x / 128;
    }
    r := r + [x as byte];
  }

  /** EncodeVarint32 writes out the five cases; they are the same bytes. */
  method PutVarint32(dst: Bytes, v: uint32) returns (r: Bytes)
    ensures r == dst + Varint(v)
  {
    var B := 128;
    if v < 0x80 {
      r := dst + [v as byte];
    } else if v < 0x4000 {
      r := dst + [(v % B + B) as byte, (v / 0x80) as byte];
    } else if v < 0x20_0000 {
      r := dst + [(v % B + B) as byte, (v / 0x80 % B + B) as byte, (v / 0x4000) as byte];
    } else if v < 0x1000_0000 {
      r := dst + [(v % B + B) as byte, (v / 0x80 % B + B) as byte, (v / 0x4000 % B + B) as byte, (v / 0x20_0000) as byte];
    } else {
      r := dst + [(v % B + B) as byte, (v / 0x80 % B + B) as byte, (v / 0x4000 % B + B) as byte,
                  (v / 0x20_0000 % B + B) as byte, (v / 0x1000_0000) as byte];
    }
    Unrolled(v);
  }

  lemma Unrolled(v: nat)
    requires v < TWO32
    ensures v >= 0x80 ==> Varint(v) == [(v % 128 + 128) as byte] + Varint(v / 0x80)
    ensures v >= 0x4000 ==> Varint(v / 0x80) == [(v / 0x80 % 128 + 128) as byte] + Varint(v / 0x4000)
    ensures v >= 0x20_0000 ==> Varint(v / 0x4000) == [(v / 0x4000 % 128 + 128) as byte] + Varint(v / 0x20_0000)
    ensures v >= 0x1000_0000 ==> Varint(v / 0x20_0000) == [(v / 0x20_0000 % 128 + 128) as byte] + Varint(v / 0x1000_0000)
  {
    assert v / 0x80 / 128 == v / 0x4000;
    assert v / 0x4000 / 128 == v / 0x20_0000;
    assert v / 0x20_0000 / 128 == v / 0x1000_0000;
  }

  /** VarintLength. */
  method VarintLength(v: nat) returns (len: nat)
    ensures len == |Varint(v)|
  {
    len := 1;
    var x := v;
    while x >= 128
      invariant len - 1 + |Varint(x)| == |Varint(v)|
    {
      x := x / 128;
      len := len + 1;
    }
  }

  /** The first varint of s in at most n bytes, as an unbounded number, and what follows it. */
  function DecodeVarint(s: Bytes, n: nat): (r: Option<(nat, Bytes)>)
    ensures r.Some? ==> |r.value.1| < |s| && r.value.1 == s[|s| - |r.value.1|..]
  {
    if n == 0 || s == [] then None
    else if s[0] < 128 then Some((s[0] as nat, s[1..]))
    else
      match DecodeVarint(s[1..], n - 1)
      case None => None
      case Some((v, rest)) => Some((s[0] as nat - 128 + 128 * v, rest))
  }

  /** Value and rest after truncation to the width of the result: 64 or 32 bits. */
  function Truncated(r: Option<(nat, Bytes)>, wide: bool): Option<(nat, Bytes)> {
    match r case None => None case Some((v, rest)) => Some((Low(v, wide), rest))
  }

  function Low(v: nat, wide: bool): nat { if wide then v % TWO64 else v % TWO32 }

  function GetVarint32(s: Bytes): Option<(nat, Bytes)> { Truncated(DecodeVarint(s, 5), false) }

  function GetVarint64(s: Bytes): Option<(nat, Bytes)> { Truncated(DecodeVarint(s, 10), true) }

  lemma {:induction false} DecodeOfVarint(v: nat, n: nat, rest: Bytes)
    requires 0 < n && v < Pow(128, n)
    ensures DecodeVarint(Varint(v) + rest, n) == Some((v, rest))
  {
    var s := Varint(v) + rest;
    assert Pow(128, 1) == 128;
    if v < 128 {
      assert s[1..] == rest;
    } else {
      DivBelow(v, 128, Pow(128, n - 1));
      DecodeOfVarint(v / 128, n - 1, rest);
      assert s[1..] == Varint(v / 128) + rest;
    }
  }

  lemma Varint32RoundTrip(v: nat, rest: Bytes)
    requires v < TWO32
    ensures GetVarint32(Varint(v) + rest) == Some((v, rest))
  {
    Powers();
    hide Pow;
    DecodeOfVarint(v, 5, rest);
  }

  lemma Varint64RoundTrip(v: nat, rest: Bytes)
    requires v < TWO64
    ensures GetVarint64(Varint(v) + rest) == Some((v, rest))
  {
    Powers();
    hide Pow;
    DecodeOfVarint(v, 10, rest);
  }

  /** The decoding loop shared by GetVarint32PtrFallback and GetVarint64Ptr: at most n bytes, truncated at every step. */
  method DecodeVarintLoop(s: Bytes, n: nat, wide: bool) returns (r: Option<(nat, Bytes)>)
    ensures r == Truncated(DecodeVarint(s, n), wide)
  {
    hide Low;
    var i: nat, scale: nat, result: nat := 0, 1, Low(0, wide);
    ghost var sum: nat := 0;
    while i < n && i < |s|
      invariant i <= n && i <= |s|
      invariant result == Low(sum, wide)
      invariant DecodeVarint(s, n) == Shifted(sum, scale, DecodeVarint(s[i..], n - i))
    {
      var b := s[i] as nat;
      var x := (b % 128) * scale;
      LowAdd(sum, x, wide);
      DecodeStep(s, i, n, sum, scale);
      result := Low(result + x, wide);
      sum := sum + x;
      if b < 128 { return Some((result, s[i + 1..])); }
      scale := scale * 128;
      i := i + 1;
    }
    return None;
  }

  lemma DecodeStep(s: Bytes, i: nat, n: nat, sum: nat, scale: nat)
    requires i < n && i < |s|
    ensures var b := s[i] as nat;
            Shifted(sum, scale, DecodeVarint(s[i..], n - i))
            == if b < 128 then Some((sum + (b % 128) * scale, s[i + 1..]))
               else Shifted(sum + (b % 128) * scale, scale * 128, DecodeVarint(s[i + 1..], n - (i + 1)))
  {
    assert s[i..][1..] == s[i + 1..];
    if s[i] >= 128 {
      ShiftMore(sum, scale, s[i] as nat - 128, DecodeVarint(s[i + 1..], n - (i + 1)));
    }
  }

  lemma LowAdd(a: nat, x: nat, wide: bool)
    ensures Low(Low(a, wide) + x, wide) == Low(a + x, wide)
  {
  }

  function Shifted(sum: nat, scale: nat, r: Option<(nat, Bytes)>): Option<(nat, Bytes)> {
    match r case None => None case Some((v, rest)) => Some((sum + v * scale, rest))
  }

  lemma ShiftMore(sum: nat, scale: nat, b: nat, r: Option<(nat, Bytes)>)
    ensures Shifted(sum, scale, match r case None => None case Some((v, rest)) => Some((b + 128 * v, rest)))
            == Shifted(sum + b * scale, scale * 128, r)
  {
    if r.Some? {
      var v := r.value.0;
      assert (b + 128 * v) * scale == b * scale + v * (scale * 128);
    }
  }

  // ---------- slices ----------

  function Slice(s: Bytes): Bytes { Varint(|s|) + s }

  function GetSlice(s: Bytes): (r: Option<(Bytes, Bytes)>)
    ensures r.Some? ==> |r.value.1| < |s|
  {
    match GetVarint32(s)
    case None => None
    case Some((len, rest)) => if len <= |rest| then Some((rest[..len], rest[len..])) else None
  }

  lemma SliceRoundTrip(s: Bytes, rest: Bytes)
    requires |s| < TWO32
    ensures GetSlice(Slice(s) + rest) == Some((s, rest))
  {
    assert Slice(s) + rest == Varint(|s|) + (s + rest);
    Varint32RoundTrip(|s|, s + rest);
  }

  // ---------- masked checksums ----------

  const MASK_DELTA: int := 0xa282ead8

  function Mask(crc: uint32): uint32 { (crc / 0x8000 + crc % 0x8000 * 0x2_0000 + MASK_DELTA) % TWO32 }

  function Unmask(masked: uint32): uint32 {
    var rot := (masked - MASK_DELTA) % TWO32;
    rot / 0x2_0000 + rot % 0x2_0000 * 0x8000
  }

  lemma UnmaskOfMask(crc: uint32)
    ensures Unmask(Mask(crc)) == crc
  {
    var hi, lo := crc / 0x8000, crc % 0x8000;
    var rot := hi + lo * 0x2_0000;
    AddThenSubtract(rot);
    assert rot / 0x2_0000 == lo && rot % 0x2_0000 == hi;
  }

  lemma AddThenSubtract(x: uint32)
    ensures ((x + MASK_DELTA) % TWO32 - MASK_DELTA) % TWO32 == x
  {
    assert (x + MASK_DELTA) % TWO32 == if x + MASK_DELTA < TWO32 then x + MASK_DELTA else x + MASK_DELTA - TWO32;
  }
}
