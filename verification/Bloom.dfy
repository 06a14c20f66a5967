/** bloom.cc: filters that never deny a key they were built from. */
module Bloom {
  import opened Keys
  import opened Coding

  /** BloomHash, of which nothing is used but that it is a function. */
  type Hasher = Bytes -> uint32

  // ---------- bits of a number ----------

  /** b & (1 << i), from the lowest bit up. */
  predicate Bit(b: nat, i: nat)
    decreases i
  {
    if i == 0 then b % 2 == 1 else Bit(b / 2, i - 1)
  }

  /** b | (1 << i). */
  function WithBit(b: nat, i: nat): nat
    decreases i
  {
    if i == 0 then b / 2 * 2 + 1 else b % 2 + 2 * WithBit(b / 2, i - 1)
  }

  lemma {:induction false} WithBitSets(b: nat, i: nat, j: nat)
    ensures Bit(WithBit(b, i), j) <==> Bit(b, j) || i == j
    decreases i
  {
    if i > 0 && j > 0 { WithBitSets(b / 2, i - 1, j - 1); }
  }

  lemma {:induction false} WithBitFits(b: nat, i: nat, n: nat)
    requires i < n && b < Pow(2, n)
    ensures WithBit(b, i) < Pow(2, n)
    decreases n
  {
    assert Pow(2, n) == 2 * Pow(2, n - 1);
    if i > 0 { WithBitFits(b / 2, i - 1, n - 1); }
  }

  lemma EightBits()
    ensures Pow(2, 8) == 256
  {
    assert Pow(2, 1) == 2 && Pow(2, 2) == 4 && Pow(2, 3) == 8 && Pow(2, 4) == 16;
    assert Pow(2, 5) == 32 && Pow(2, 6) == 64 && Pow(2, 7) == 128;
  }

  lemma {:induction false} ZeroHasNoBits(i: nat)
    ensures !Bit(0, i)
  {
    if i > 0 { ZeroHasNoBits(i - 1); }
  }

  // ---------- bits of a filter ----------

  predicate BitAt(a: Bytes, pos: nat)
    requires pos < 8 * |a|
  {
    Bit(a[pos / 8] as nat, pos % 8)
  }

  function SetBit(a: Bytes, pos: nat): (r: Bytes)
    requires pos < 8 * |a|
    ensures |r| == |a|
  {
    EightBits();
    WithBitFits(a[pos / 8] as nat, pos % 8, 8);
    a[pos / 8 := WithBit(a[pos / 8] as nat, pos % 8) as byte]
  }

  lemma SetBitSets(a: Bytes, pos: nat, p: nat)
    requires pos < 8 * |a| && p < 8 * |a|
    ensures BitAt(SetBit(a, pos), p) <==> BitAt(a, p) || p == pos
  {
    WithBitSets(a[pos / 8] as nat, pos % 8, p % 8);
  }

  // ---------- probes ----------

  /** Rotate right 17 bits. */
  function Delta(h: uint32): uint32 { h / 0x2_0000 + h % 0x2_0000 * 0x8000 }

  /** The j-th value of h in the probing loop. */
  function Probe(h: uint32, delta: uint32, j: nat): uint32 {
    if j == 0 then h else (Probe(h, delta, j - 1) + delta) % TWO32
  }

  ghost predicate Probed(h: uint32, k: nat, bits: nat, p: nat)
    requires 0 < bits
  {
    exists j :: 0 <= j < k && p == Probe(h, Delta(h), j) % bits
  }

  ghost predicate ProbedByAny(hash: Hasher, keys: seq<Bytes>, k: nat, bits: nat, p: nat)
    requires 0 < bits
  {
    exists i :: 0 <= i < |keys| && Probed(hash(keys[i]), k, bits, p)
  }

  /** Number of bytes of a filter for n keys. */
  function FilterSize(n: nat, bitsPerKey: nat): (bytes: nat)
    ensures 8 <= bytes
  {
    var bits := if n * bitsPerKey < 64 then 64 else n * bitsPerKey;
    (bits + 7) / 8
  }

  /** Exactly the probed bits are set. */
  ghost predicate HoldsProbes(hash: Hasher, keys: seq<Bytes>, k: nat, bitmap: Bytes)
    requires 0 < |bitmap|
  {
    forall p :: 0 <= p < 8 * |bitmap| ==> (BitAt(bitmap, p) <==> ProbedByAny(hash, keys, k, 8 * |bitmap|, p))
  }

  /** A bitmap with the number of probes stored behind it. */
  ghost predicate IsFilter(hash: Hasher, keys: seq<Bytes>, k: nat, filter: Bytes) {
    9 <= |filter| && filter[|filter| - 1] as nat == k && HoldsProbes(hash, keys, k, filter[..|filter| - 1])
  }

  /** The inner loop of CreateFilter: set the bits of one key. */
  method AddKey(bitmap: Bytes, h0: uint32, k: nat) returns (r: Bytes)
    requires 0 < |bitmap|
    ensures |r| == |bitmap|
    ensures forall p :: 0 <= p < 8 * |r| ==> (BitAt(r, p) <==> BitAt(bitmap, p) || Probed(h0, k, 8 * |r|, p))
  {
    hide BitAt, SetBit, Probed, Delta;
    NoProbes(h0);
    r := bitmap;
    var h := h0;
    var delta := Delta(h0);
    for j := 0 to k
      invariant |r| == |bitmap| && h == Probe(h0, delta, j)
      invariant forall p :: 0 <= p < 8 * |r| ==> (BitAt(r, p) <==> BitAt(bitmap, p) || Probed(h0, j, 8 * |r|, p))
    {
      var bitpos := h % (8 * |r|);
      ghost var before := r;
      r := SetBit(r, bitpos);
      ProbeAdded(bitmap, before, h0, j);
      h := (h + delta) % TWO32;
    }
  }

  lemma NoProbes(h: uint32)
    ensures forall bits, p :: 0 < bits ==> !Probed(h, 0, bits, p)
  {
  }

  lemma ProbeAdded(start: Bytes, before: Bytes, h: uint32, j: nat)
    requires 0 < |start| == |before|
    requires forall p :: 0 <= p < 8 * |start| ==> (BitAt(before, p) <==> BitAt(start, p) || Probed(h, j, 8 * |start|, p))
    ensures forall p :: 0 <= p < 8 * |start| ==>
              (BitAt(SetBit(before, Probe(h, Delta(h), j) % (8 * |start|)), p) <==> BitAt(start, p) || Probed(h, j + 1, 8 * |start|, p))
  {
    hide BitAt, SetBit, Probed, Delta;
    var bits := 8 * |start|;
    var pos := Probe(h, Delta(h), j) % bits;
    forall p | 0 <= p < bits ensures BitAt(SetBit(before, pos), p) <==> BitAt(start, p) || Probed(h, j + 1, bits, p) {
      SetBitSets(before, pos, p);
      OneMoreProbe(h, j, bits, p);
    }
  }

  lemma OneMoreProbe(h: uint32, j: nat, bits: nat, p: nat)
    requires 0 < bits
    ensures Probed(h, j + 1, bits, p) <==> Probed(h, j, bits, p) || p == Probe(h, Delta(h), j) % bits
  {
  }

  lemma OneMoreKey(hash: Hasher, keys: seq<Bytes>, i: nat, k: nat, bits: nat, p: nat)
    requires 0 < bits && i < |keys|
    ensures ProbedByAny(hash, keys[..i + 1], k, bits, p) <==> ProbedByAny(hash, keys[..i], k, bits, p) || Probed(hash(keys[i]), k, bits, p)
  {
    hide Probed;
    assert forall x :: 0 <= x < i ==> keys[..i + 1][x] == keys[..i][x];
    assert keys[..i + 1][i] == keys[i];
    if ProbedByAny(hash, keys[..i], k, bits, p) {
      var x :| 0 <= x < i && Probed(hash(keys[..i][x]), k, bits, p);
      assert Probed(hash(keys[..i + 1][x]), k, bits, p);
    }
  }

  method CreateFilter(hash: Hasher, bitsPerKey: nat, k: nat, keys: seq<Bytes>) returns (filter: Bytes)
    requires 1 <= k <= 30
    ensures IsFilter(hash, keys, k, filter)
  {
    var bytes := FilterSize(|keys|, bitsPerKey);
    var bitmap: Bytes := seq(bytes, _ => 0);
    NoBits(bitmap);
    hide BitAt, Probed;
    for i := 0 to |keys|
      invariant |bitmap| == bytes
      invariant forall p :: 0 <= p < 8 * bytes ==> (BitAt(bitmap, p) <==> ProbedByAny(hash, keys[..i], k, 8 * bytes, p))
    {
      ghost var before := bitmap;
      bitmap := AddKey(bitmap, hash(keys[i]), k);
      forall p | 0 <= p < 8 * bytes ensures BitAt(bitmap, p) <==> ProbedByAny(hash, keys[..i + 1], k, 8 * bytes, p) {
        OneMoreKey(hash, keys, i, k, 8 * bytes, p);
      }
    }
    assert keys[..|keys|] == keys;
    filter := bitmap + [k as byte];
    assert filter[..|filter| - 1] == bitmap;
  }

  lemma NoBits(a: Bytes)
    requires forall i :: 0 <= i < |a| ==> a[i] == 0
    ensures forall p :: 0 <= p < 8 * |a| ==> !BitAt(a, p)
  {
    forall p | 0 <= p < 8 * |a| ensures !BitAt(a, p) {
      assert a[p / 8] == 0;
      ZeroHasNoBits(p % 8);
    }
  }

  /** What KeyMayMatch computes on any filter bytes. */
  ghost predicate Matches(hash: Hasher, key: Bytes, filter: Bytes) {
    && 2 <= |filter|
    && var k, bits := filter[|filter| - 1] as nat, 8 * (|filter| - 1);
       k > 30 || forall j :: 0 <= j < k ==> BitAt(filter[..|filter| - 1], Probe(hash(key), Delta(hash(key)), j) % bits)
  }

  method KeyMayMatch(hash: Hasher, key: Bytes, filter: Bytes) returns (r: bool)
    ensures r <==> Matches(hash, key, filter)
  {
    hide BitAt, Delta;
    var len := |filter|;
    if len < 2 { return false; }
    var bitmap, bits := filter[..len - 1], 8 * (len - 1);
    var k := filter[len - 1] as nat;
    if k > 30 { return true; }
    var h := hash(key);
    var delta := Delta(h);
    for j := 0 to k
      invariant h == Probe(hash(key), delta, j)
      invariant forall i :: 0 <= i < j ==> BitAt(bitmap, Probe(hash(key), delta, i) % bits)
    {
      if !BitAt(bitmap, h % bits) { return false; }
      h := (h + delta) % TWO32;
    }
    return true;
  }

  /** No false negatives: a key that the filter was built from always matches. */
  lemma NoFalseNegatives(hash: Hasher, keys: seq<Bytes>, k: nat, filter: Bytes, key: Bytes)
    requires IsFilter(hash, keys, k, filter) && key in keys
    ensures Matches(hash, key, filter)
  {
    hide BitAt;
    var bits, h := 8 * (|filter| - 1), hash(key);
    var i :| 0 <= i < |keys| && keys[i] == key;
    forall j | 0 <= j < k ensures BitAt(filter[..|filter| - 1], Probe(h, Delta(h), j) % bits) {
      var p := Probe(h, Delta(h), j) % bits;
      assert Probed(h, k, bits, p);
      assert ProbedByAny(hash, keys, k, bits, p);
    }
  }
}
