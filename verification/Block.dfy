/** block_builder.cc and block.cc: prefix-compressed entries with restart points. */
module Block {
  import opened Keys
  import opened Coding

  datatype KV = KV(key: Bytes, value: Bytes)

  // ---------- entries ----------

  /** shared, non_shared, value_size, key delta, value. */
  function EntryBytes(shared: nat, delta: Bytes, value: Bytes): (s: Bytes)
    ensures |s| >= 3 + |delta| + |value|
  {
    Varint(shared) + Varint(|delta|) + Varint(|value|) + delta + value
  }

  datatype Header = Header(shared: nat, nonShared: nat, valueLength: nat, rest: Bytes)

  /** DecodeEntry on the bytes from p to limit: the three numbers and what follows them. */
  function DecodeEntry(s: Bytes): (r: Option<Header>)
    ensures r.Some? ==> r.value.nonShared + r.value.valueLength <= |r.value.rest| <= |s|
    ensures r.Some? ==> r.value.rest == s[|s| - |r.value.rest|..]
  {
    if |s| < 3 then None
    else
      var h := if s[0] < 128 && s[1] < 128 && s[2] < 128 then Some(Header(s[0] as nat, s[1] as nat, s[2] as nat, s[3..]))
               else DecodeSlowly(s);
      if h.None? || |h.value.rest| < h.value.nonShared + h.value.valueLength then None else h
  }

  function DecodeSlowly(s: Bytes): (r: Option<Header>)
    ensures r.Some? ==> |r.value.rest| <= |s| && r.value.rest == s[|s| - |r.value.rest|..]
  {
    match GetVarint32(s)
    case None => None
    case Some((a, s1)) =>
      match GetVarint32(s1)
      case None => None
      case Some((b, s2)) =>
        match GetVarint32(s2)
        case None => None
        case Some((c, s3)) => Some(Header(a, b, c, s3))
  }

  lemma SlowRoundTrip(a: nat, b: nat, c: nat, rest: Bytes)
    requires a < TWO32 && b < TWO32 && c < TWO32
    ensures DecodeSlowly(Varint(a) + (Varint(b) + (Varint(c) + rest))) == Some(Header(a, b, c, rest))
  {
    hide GetVarint32, Varint;
    Varint32RoundTrip(a, Varint(b) + (Varint(c) + rest));
    Varint32RoundTrip(b, Varint(c) + rest);
    Varint32RoundTrip(c, rest);
  }

  /** A first byte below 128 is a whole varint. */
  lemma OneByte(v: nat, s: Bytes)
    ensures (Varint(v) + s)[0] < 128 <==> v < 128
    ensures v < 128 ==> Varint(v) == [v as byte]
  {
  }

  /** On encoded numbers the fast path and the slow path agree. */
  lemma FastIsSlow(a: nat, b: nat, c: nat, rest: Bytes)
    requires a < TWO32 && b < TWO32 && c < TWO32
    ensures var s := Varint(a) + (Varint(b) + (Varint(c) + rest));
            |s| >= 3 && (s[0] < 128 && s[1] < 128 && s[2] < 128 ==>
              Header(s[0] as nat, s[1] as nat, s[2] as nat, s[3..]) == Header(a, b, c, rest))
  {
    var s := Varint(a) + (Varint(b) + (Varint(c) + rest));
    OneByte(a, Varint(b) + (Varint(c) + rest));
    OneByte(b, Varint(c) + rest);
    OneByte(c, rest);
    hide Varint;
    if s[0] < 128 && s[1] < 128 && s[2] < 128 {
      assert a < 128;
      assert s[1..] == Varint(b) + (Varint(c) + rest);
      assert b < 128;
      assert s[2..] == Varint(c) + rest;
      assert c < 128;
      assert s[3..] == rest;
    }
  }

  lemma DecodeOfEntry(shared: nat, delta: Bytes, value: Bytes, tail: Bytes)
    requires shared < TWO32 && |delta| < TWO32 && |value| < TWO32
    ensures DecodeEntry(EntryBytes(shared, delta, value) + tail)
            == Some(Header(shared, |delta|, |value|, delta + value + tail))
  {
    var rest := delta + value + tail;
    var s := Varint(shared) + (Varint(|delta|) + (Varint(|value|) + rest));
    SlowRoundTrip(shared, |delta|, |value|, rest);
    FastIsSlow(shared, |delta|, |value|, rest);
    hide Varint, DecodeSlowly;
    Regroup(Varint(shared), Varint(|delta|), Varint(|value|), delta, value, tail);
  }

  lemma Regroup(a: Bytes, b: Bytes, c: Bytes, d: Bytes, e: Bytes, t: Bytes)
    ensures a + b + c + d + e + t == a + (b + (c + (d + e + t)))
  {
    assert a + b + c + d + e + t == (a + b) + (c + (d + e + t));
    assert (a + b) + (c + (d + e + t)) == a + (b + (c + (d + e + t)));
  }

  // ---------- layout ----------

  /** Where each entry starts, how much of its key it shares, and which entries are restart points. */
  datatype Layout = Layout(offs: seq<nat>, shared: seq<nat>, marks: seq<nat>)

  ghost predicate EntryAt(data: Bytes, es: seq<KV>, l: Layout, i: nat)
    requires i < |es| && |l.offs| == |es| + 1 && |l.shared| == |es|
  {
    var k := es[i].key;
    && l.shared[i] <= |k| && l.offs[i] < l.offs[i + 1] <= |data|
    && data[l.offs[i]..l.offs[i + 1]] == EntryBytes(l.shared[i], k[l.shared[i]..], es[i].value)
    && (if i == 0 then l.shared[i] == 0
        else l.shared[i] <= |es[i - 1].key| && es[i - 1].key[..l.shared[i]] == k[..l.shared[i]])
  }

  ghost predicate Marked(n: nat, l: Layout)
    requires |l.shared| == n
  {
    && 1 <= |l.marks| && l.marks[0] == 0
    && (forall i, j :: 0 <= i < j < |l.marks| ==> l.marks[i] < l.marks[j])
    && (forall r :: 0 <= r < |l.marks| && 0 < n ==> l.marks[r] < n && l.shared[l.marks[r]] == 0)
    && (n == 0 ==> |l.marks| == 1)
  }

  /** data is the encoding of the entries, laid out as l says. */
  ghost predicate Encodes(data: Bytes, es: seq<KV>, l: Layout) {
    && |l.offs| == |es| + 1 && |l.shared| == |es| && l.offs[0] == 0 && l.offs[|es|] == |data|
    && (forall i, j :: 0 <= i < j <= |es| ==> l.offs[i] < l.offs[j])
    && (forall i :: 0 <= i < |es| ==> EntryAt(data, es, l, i))
    && Marked(|es|, l)
  }

  ghost predicate Small(es: seq<KV>) { forall i :: 0 <= i < |es| ==> |es[i].key| < TWO32 && |es[i].value| < TWO32 }

  /** The offsets of the restart points. */
  ghost function RestartsOf(l: Layout): (rs: seq<nat>)
    requires forall r :: 0 <= r < |l.marks| ==> l.marks[r] < |l.offs|
    ensures |rs| == |l.marks| && forall r :: 0 <= r < |rs| ==> rs[r] == l.offs[l.marks[r]]
  {
    seq(|l.marks|, r requires 0 <= r < |l.marks| => l.offs[l.marks[r]])
  }

  /** One more entry, at a restart point or not. */
  ghost function Extended(l: Layout, data: Bytes, e: KV, shared: nat, restart: bool): Layout
    requires shared <= |e.key| && |l.offs| > 0
  {
    Layout(l.offs + [|data| + |EntryBytes(shared, e.key[shared..], e.value)|], l.shared + [shared],
           if restart then l.marks + [|l.offs| - 1] else l.marks)
  }

  lemma ExtendedEncodes(data: Bytes, es: seq<KV>, l: Layout, e: KV, shared: nat, restart: bool)
    requires Encodes(data, es, l) && shared <= |e.key| && (restart ==> shared == 0 && es != [])
    requires if es == [] then shared == 0
             else shared <= |es[|es| - 1].key| && es[|es| - 1].key[..shared] == e.key[..shared]
    ensures Encodes(data + EntryBytes(shared, e.key[shared..], e.value), es + [e], Extended(l, data, e, shared, restart))
  {
    var bytes := EntryBytes(shared, e.key[shared..], e.value);
    var data', es', l' := data + bytes, es + [e], Extended(l, data, e, shared, restart);
    hide EntryBytes;
    forall i | 0 <= i < |es'| ensures EntryAt(data', es', l', i) {
      if i < |es| {
        assert EntryAt(data, es, l, i);
        assert data'[l.offs[i]..l.offs[i + 1]] == data[l.offs[i]..l.offs[i + 1]];
      } else {
        assert data'[|data|..] == bytes;
      }
    }
  }

  lemma ExtendedRestarts(data: Bytes, es: seq<KV>, l: Layout, e: KV, shared: nat, restart: bool)
    requires Encodes(data, es, l) && shared <= |e.key| && (restart ==> es != [])
    requires forall r :: 0 <= r < |l.marks| ==> l.marks[r] < |l.offs|
    ensures var l' := Extended(l, data, e, shared, restart);
            (forall r :: 0 <= r < |l'.marks| ==> l'.marks[r] < |l'.offs|)
            && RestartsOf(l') == RestartsOf(l) + (if restart then [|data|] else [])
            && l'.marks[|l'.marks| - 1] < |es| + 1
  {
    hide EntryBytes, EntryAt;
  }

  lemma LayoutSize(data: Bytes, es: seq<KV>, l: Layout)
    requires Encodes(data, es, l)
    ensures |l.offs| == |es| + 1
  {
  }

  lemma Rejoin(a: Bytes, b: Bytes, k: nat)
    requires k <= |a| && k <= |b| && a[..k] == b[..k]
    ensures a[..k] + b[k..] == b
  {
  }

  // ---------- the builder ----------

  function FixedList(rs: seq<nat>): Bytes {
    if rs == [] then [] else FixedList(rs[..|rs| - 1]) + Fixed(4, rs[|rs| - 1])
  }

  lemma NoFixed()
    ensures FixedList([]) == []
  {
  }

  lemma OneMoreFixed(rs: seq<nat>, i: nat)
    requires i < |rs|
    ensures FixedList(rs[..i + 1]) == FixedList(rs[..i]) + Fixed(4, rs[i])
  {
    assert rs[..i + 1][..i] == rs[..i];
  }

  /** A finished block: data, restart array, number of restarts. */
  ghost predicate IsBlock(block: Bytes, data: Bytes, es: seq<KV>, l: Layout) {
    && Encodes(data, es, l) && (forall r :: 0 <= r < |l.marks| ==> l.marks[r] < |l.offs|)
    && block == data + FixedList(RestartsOf(l)) + Fixed(4, |l.marks|)
  }

  class BlockBuilder {
    const interval: nat
    var buffer: Bytes
    var restarts: seq<nat>
    var counter: nat
    var finished: bool
    var lastKey: Bytes
    ghost var es: seq<KV>
    ghost var l: Layout

    ghost predicate Valid()
      reads this
    {
      && 1 <= interval && counter <= interval
      && Encodes(buffer, es, l) && (forall r :: 0 <= r < |l.marks| ==> l.marks[r] < |l.offs|) && restarts == RestartsOf(l)
      && lastKey == (if es == [] then [] else es[|es| - 1].key)
      && (counter == interval ==> es != []) && !finished
      && (es != [] ==> l.marks[|l.marks| - 1] < |es|)
    }

    constructor (interval: nat)
      requires 1 <= interval
      ensures Valid() && es == [] && this.interval == interval
    {
      this.interval := interval;
      buffer, restarts, counter, finished, lastKey := [], [0], 0, false, [];
      es, l := [], Layout([0], [], [0]);
    }

    method Reset()
      requires 1 <= interval
      modifies this
      ensures Valid() && es == []
    {
      buffer, restarts, counter, finished, lastKey := [], [0], 0, false, [];
      es, l := [], Layout([0], [], [0]);
    }

    /** The length of the common prefix. */
    method Share(a: Bytes, b: Bytes) returns (shared: nat)
      ensures shared <= |a| && shared <= |b| && a[..shared] == b[..shared]
      ensures shared < |a| && shared < |b| ==> a[shared] != b[shared]
    {
      var minLength := if |a| < |b| then |a| else |b|;
      shared := 0;
      while shared < minLength && a[shared] == b[shared]
        invariant shared <= minLength && a[..shared] == b[..shared]
      {
        shared := shared + 1;
      }
    }

    method Add(key: Bytes, value: Bytes)
      requires Valid() && |key| < TWO32 && |value| < TWO32
      modifies this
      ensures Valid() && es == old(es) + [KV(key, value)]
    {
      hide Encodes, RestartsOf, EntryBytes;
      if counter < interval {
        var shared := Share(lastKey, key);
        Append(key, value, shared, false);
      } else {
        Append(key, value, 0, true);
      }
    }

    /** The entry is written, after starting a new restart block if asked to. */
    method Append(key: Bytes, value: Bytes, shared: nat, restart: bool)
      requires Valid() && |key| < TWO32 && |value| < TWO32 && (if restart then es != [] && shared == 0 else counter < interval)
      requires shared <= |key| && shared <= |lastKey| && lastKey[..shared] == key[..shared]
      modifies this
      ensures Valid() && es == old(es) + [KV(key, value)]
    {
      hide EntryBytes, Encodes, RestartsOf, Extended;
      LayoutSize(buffer, es, l);
      ExtendedEncodes(buffer, es, l, KV(key, value), shared, restart);
      ExtendedRestarts(buffer, es, l, KV(key, value), shared, restart);
      Rejoin(lastKey, key, shared);
      if restart {
        restarts := restarts + [|buffer|];
        counter := 0;
      } else {
        assert restarts + [] == restarts;
      }
      l := Extended(l, buffer, KV(key, value), shared, restart);
      buffer := buffer + EntryBytes(shared, key[shared..], value);
      es := es + [KV(key, value)];
      lastKey := lastKey[..shared] + key[shared..];
      counter := counter + 1;
    }

    lemma EmptyIffNoEntries()
      requires Valid()
      ensures buffer == [] <==> es == []
    {
    }

    method Finish() returns (block: Bytes)
      requires Valid()
      modifies `buffer, `finished
      ensures IsBlock(block, old(buffer), es, l)
    {
      hide Encodes, RestartsOf, Fixed, FixedList;
      NoFixed();
      for i := 0 to |restarts|
        invariant buffer == old(buffer) + FixedList(restarts[..i])
      {
        OneMoreFixed(restarts, i);
        buffer := buffer + Fixed(4, restarts[i]);
      }
      assert restarts[..|restarts|] == restarts;
      buffer := buffer + Fixed(4, |restarts|);
      finished := true;
      block := buffer;
    }
  }
}
