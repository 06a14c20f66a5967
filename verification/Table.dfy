/** table_builder.cc and table.cc: blocks, an index of shortened keys and a filter, read as one sorted list. */
module Table {
  import opened Keys
  import opened Coding
  import opened Block
  import opened BlockIter
  import opened FilterBlock
  import opened Separators

  const BLOCK_TRAILER_SIZE: nat := 5

  // ---------- block handles ----------

  datatype Handle = Handle(offset: nat, size: nat)

  function EncodeHandle(h: Handle): Bytes { Varint(h.offset) + Varint(h.size) }

  function DecodeHandle(s: Bytes): Option<Handle> {
    match GetVarint64(s)
    case None => None
    case Some((a, rest)) =>
      match GetVarint64(rest)
      case None => None
      case Some((b, _)) => Some(Handle(a, b))
  }

  lemma HandleRoundTrip(h: Handle)
    requires h.offset < TWO64 && h.size < TWO64
    ensures DecodeHandle(EncodeHandle(h)) == Some(h)
  {
    hide GetVarint64, Varint;
    Varint64RoundTrip(h.offset, Varint(h.size));
    Varint64RoundTrip(h.size, []);
    assert Varint(h.size) + [] == Varint(h.size);
  }

  // ---------- the table as it grows ----------

  /**
   es: all entries so far. Block i holds those before ends[i] that are in no earlier block, and starts at offs[i];
   the entries from the last end on are in the data block being filled.
   */
  datatype Shape = Shape(es: seq<KV>, ends: seq<nat>, offs: seq<nat>)

  function StartOf(t: Shape, i: nat): nat
    requires i <= |t.ends|
  {
    if i == 0 then 0 else t.ends[i - 1]
  }

  ghost predicate ShapeOk(t: Shape, offset: nat) {
    && |t.ends| == |t.offs| && SortedBy(ILess, t.es) && (forall x :: 0 <= x < |t.es| ==> |t.es[x].key| >= 8)
    && (forall i, j :: 0 <= i < j < |t.ends| ==> t.ends[i] < t.ends[j] && t.offs[i] < t.offs[j])
    && (forall i :: 0 <= i < |t.ends| ==> 0 < t.ends[i] <= |t.es| && t.offs[i] < offset)
  }

  /** sep stands between block i and what comes after it; unless it is the last key of the block, no later user key is as small. */
  ghost predicate SepOk(t: Shape, i: nat, sep: Bytes)
    requires i < |t.ends| && 0 < t.ends[i] <= |t.es|
  {
    && |sep| >= 8 && (forall x :: 0 <= x < t.ends[i] ==> !InternalLess(sep, t.es[x].key))
    && (forall x :: t.ends[i] <= x < |t.es| ==> InternalLess(sep, t.es[x].key))
    && (sep == t.es[t.ends[i] - 1].key || forall x :: t.ends[i] <= x < |t.es| ==> Compare(UserPart(sep), UserPart(t.es[x].key)) < 0)
  }

  ghost predicate IndexOk(t: Shape, index: seq<KV>, handles: seq<Handle>)
    requires |handles| == |t.ends|
  {
    && |index| <= |t.ends|
    && forall i :: 0 <= i < |index| ==> 0 < t.ends[i] <= |t.es| && SepOk(t, i, index[i].key) && index[i].value == EncodeHandle(handles[i])
  }

  /** The filter for a block's offset holds the user key, or will when the pending filter is generated. */
  predicate CoveredBy(filters: seq<seq<Bytes>>, pending: seq<Bytes>, offset: nat, key: Bytes) {
    if offset / FILTER_BASE < |filters| then UserPart(key) in filters[offset / FILTER_BASE]
    else offset / FILTER_BASE == |filters| && key in pending
  }

  ghost predicate FilterOk(t: Shape, filters: seq<seq<Bytes>>, pending: seq<Bytes>, offset: nat)
    requires |t.ends| == |t.offs|
  {
    && offset / FILTER_BASE == |filters|
    && (forall i, x :: 0 <= i < |t.ends| && StartOf(t, i) <= x < t.ends[i] && 0 <= x < |t.es| ==>
          CoveredBy(filters, pending, t.offs[i], t.es[x].key))
    && (forall x :: StartOf(t, |t.ends|) <= x < |t.es| ==> t.es[x].key in pending)
  }

  // ---------- adding an entry ----------

  ghost predicate MayFollow(t: Shape, index: seq<KV>, key: Bytes) {
    && |key| >= 8 && (t.es != [] ==> InternalLess(t.es[|t.es| - 1].key, key))
    && (t.ends != [] && t.ends[|t.ends| - 1] == |t.es| && |index| == |t.ends| && t.es != [] ==>
          var sep := index[|index| - 1].key;
          InternalLess(sep, key) && (sep == t.es[|t.es| - 1].key || Compare(UserPart(sep), UserPart(key)) < 0))
  }

  function Added(t: Shape, e: KV): Shape { t.(es := t.es + [e]) }

  lemma AddedShape(t: Shape, index: seq<KV>, e: KV, offset: nat)
    requires ShapeOk(t, offset) && MayFollow(t, index, e.key)
    ensures ShapeOk(Added(t, e), offset)
  {
    forall x | 0 <= x < |t.es| ensures ILess(t.es[x].key, e.key) {
      InternalOrder(t.es[x].key, t.es[|t.es| - 1].key, e.key);
      assert x == |t.es| - 1 || ILess(t.es[x].key, t.es[|t.es| - 1].key);
    }
  }

  lemma UsersGrow(a: Bytes, b: Bytes, c: Bytes)
    requires Compare(a, b) < 0 && Compare(b, c) <= 0
    ensures Compare(a, c) < 0
  {
    UserOrder(a, b, c);
    UserOrder(b, c, a);
  }

  lemma EndsBelow(t: Shape, offset: nat, i: nat)
    requires ShapeOk(t, offset) && i < |t.ends| - 1
    ensures t.ends[i] < |t.es|
  {
    assert t.ends[i] < t.ends[|t.ends| - 1];
  }

  lemma SepGrows(t: Shape, index: seq<KV>, e: KV, offset: nat, i: nat)
    requires ShapeOk(t, offset) && MayFollow(t, index, e.key) && i < |index| <= |t.ends| && SepOk(t, i, index[i].key)
    ensures SepOk(Added(t, e), i, index[i].key)
  {
    var sep, t' := index[i].key, Added(t, e);
    var later := t.ends[i];
    if i < |t.ends| - 1 { EndsBelow(t, offset, i); }
    if later < |t.es| {
      InternalOrder(sep, t.es[|t.es| - 1].key, e.key);
      if sep != t.es[later - 1].key {
        var last := t.es[|t.es| - 1].key;
        UsersGrow(UserPart(sep), UserPart(last), UserPart(e.key));
      }
    } else {
      assert i == |t.ends| - 1 && |index| == |t.ends|;
    }
    forall x | 0 <= x < t'.ends[i] ensures !InternalLess(sep, t'.es[x].key) { assert t'.es[x] == t.es[x]; }
    forall x | t'.ends[i] <= x < |t'.es| ensures InternalLess(sep, t'.es[x].key) { assert x < |t.es| ==> t'.es[x] == t.es[x]; }
  }

  lemma AddedIndex(t: Shape, index: seq<KV>, handles: seq<Handle>, e: KV, offset: nat)
    requires ShapeOk(t, offset) && MayFollow(t, index, e.key) && |handles| == |t.ends| && IndexOk(t, index, handles)
    ensures IndexOk(Added(t, e), index, handles)
  {
    forall i | 0 <= i < |index| ensures SepOk(Added(t, e), i, index[i].key) { SepGrows(t, index, e, offset, i); }
  }

  lemma AddedFilter(t: Shape, e: KV, filters: seq<seq<Bytes>>, pending: seq<Bytes>, offset: nat)
    requires ShapeOk(t, offset) && FilterOk(t, filters, pending, offset)
    ensures FilterOk(Added(t, e), filters, pending + [e.key], offset)
  {
    var t' := Added(t, e);
    forall i, x | 0 <= i < |t'.ends| && StartOf(t', i) <= x < t'.ends[i] && 0 <= x < |t'.es|
      ensures CoveredBy(filters, pending + [e.key], t'.offs[i], t'.es[x].key)
    {
      assert t'.es[x] == t.es[x] && StartOf(t, i) == StartOf(t', i);
      assert CoveredBy(filters, pending, t.offs[i], t.es[x].key);
    }
  }

  // ---------- closing a block ----------

  function Closed(t: Shape, offset: nat): Shape { Shape(t.es, t.ends + [|t.es|], t.offs + [offset]) }

  lemma ClosedShape(t: Shape, offset: nat, offset': nat)
    requires ShapeOk(t, offset) && offset < offset' && StartOf(t, |t.ends|) < |t.es|
    ensures ShapeOk(Closed(t, offset), offset')
  {
  }

  lemma ClosedIndex(t: Shape, index: seq<KV>, handles: seq<Handle>, h: Handle, offset: nat)
    requires |handles| == |t.ends| && IndexOk(t, index, handles) && |index| == |t.ends|
    ensures IndexOk(Closed(t, offset), index, handles + [h])
  {
    var t' := Closed(t, offset);
    forall i | 0 <= i < |index| ensures SepOk(t', i, index[i].key) { assert SepOk(t, i, index[i].key); }
  }

  lemma InUserParts(ks: seq<Bytes>, key: Bytes)
    requires key in ks
    ensures UserPart(key) in UserParts(ks)
  {
    var i :| 0 <= i < |ks| && ks[i] == key;
    assert UserParts(ks)[i] == UserPart(key);
  }

  /** Starting the next block generates the filters below its offset; no key is forgotten. */
  lemma ClosedFilter(t: Shape, offset: nat, offset': nat, filters: seq<seq<Bytes>>, pending: seq<Bytes>, filters': seq<seq<Bytes>>, pending': seq<Bytes>)
    requires ShapeOk(t, offset) && FilterOk(t, filters, pending, offset) && offset <= offset'
    requires |filters'| == offset' / FILTER_BASE && filters <= filters'
    requires if |filters| == |filters'| then pending' == pending else pending' == [] && filters'[|filters|] == UserParts(pending)
    ensures FilterOk(Closed(t, offset), filters', pending', offset')
  {
    hide SortedBy, CoveredBy;
    var t' := Closed(t, offset);
    forall i, x | 0 <= i < |t'.ends| && StartOf(t', i) <= x < t'.ends[i] && 0 <= x < |t'.es|
      ensures CoveredBy(filters', pending', t'.offs[i], t'.es[x].key)
    {
      var key := t.es[x].key;
      if i < |t.ends| {
        assert StartOf(t, i) == StartOf(t', i);
        assert CoveredBy(filters, pending, t.offs[i], key);
      } else {
        assert StartOf(t', i) == StartOf(t, |t.ends|);
        NewBlockCovered(filters, pending, offset, key);
      }
      CoverKept(filters, pending, filters', pending', t'.offs[i], key);
    }
  }

  lemma NewBlockCovered(filters: seq<seq<Bytes>>, pending: seq<Bytes>, offset: nat, key: Bytes)
    requires offset / FILTER_BASE == |filters| && key in pending
    ensures CoveredBy(filters, pending, offset, key)
  {
  }

  lemma CoverKept(filters: seq<seq<Bytes>>, pending: seq<Bytes>, filters': seq<seq<Bytes>>, pending': seq<Bytes>, offset: nat, key: Bytes)
    requires CoveredBy(filters, pending, offset, key) && filters <= filters'
    requires if |filters| == |filters'| then pending' == pending else pending' == [] && filters'[|filters|] == UserParts(pending)
    ensures CoveredBy(filters', pending', offset, key)
  {
    hide UserPart, UserParts;
    if key in pending { InUserParts(pending, key); }
  }

  // ---------- adding an index entry ----------

  /** A separator for the last block, once nothing but the next key can follow. */
  lemma SeparatorOk(t: Shape, offset: nat, sep: Bytes)
    requires ShapeOk(t, offset) && t.ends != [] && t.ends[|t.ends| - 1] == |t.es|
    requires var last := t.es[|t.es| - 1].key; sep == last || (|sep| >= 8 && Compare(UserPart(last), UserPart(sep)) < 0)
    ensures SepOk(t, |t.ends| - 1, sep)
  {
    var last := t.es[|t.es| - 1].key;
    InternalOrder(last, sep, last);
    forall x | 0 <= x < |t.es| ensures !InternalLess(sep, t.es[x].key) {
      assert x == |t.es| - 1 || ILess(t.es[x].key, last);
      InternalOrder(t.es[x].key, last, sep);
      InternalOrder(t.es[x].key, sep, sep);
    }
  }

  lemma IndexAdded(t: Shape, index: seq<KV>, handles: seq<Handle>, offset: nat, sep: Bytes)
    requires ShapeOk(t, offset) && |handles| == |t.ends| == |index| + 1 && IndexOk(t, index, handles)
    requires t.ends[|t.ends| - 1] == |t.es|
    requires var last := t.es[|t.es| - 1].key; sep == last || (|sep| >= 8 && Compare(UserPart(last), UserPart(sep)) < 0)
    ensures IndexOk(t, index + [KV(sep, EncodeHandle(handles[|index|]))], handles)
  {
    SeparatorOk(t, offset, sep);
    hide SepOk;
  }

  // ---------- what a lookup must find ----------

  /** The entry that a scan of the whole list for the first key at or after k would hand to the saver, if it has k's user key. */
  ghost predicate Answer(es: seq<KV>, k: Bytes, r: Option<KV>) {
    match r
    case Some(e) =>
      exists g :: 0 <= g < |es| && es[g] == e && !InternalLess(e.key, k) && UserPart(e.key) == UserPart(k)
                  && forall x :: 0 <= x < g ==> InternalLess(es[x].key, k)
    case None => forall x :: 0 <= x < |es| && UserPart(es[x].key) == UserPart(k) ==> InternalLess(es[x].key, k)
  }

  /** An entry with k's user key is at or after k exactly if its sequence number is visible at k's. */
  lemma VisibleIsAtOrAfter(key: Bytes, user: Bytes, s: SeqNum)
    requires |key| >= 8 && UserPart(key) == user
    ensures !InternalLess(key, InternalKey(user, s, Value)) <==> Tag(key) <= Pack(s, Value)
  {
    InternalKeyParts(user, s, Value);
    UserOrder(user, user, user);
  }

  /** The answer is the newest entry of the user key that snapshot s can see. */
  lemma AnswerIsNewest(es: seq<KV>, user: Bytes, s: SeqNum, r: Option<KV>)
    requires SortedBy(ILess, es) && (forall x :: 0 <= x < |es| ==> |es[x].key| >= 8) && Answer(es, InternalKey(user, s, Value), r)
    ensures match r
            case Some(e) => e in es && UserPart(e.key) == user && Tag(e.key) <= Pack(s, Value)
                            && forall x :: 0 <= x < |es| && UserPart(es[x].key) == user && Tag(es[x].key) <= Pack(s, Value) ==> Tag(es[x].key) <= Tag(e.key)
            case None => forall x :: 0 <= x < |es| && UserPart(es[x].key) == user ==> Tag(es[x].key) > Pack(s, Value)
  {
    InternalKeyParts(user, s, Value);
    var k := InternalKey(user, s, Value);
    forall x | 0 <= x < |es| && UserPart(es[x].key) == user
      ensures !InternalLess(es[x].key, k) <==> Tag(es[x].key) <= Pack(s, Value)
    {
      VisibleIsAtOrAfter(es[x].key, user, s);
    }
    if r.Some? {
      var g :| 0 <= g < |es| && es[g] == r.value && !InternalLess(es[g].key, k) && UserPart(es[g].key) == user
               && forall x :: 0 <= x < g ==> InternalLess(es[x].key, k);
      forall x | 0 <= x < |es| && UserPart(es[x].key) == user && Tag(es[x].key) <= Pack(s, Value) ensures Tag(es[x].key) <= Tag(es[g].key) {
        assert g <= x;
        assert g < x ==> ILess(es[g].key, es[x].key);
        UserOrder(user, user, user);
      }
    }
  }

  /** What the index and the blocks give for k. */
  ghost predicate Located(t: Shape, index: seq<KV>, k: Bytes, i: nat, d: nat)
    requires |index| == |t.ends|
  {
    && i <= |index| && (forall j :: 0 <= j < i ==> InternalLess(index[j].key, k))
    && (i < |index| ==> !InternalLess(index[i].key, k) && StartOf(t, i) <= d <= t.ends[i] <= |t.es|
                        && (forall x :: StartOf(t, i) <= x < d ==> InternalLess(t.es[x].key, k))
                        && (d < t.ends[i] ==> !InternalLess(t.es[d].key, k)))
  }

  /** Everything before the block the index points to is smaller than k. */
  lemma EarlierSmaller(t: Shape, index: seq<KV>, handles: seq<Handle>, k: Bytes, i: nat, x: nat)
    requires |handles| == |t.ends| == |index| && IndexOk(t, index, handles) && i <= |index|
    requires (forall j :: 0 <= j < i ==> InternalLess(index[j].key, k)) && x < StartOf(t, i) && StartOf(t, i) <= |t.es|
    requires |t.es[x].key| >= 8
    ensures InternalLess(t.es[x].key, k)
  {
    var sep := index[i - 1].key;
    assert SepOk(t, i - 1, sep);
    NotLessThenLess(sep, t.es[x].key, k);
  }

  lemma NotLessThenLess(sep: Bytes, a: Bytes, k: Bytes)
    requires !InternalLess(sep, a) && InternalLess(sep, k) && |a| >= 8
    ensures InternalLess(a, k)
  {
    UserOrder(UserPart(sep), UserPart(a), UserPart(k));
    UserOrder(UserPart(a), UserPart(sep), UserPart(k));
    UserOrder(UserPart(sep), UserPart(k), UserPart(a));
  }

  /** Looking only into the block that the index points to is enough: shortened separators hide no entry. */
  lemma IndexFindsAnswer(t: Shape, index: seq<KV>, handles: seq<Handle>, offset: nat, k: Bytes, i: nat, d: nat)
    requires ShapeOk(t, offset) && |handles| == |t.ends| == |index| && IndexOk(t, index, handles) && |k| >= 8
    requires StartOf(t, |t.ends|) == |t.es| && Located(t, index, k, i, d)
    ensures Answer(t.es, k, if i < |index| && d < t.ends[i] && UserPart(t.es[d].key) == UserPart(k) then Some(t.es[d]) else None)
  {
    forall x | 0 <= x < StartOf(t, i) ensures InternalLess(t.es[x].key, k) {
      EarlierSmaller(t, index, handles, k, i, x);
    }
    if i < |index| {
      if d < t.ends[i] {
        FirstInBlock(t, k, d);
      } else {
        PastBlock(t, index, handles, k, i);
      }
    }
  }

  lemma FirstInBlock(t: Shape, k: Bytes, d: nat)
    requires SortedBy(ILess, t.es) && d < |t.es| && |k| >= 8 && |t.es[d].key| >= 8 && !InternalLess(t.es[d].key, k)
    requires forall x :: 0 <= x < d ==> InternalLess(t.es[x].key, k)
    ensures Answer(t.es, k, if UserPart(t.es[d].key) == UserPart(k) then Some(t.es[d]) else None)
  {
    var e := t.es[d];
    if UserPart(e.key) != UserPart(k) {
      forall x | d <= x < |t.es| ensures UserPart(t.es[x].key) != UserPart(k) {
        assert x == d || ILess(e.key, t.es[x].key);
        LargerUser(k, e.key, t.es[x].key);
      }
    }
  }

  /** A key that is not before k and has another user key has a larger one, and so have all keys after it. */
  lemma LargerUser(k: Bytes, e: Bytes, x: Bytes)
    requires |k| >= 8 && |e| >= 8 && !InternalLess(e, k) && UserPart(e) != UserPart(k) && (x == e || InternalLess(e, x))
    ensures UserPart(x) != UserPart(k)
  {
    UserOrder(UserPart(k), UserPart(e), UserPart(x));
    UserOrder(UserPart(e), UserPart(k), UserPart(x));
    UserOrder(UserPart(e), UserPart(x), UserPart(k));
    UserOrder(UserPart(k), UserPart(k), UserPart(k));
  }

  /** If the whole block is smaller than k, its separator was shortened, and no later entry has k's user key. */
  lemma PastBlock(t: Shape, index: seq<KV>, handles: seq<Handle>, k: Bytes, i: nat)
    requires |handles| == |t.ends| == |index| && IndexOk(t, index, handles) && i < |index| && |k| >= 8
    requires !InternalLess(index[i].key, k) && 0 < t.ends[i] <= |t.es| && forall x :: 0 <= x < t.ends[i] ==> InternalLess(t.es[x].key, k)
    ensures Answer(t.es, k, None)
  {
    var sep := index[i].key;
    assert SepOk(t, i, sep);
    var last := t.es[t.ends[i] - 1].key;
    assert InternalLess(last, k);
    forall x | t.ends[i] <= x < |t.es| ensures UserPart(t.es[x].key) != UserPart(k) {
      assert Compare(UserPart(sep), UserPart(t.es[x].key)) < 0;
      BeyondSeparator(sep, k, t.es[x].key);
    }
  }

  lemma BeyondSeparator(sep: Bytes, k: Bytes, x: Bytes)
    requires |k| >= 8 && |sep| >= 8 && !InternalLess(sep, k) && Compare(UserPart(sep), UserPart(x)) < 0
    ensures UserPart(x) != UserPart(k)
  {
    UserOrder(UserPart(sep), UserPart(k), UserPart(x));
  }
}
