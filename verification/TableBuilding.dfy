/** TableBuilder and Table::InternalGet over the block, filter and separator code. */
module TableBuilding {
  import opened Keys
  import opened Coding
  import opened Block
  import opened BlockIter
  import opened Bloom
  import opened FilterBlock
  import opened Separators
  import opened Table

  /** A finished table: its data blocks by offset, its index block and, if a filter policy is set, its filter block. */
  datatype TableFile = TableFile(blocks: map<nat, Bytes>, index: Bytes, filter: Option<Bytes>) {
    predicate FilterFits() { filter.Some? ==> |filter.value| < TWO32 }
  }

  /** bytes is a block of the given entries. */
  ghost predicate BlockFor(bytes: Bytes, es: seq<KV>) {
    |bytes| < TWO32 && Small(es) && exists payload, l :: IsBlock(bytes, payload, es, l)
  }

  ghost predicate BlockStored(blocks: map<nat, Bytes>, t: Shape, handles: seq<Handle>, i: nat)
    requires i < |t.ends| == |t.offs| == |handles|
  {
    && StartOf(t, i) <= t.ends[i] <= |t.es| && t.offs[i] in blocks && t.offs[i] < TWO64
    && handles[i] == Handle(t.offs[i], |blocks[t.offs[i]]|) && BlockFor(blocks[t.offs[i]], t.es[StartOf(t, i)..t.ends[i]])
  }

  ghost predicate Stored(blocks: map<nat, Bytes>, t: Shape, handles: seq<Handle>, offset: nat) {
    && |t.ends| == |t.offs| == |handles| && (forall o :: o in blocks ==> o < offset)
    && forall i :: 0 <= i < |t.ends| ==> BlockStored(blocks, t, handles, i)
  }

  lemma StoredAdded(blocks: map<nat, Bytes>, t: Shape, handles: seq<Handle>, offset: nat, e: KV)
    requires Stored(blocks, t, handles, offset)
    ensures Stored(blocks, Added(t, e), handles, offset)
  {
    hide BlockFor;
    var t' := Added(t, e);
    forall i | 0 <= i < |t.ends| ensures BlockStored(blocks, t', handles, i) {
      assert BlockStored(blocks, t, handles, i);
      assert t'.es[StartOf(t', i)..t'.ends[i]] == t.es[StartOf(t, i)..t.ends[i]];
    }
  }

  lemma StoredClosed(blocks: map<nat, Bytes>, t: Shape, handles: seq<Handle>, offset: nat, contents: Bytes)
    requires Stored(blocks, t, handles, offset) && StartOf(t, |t.ends|) <= |t.es| && offset < TWO64
    requires BlockFor(contents, t.es[StartOf(t, |t.ends|)..])
    ensures Stored(blocks[offset := contents], Closed(t, offset), handles + [Handle(offset, |contents|)], offset + |contents| + BLOCK_TRAILER_SIZE)
  {
    hide BlockFor;
    var t', handles', blocks' := Closed(t, offset), handles + [Handle(offset, |contents|)], blocks[offset := contents];
    forall i | 0 <= i < |t'.ends| ensures BlockStored(blocks', t', handles', i) {
      if i < |t.ends| {
        assert BlockStored(blocks, t, handles, i);
        assert StartOf(t', i) == StartOf(t, i) && t.offs[i] != offset;
      } else {
        assert StartOf(t', i) == StartOf(t, |t.ends|);
        assert t.es[StartOf(t, |t.ends|)..|t.es|] == t.es[StartOf(t, |t.ends|)..];
      }
    }
  }

  lemma {:induction false} VarintFits(v: nat, n: nat)
    requires 0 < n && v < Pow(128, n)
    ensures |Varint(v)| <= n
  {
    if v >= 128 {
      assert Pow(128, 1) == 128;
      DivBelow(v, 128, Pow(128, n - 1));
      VarintFits(v / 128, n - 1);
    }
  }

  lemma HandleFits(h: Handle)
    requires h.offset < TWO64 && h.size < TWO64
    ensures |EncodeHandle(h)| <= 20
  {
    Powers();
    VarintFits(h.offset, 10);
    VarintFits(h.size, 10);
  }

  // ---------- the builder's state as a value ----------

  datatype View = View(
    filtered: bool, t: Shape, handles: seq<Handle>, blocks: map<nat, Bytes>, offset: nat, index: seq<KV>, data: seq<KV>,
    filters: seq<seq<Bytes>>, fpending: seq<Bytes>, pending: bool, handle: Handle, lastKey: Bytes)

  /** With a filter policy, the filters cover every key. */
  ghost predicate FiltersOk(v: View) {
    v.filtered ==> |v.t.ends| == |v.t.offs| && FilterOk(v.t, v.filters, v.fpending, v.offset)
  }

  ghost predicate Ok(v: View) {
    && ShapeOk(v.t, v.offset) && Stored(v.blocks, v.t, v.handles, v.offset) && IndexOk(v.t, v.index, v.handles)
    && FiltersOk(v)
    && (if v.pending then |v.index| + 1 == |v.t.ends| && v.t.ends[|v.t.ends| - 1] == |v.t.es| && v.handle == v.handles[|v.t.ends| - 1]
        else |v.index| == |v.t.ends|)
    && StartOf(v.t, |v.t.ends|) <= |v.t.es| && v.data == v.t.es[StartOf(v.t, |v.t.ends|)..]
    && v.lastKey == (if v.t.es == [] then [] else v.t.es[|v.t.es| - 1].key) && |v.lastKey| < TWO32
    && (!v.pending ==> v.t.es == [] || StartOf(v.t, |v.t.ends|) < |v.t.es|)
  }

  /** Both ways between the invariant and its parts. */
  lemma OkParts(v: View)
    requires Ok(v)
    ensures ShapeOk(v.t, v.offset) && Stored(v.blocks, v.t, v.handles, v.offset) && IndexOk(v.t, v.index, v.handles)
    ensures FiltersOk(v) && |v.t.ends| == |v.t.offs| == |v.handles|
    ensures StartOf(v.t, |v.t.ends|) <= |v.t.es| && v.data == v.t.es[StartOf(v.t, |v.t.ends|)..]
    ensures if v.pending then |v.index| + 1 == |v.t.ends| && v.t.ends[|v.t.ends| - 1] == |v.t.es| > 0 else |v.index| == |v.t.ends|
    ensures v.t.es != [] ==> v.lastKey == v.t.es[|v.t.es| - 1].key && |v.lastKey| >= 8
    ensures |v.lastKey| < TWO32
  {
  }

  function Fresh(filtered: bool): View { View(filtered, Shape([], [], []), [], map[], 0, [], [], [], [], false, Handle(0, 0), []) }

  lemma FreshOk(filtered: bool)
    ensures Ok(Fresh(filtered))
  {
    var v := Fresh(filtered);
    assert ShapeOk(v.t, 0);
    assert Stored(v.blocks, v.t, v.handles, 0);
    assert IndexOk(v.t, v.index, v.handles) && FilterOk(v.t, v.filters, v.fpending, 0);
    hide ShapeOk, Stored, IndexOk, FiltersOk;
  }

  /** sep may stand for the end of the last block. */
  ghost predicate MaySeparate(lastKey: Bytes, sep: Bytes) {
    sep == lastKey || (|sep| >= 8 && Compare(UserPart(lastKey), UserPart(sep)) < 0)
  }

  /** The index entry of the block before is added. */
  function Indexed(v: View, sep: Bytes): View { v.(index := v.index + [KV(sep, EncodeHandle(v.handle))], pending := false) }

  /** Everything but that the data block may then be empty. */
  ghost predicate Ready(v: View, key: Bytes) {
    && ShapeOk(v.t, v.offset) && Stored(v.blocks, v.t, v.handles, v.offset) && IndexOk(v.t, v.index, v.handles)
    && FiltersOk(v) && |v.index| == |v.t.ends| && !v.pending
    && StartOf(v.t, |v.t.ends|) <= |v.t.es| && v.data == v.t.es[StartOf(v.t, |v.t.ends|)..] && MayFollow(v.t, v.index, key)
  }

  lemma HandleInRange(v: View)
    requires Ok(v) && v.pending
    ensures v.handle.offset < TWO64 && v.handle.size < TWO64
  {
    assert BlockStored(v.blocks, v.t, v.handles, |v.t.ends| - 1);
  }

  lemma IndexedReady(v: View, sep: Bytes, key: Bytes)
    requires Ok(v) && v.pending && |key| >= 8 && InternalLess(v.lastKey, key) && (sep == v.lastKey || Between(v.lastKey, sep, key))
    ensures Ready(Indexed(v, sep), key)
  {
    hide Ok, SepOk, Stored, FilterOk, IndexOk, EncodeHandle, ShapeOk, InternalLess;
    OkParts(v);
    HandleOfLast(v);
    IndexAdded(v.t, v.index, v.handles, v.offset, sep);
    SeparatorFollows(v.lastKey, sep, key);
  }

  lemma HandleOfLast(v: View)
    requires Ok(v) && v.pending
    ensures |v.handles| == |v.index| + 1 && v.handle == v.handles[|v.index|]
  {
  }

  lemma SeparatorFollows(lastKey: Bytes, sep: Bytes, key: Bytes)
    requires |key| >= 8 && InternalLess(lastKey, key) && (sep == lastKey || Between(lastKey, sep, key))
    ensures InternalLess(sep, key) && (sep == lastKey || Compare(UserPart(sep), UserPart(key)) < 0)
  {
  }

  lemma NotPendingReady(v: View, key: Bytes)
    requires Ok(v) && !v.pending && |key| >= 8 && (v.t.es != [] ==> InternalLess(v.lastKey, key))
    ensures Ready(v, key)
  {
  }

  function Appended(v: View, e: KV): View {
    v.(t := Added(v.t, e), data := v.data + [e], fpending := if v.filtered then v.fpending + [e.key] else v.fpending,
       lastKey := e.key)
  }

  lemma ReadyParts(v: View, key: Bytes)
    requires Ready(v, key)
    ensures ShapeOk(v.t, v.offset) && Stored(v.blocks, v.t, v.handles, v.offset) && IndexOk(v.t, v.index, v.handles)
    ensures FiltersOk(v) && |v.t.ends| == |v.t.offs| == |v.handles| == |v.index| && !v.pending
    ensures StartOf(v.t, |v.t.ends|) <= |v.t.es| && v.data == v.t.es[StartOf(v.t, |v.t.ends|)..] && MayFollow(v.t, v.index, key)
  {
  }

  lemma FilterAppended(v: View, e: KV)
    requires ShapeOk(v.t, v.offset) && FiltersOk(v)
    ensures FiltersOk(Appended(v, e))
  {
    if v.filtered { AddedFilter(v.t, e, v.filters, v.fpending, v.offset); }
  }

  lemma AppendedOk(v: View, e: KV)
    requires Ready(v, e.key) && |e.key| < TWO32
    ensures Ok(Appended(v, e))
  {
    hide Ok, Ready, ShapeOk, Stored, IndexOk, FiltersOk, MayFollow;
    ReadyParts(v, e.key);
    AddedShape(v.t, v.index, e, v.offset);
    AddedIndex(v.t, v.index, v.handles, e, v.offset);
    FilterAppended(v, e);
    StoredAdded(v.blocks, v.t, v.handles, v.offset, e);
    var n := StartOf(v.t, |v.t.ends|);
    assert (v.t.es + [e])[n..] == v.t.es[n..] + [e];
    OkFilling(Appended(v, e));
  }

  /** The invariant from its parts, while the data block is being filled. */
  lemma OkFilling(v: View)
    requires ShapeOk(v.t, v.offset) && Stored(v.blocks, v.t, v.handles, v.offset) && IndexOk(v.t, v.index, v.handles)
    requires FiltersOk(v) && !v.pending && |v.index| == |v.t.ends|
    requires StartOf(v.t, |v.t.ends|) < |v.t.es| && v.data == v.t.es[StartOf(v.t, |v.t.ends|)..]
    requires v.lastKey == v.t.es[|v.t.es| - 1].key && |v.lastKey| < TWO32
    ensures Ok(v)
  {
    hide ShapeOk, Stored, IndexOk, FiltersOk;
  }

  function WithBlock(v: View, contents: Bytes, filters: seq<seq<Bytes>>, fpending: seq<Bytes>): View {
    View(v.filtered, Closed(v.t, v.offset), v.handles + [Handle(v.offset, |contents|)], v.blocks[v.offset := contents],
         v.offset + |contents| + BLOCK_TRAILER_SIZE, v.index, [], filters, fpending, true, Handle(v.offset, |contents|), v.lastKey)
  }

  ghost predicate FiltersFollow(v: View, offset: nat, filters: seq<seq<Bytes>>, fpending: seq<Bytes>) {
    v.filtered ==>
      && |filters| == offset / FILTER_BASE && v.filters <= filters
      && if |v.filters| == |filters| then fpending == v.fpending else fpending == [] && filters[|v.filters|] == UserParts(v.fpending)
  }

  lemma FilterClosed(v: View, contents: Bytes, filters: seq<seq<Bytes>>, fpending: seq<Bytes>)
    requires ShapeOk(v.t, v.offset) && FiltersOk(v) && FiltersFollow(v, v.offset + |contents| + BLOCK_TRAILER_SIZE, filters, fpending)
    ensures FiltersOk(WithBlock(v, contents, filters, fpending))
  {
    hide UserParts;
    if v.filtered {
      ClosedFilter(v.t, v.offset, v.offset + |contents| + BLOCK_TRAILER_SIZE, v.filters, v.fpending, filters, fpending);
    }
  }

  lemma WithBlockOk(v: View, contents: Bytes, filters: seq<seq<Bytes>>, fpending: seq<Bytes>)
    requires Ok(v) && !v.pending && v.data != [] && v.offset < TWO64 && BlockFor(contents, v.data)
    requires FiltersFollow(v, v.offset + |contents| + BLOCK_TRAILER_SIZE, filters, fpending)
    ensures Ok(WithBlock(v, contents, filters, fpending))
  {
    hide Ok, ShapeOk, Stored, IndexOk, FiltersOk, BlockFor, UserParts;
    OkParts(v);
    var offset, v' := v.offset + |contents| + BLOCK_TRAILER_SIZE, WithBlock(v, contents, filters, fpending);
    ClosedShape(v.t, v.offset, offset);
    ClosedIndex(v.t, v.index, v.handles, Handle(v.offset, |contents|), v.offset);
    FilterClosed(v, contents, filters, fpending);
    StoredClosed(v.blocks, v.t, v.handles, v.offset, contents);
    OkPending(v');
  }

  /** The invariant from its parts, just after a block was closed. */
  lemma OkPending(v: View)
    requires ShapeOk(v.t, v.offset) && Stored(v.blocks, v.t, v.handles, v.offset) && IndexOk(v.t, v.index, v.handles)
    requires FiltersOk(v) && v.pending && |v.index| + 1 == |v.t.ends| && v.data == []
    requires v.t.ends[|v.t.ends| - 1] == |v.t.es| && v.handle == v.handles[|v.t.ends| - 1] && v.t.es != []
    requires v.lastKey == v.t.es[|v.t.es| - 1].key && |v.lastKey| < TWO32
    ensures Ok(v)
  {
    hide ShapeOk, Stored, IndexOk, FiltersOk;
  }

  lemma FilterIndexGrows(v: View, n: nat)
    requires Ok(v)
    ensures v.filtered ==> |v.filters| <= (v.offset + n) / FILTER_BASE
  {
  }

  class TableBuilder {
    const dataBlock: BlockBuilder
    const indexBlock: BlockBuilder
    const filtered: bool            // filter_block != NULL
    const filter: FilterBlockBuilder
    var ok: bool                    // status.ok()
    var blocks: map<nat, Bytes>     // what has been appended to the file
    var offset: nat
    var lastKey: Bytes
    var pendingIndexEntry: bool
    var pendingHandle: Handle
    ghost var t: Shape
    ghost var handles: seq<Handle>

    ghost const Repr: set<object> := {this, dataBlock, indexBlock, filter}

    ghost function V(): View
      reads Repr
    {
      View(filtered, t, handles, blocks, offset, indexBlock.es, dataBlock.es, filter.filters, filter.pending, pendingIndexEntry, pendingHandle, lastKey)
    }

    ghost predicate Parts()
      reads Repr
    {
      && dataBlock != indexBlock && dataBlock.Valid() && indexBlock.Valid() && filter.Valid()
      && Small(dataBlock.es) && Small(indexBlock.es)
    }

    ghost predicate Valid()
      reads Repr
    {
      Parts() && (ok ==> Ok(V()))
    }

    constructor (interval: nat, filtered: bool, hash: Hasher, bitsPerKey: nat, k: nat)
      requires 1 <= interval && 1 <= k <= 30
      ensures Valid() && ok && t.es == [] && fresh(Repr) && this.filtered == filtered
    {
      hide BlockBuilder.Valid, FilterBlockBuilder.Valid, Ok;
      FreshOk(filtered);
      this.filtered := filtered;
      dataBlock := new BlockBuilder(interval);
      indexBlock := new BlockBuilder(1);
      var f := new FilterBlockBuilder(hash, bitsPerKey, k);
      if filtered { f.StartBlock(0); }
      filter := f;
      ok, blocks, offset, lastKey, pendingIndexEntry, pendingHandle := true, map[], 0, [], false, Handle(0, 0);
      t, handles := Shape([], [], []), [];
    }

    /** The index entry of the finished block, now that the next key is known. */
    method AddIndexEntry(sep: Bytes)
      requires Valid() && ok && pendingIndexEntry && |sep| < TWO32
      modifies this, indexBlock
      ensures Parts() && ok && V() == Indexed(old(V()), sep)
    {
      hide BlockBuilder.Valid, FilterBlockBuilder.Valid, Ok, EncodeHandle;
      HandleInRange(V());
      HandleFits(pendingHandle);
      indexBlock.Add(sep, EncodeHandle(pendingHandle));
      pendingIndexEntry := false;
    }

    method Add(key: Bytes, value: Bytes, full: bool)
      requires Valid() && |key| >= 8 && |key| < TWO32 && |value| < TWO32
      requires ok && t.es != [] ==> InternalLess(t.es[|t.es| - 1].key, key)
      modifies Repr
      ensures Valid() && (ok ==> old(ok) && t.es == old(t.es) + [KV(key, value)])
    {
      if !ok { return; }
      AddEntry(key, value);
      if full { Flush(); }
    }

    /** Add without the block switch. */
    method AddEntry(key: Bytes, value: Bytes)
      requires Valid() && ok && |key| >= 8 && |key| < TWO32 && |value| < TWO32
      requires t.es != [] ==> InternalLess(t.es[|t.es| - 1].key, key)
      modifies Repr
      ensures Valid() && ok && t.es == old(t.es) + [KV(key, value)] && dataBlock.es != []
    {
      hide BlockBuilder.Valid, FilterBlockBuilder.Valid, Ok, Ready, InternalLess, UserPart, EncodeHandle;
      LastKeyFacts(V());
      if pendingIndexEntry {
        var sep := FindInternalSeparator(lastKey, key);
        IndexedReady(V(), sep, key);
        AddIndexEntry(sep);
      } else {
        NotPendingReady(V(), key);
      }
      AppendedOk(V(), KV(key, value));
      if filtered { filter.AddKey(key); }
      lastKey := key;
      dataBlock.Add(key, value);
      t := Added(t, KV(key, value));
    }

    method Flush()
      requires Valid()
      modifies Repr
      ensures Valid() && (ok ==> old(ok) && t.es == old(t.es) && dataBlock.es == [])
    {
      if !ok { return; }
      dataBlock.EmptyIffNoEntries();
      hide BlockBuilder.Valid, FilterBlockBuilder.Valid, Ok;
      if |dataBlock.buffer| == 0 { return; }
      WriteDataBlock();
    }

    /** WriteBlock of the data block. Appending may fail, and does if the block or the file would be too large. */
    method WriteDataBlock()
      requires Valid() && ok && dataBlock.es != []
      modifies Repr
      ensures Valid() && (ok ==> t.es == old(t.es) && dataBlock.es == [])
    {
      hide BlockBuilder.Valid, FilterBlockBuilder.Valid, Ok, BlockFor, UserParts;
      ghost var v := V();
      NotPending(v);
      var contents := FinishBlock(dataBlock);
      var appended: bool := *;
      if |contents| < TWO32 && offset < TWO64 && appended {
        FilterIndexGrows(v, |contents| + BLOCK_TRAILER_SIZE);
        pendingHandle := Handle(offset, |contents|);
        blocks := blocks[offset := contents];
        t, handles := Closed(t, offset), handles + [pendingHandle];
        offset := offset + |contents| + BLOCK_TRAILER_SIZE;
        pendingIndexEntry := true;
        if filtered { filter.StartBlock(offset); }
        WithBlockOk(v, contents, filter.filters, filter.pending);
        assert V() == WithBlock(v, contents, filter.filters, filter.pending);
      } else {
        ok := false;
        FilterIndexGrows(v, 0);
        if filtered { filter.StartBlock(offset); }
      }
    }

    /** Finish and Reset of a block builder, as in WriteBlock. */
    method FinishBlock(b: BlockBuilder) returns (contents: Bytes)
      requires b.Valid() && Small(b.es)
      modifies b
      ensures b.Valid() && b.es == []
      ensures |contents| < TWO32 ==> BlockFor(contents, old(b.es))
    {
      ghost var payload, es, l := b.buffer, b.es, b.l;
      assert 1 <= b.interval;
      contents := b.Finish();
      hide IsBlock;
      b.Reset();
    }

    /** The index block and the filter block of the finished table. */
    method Finish() returns (file: TableFile)
      requires Valid()
      modifies Repr
      ensures ok && |file.index| < TWO32 && file.FilterFits() ==> old(ok) && t.es == old(t.es) && (file.filter.Some? <==> filtered)
      ensures ok && |file.index| < TWO32 && file.FilterFits() ==> TableOf(filter.hash, filter.k, file, t, handles, filter.filters)
    {
      hide BlockBuilder.Valid, FilterBlockBuilder.Valid, Ok, BlockFor, IsFilterBlock, EncodeHandle, UserParts, UserPart, TableOf, Complete;
      Flush();
      if !ok { return TableFile(map[], [], None); }
      ghost var v := V();
      LastKeyFacts(v);
      var filterContents := None;
      if filtered {
        var contents := filter.Finish();
        filterContents := Some(contents);
      }
      if pendingIndexEntry {
        var sep := FindInternalSuccessor(lastKey);
        HandleInRange(v);
        HandleFits(pendingHandle);
        SuccessorOk(v, sep);
        indexBlock.Add(sep, EncodeHandle(pendingHandle));
        pendingIndexEntry := false;
      } else {
        NothingPending(v);
      }
      ghost var index := indexBlock.es;
      var indexContents := FinishBlock(indexBlock);
      file := TableFile(blocks, indexContents, filterContents);
      if |indexContents| < TWO32 && file.FilterFits() {
        FinishedTable(v, index, file, filter.hash, filter.k, filter.filters);
      }
    }
  }

  lemma LastKeyFacts(v: View)
    requires Ok(v)
    ensures v.t.es != [] ==> v.lastKey == v.t.es[|v.t.es| - 1].key && |v.lastKey| >= 8
    ensures v.pending ==> v.t.es != []
    ensures |v.lastKey| < TWO32
  {
  }

  lemma NotPending(v: View)
    requires Ok(v) && v.data != []
    ensures !v.pending
  {
  }

  /** All data is in blocks and every block has its index entry. */
  ghost predicate Complete(v: View, index: seq<KV>) {
    && ShapeOk(v.t, v.offset) && Stored(v.blocks, v.t, v.handles, v.offset) && IndexOk(v.t, index, v.handles)
    && FiltersOk(v) && |index| == |v.t.ends| && StartOf(v.t, |v.t.ends|) == |v.t.es|
  }

  lemma SuccessorOk(v: View, sep: Bytes)
    requires Ok(v) && v.pending && MaySeparate(v.lastKey, sep)
    ensures Complete(v, v.index + [KV(sep, EncodeHandle(v.handle))])
  {
    hide Ok, SepOk, Stored, FiltersOk, IndexOk, EncodeHandle, ShapeOk;
    OkParts(v);
    HandleOfLast(v);
    IndexAdded(v.t, v.index, v.handles, v.offset, sep);
  }

  lemma NothingPending(v: View)
    requires Ok(v) && !v.pending && v.data == []
    ensures Complete(v, v.index)
  {
    hide SepOk, Stored, FiltersOk, IndexOk, ShapeOk;
  }

  ghost predicate FilteredAt(t: Shape, filters: seq<seq<Bytes>>, i: nat, x: nat)
    requires i < |t.offs| && x < |t.es|
  {
    t.offs[i] / FILTER_BASE < |filters| && UserPart(t.es[x].key) in filters[t.offs[i] / FILTER_BASE]
  }

  /** Once the last filter is generated, each block's filter holds the user keys of its entries. */
  ghost predicate AllFiltered(t: Shape, filters: seq<seq<Bytes>>)
    requires |t.ends| == |t.offs|
  {
    forall i, x :: 0 <= i < |t.ends| && StartOf(t, i) <= x < t.ends[i] && 0 <= x < |t.es| ==> FilteredAt(t, filters, i, x)
  }

  lemma LastFilter(t: Shape, filters: seq<seq<Bytes>>, pending: seq<Bytes>, offset: nat, filters': seq<seq<Bytes>>)
    requires |t.ends| == |t.offs| && FilterOk(t, filters, pending, offset)
    requires filters' == if pending == [] then filters else filters + [UserParts(pending)]
    ensures AllFiltered(t, filters')
  {
    hide CoveredBy, UserPart, UserParts;
    forall i, x | 0 <= i < |t.ends| && StartOf(t, i) <= x < t.ends[i] && 0 <= x < |t.es| ensures FilteredAt(t, filters', i, x) {
      assert CoveredBy(filters, pending, t.offs[i], t.es[x].key);
      CoveredAtEnd(filters, pending, filters', t.offs[i], t.es[x].key);
    }
  }

  lemma CoveredAtEnd(filters: seq<seq<Bytes>>, pending: seq<Bytes>, filters': seq<seq<Bytes>>, offset: nat, key: Bytes)
    requires CoveredBy(filters, pending, offset, key)
    requires filters' == if pending == [] then filters else filters + [UserParts(pending)]
    ensures offset / FILTER_BASE < |filters'| && UserPart(key) in filters'[offset / FILTER_BASE]
  {
    if key in pending { InUserParts(pending, key); }
  }

  /** The filter block, if there is one, has filters for all keys. */
  ghost predicate FilterBlockOf(hash: Hasher, k: nat, filter: Option<Bytes>, t: Shape, filters: seq<seq<Bytes>>)
    requires |t.ends| == |t.offs|
  {
    filter.Some? ==> IsFilterBlock(hash, k, filter.value, filters) && |filter.value| < TWO32 && AllFiltered(t, filters)
  }

  /** file holds the entries of t: blocks, an index with one separator for each block, and perhaps filters. */
  ghost predicate TableOf(hash: Hasher, k: nat, file: TableFile, t: Shape, handles: seq<Handle>, filters: seq<seq<Bytes>>) {
    && |t.ends| == |t.offs| == |handles| && (exists offset :: ShapeOk(t, offset) && Stored(file.blocks, t, handles, offset))
    && StartOf(t, |t.ends|) == |t.es| && (exists index :: |index| == |t.ends| && IndexOk(t, index, handles) && BlockFor(file.index, index))
    && FilterBlockOf(hash, k, file.filter, t, filters)
  }

  lemma FinishedTable(v: View, index: seq<KV>, file: TableFile, hash: Hasher, k: nat, filters: seq<seq<Bytes>>)
    requires Complete(v, index) && file.blocks == v.blocks && BlockFor(file.index, index) && file.FilterFits()
    requires file.filter.Some? ==> v.filtered && IsFilterBlock(hash, k, file.filter.value, filters)
    requires file.filter.Some? ==> filters == if v.fpending == [] then v.filters else v.filters + [UserParts(v.fpending)]
    ensures TableOf(hash, k, file, v.t, v.handles, filters)
  {
    assert |v.t.ends| == |v.t.offs| == |v.handles|;
    if file.filter.Some? { LastFilter(v.t, v.filters, v.fpending, v.offset, filters); }
    hide ShapeOk, Stored, IndexOk, FiltersOk, BlockFor, IsFilterBlock, AllFiltered;
  }

  // ---------- looking up a key ----------

  /** d is the first of the entries that is not smaller than k. */
  ghost predicate FirstIn(es: seq<KV>, k: Bytes, d: nat) {
    && d <= |es| && (forall x :: 0 <= x < d ==> InternalLess(es[x].key, k))
    && (d < |es| ==> !InternalLess(es[d].key, k))
  }

  lemma {:induction false} SomeFirst(es: seq<KV>, k: Bytes) returns (d: nat)
    ensures FirstIn(es, k, d)
  {
    if es == [] || !InternalLess(es[0].key, k) {
      d := 0;
    } else {
      var d' := SomeFirst(es[1..], k);
      d := d' + 1;
      forall x | 0 <= x < d ensures InternalLess(es[x].key, k) { assert x > 0 ==> es[x] == es[1..][x - 1]; }
      assert d < |es| ==> es[d] == es[1..][d'];
    }
  }

  /** Open a block and seek: the entry found, if any. */
  method SeekBlock(bytes: Bytes, k: Bytes, ghost es: seq<KV>) returns (found: Option<KV>, ghost d: nat)
    requires BlockFor(bytes, es) && SortedBy(ILess, es)
    ensures FirstIn(es, k, d) && found == if d < |es| then Some(es[d]) else None
  {
    InternalIsOrdered();
    ghost var payload, l :| IsBlock(bytes, payload, es, l);
    hide IsBlock, SortedBy, Ordered, InternalLess;
    var it := new Iter(ILess, bytes, es, l, payload);
    it.Seek(k);
    it.ValidIsOnEntry();
    d := it.at;
    found := if it.Valid() then Some(KV(it.key, it.value)) else None;
    IsFirst(it, k);
  }

  lemma IsFirst(it: Iter, k: Bytes)
    requires it.less == ILess && it.FirstAtLeast(k, it.at)
    ensures 0 <= it.at && FirstIn(it.es, k, it.at)
  {
    hide InternalLess;
  }

  lemma SeparatorsSorted(t: Shape, index: seq<KV>, handles: seq<Handle>, offset: nat)
    requires ShapeOk(t, offset) && |handles| == |t.ends| == |index| && IndexOk(t, index, handles)
    ensures SortedBy(ILess, index)
  {
    forall i, j | 0 <= i < j < |index| ensures ILess(index[i].key, index[j].key) {
      assert SepOk(t, i, index[i].key) && SepOk(t, j, index[j].key);
      var x := t.es[t.ends[i]].key;
      assert t.ends[i] < t.ends[j];
      assert InternalLess(index[i].key, x) && !InternalLess(index[j].key, x);
      AtMostThenLess(index[i].key, x, index[j].key);
    }
  }

  lemma AtMostThenLess(a: Bytes, x: Bytes, b: Bytes)
    requires InternalLess(a, x) && !InternalLess(b, x) && |b| >= 8
    ensures InternalLess(a, b)
  {
    UserOrder(UserPart(a), UserPart(x), UserPart(b));
    UserOrder(UserPart(b), UserPart(x), UserPart(a));
    UserOrder(UserPart(x), UserPart(b), UserPart(a));
  }

  /** The parts of a table, with the index that its index block holds. */
  ghost predicate TableWith(hash: Hasher, k: nat, file: TableFile, t: Shape, handles: seq<Handle>, filters: seq<seq<Bytes>>, index: seq<KV>, offset: nat) {
    && |t.ends| == |t.offs| == |handles| == |index| && ShapeOk(t, offset) && Stored(file.blocks, t, handles, offset)
    && StartOf(t, |t.ends|) == |t.es| && IndexOk(t, index, handles) && BlockFor(file.index, index)
    && FilterBlockOf(hash, k, file.filter, t, filters)
  }

  lemma OpenTable(hash: Hasher, k: nat, file: TableFile, t: Shape, handles: seq<Handle>, filters: seq<seq<Bytes>>) returns (index: seq<KV>, offset: nat)
    requires TableOf(hash, k, file, t, handles, filters)
    ensures TableWith(hash, k, file, t, handles, filters, index, offset) && SortedBy(ILess, index)
  {
    index :| |index| == |t.ends| && IndexOk(t, index, handles) && BlockFor(file.index, index);
    offset :| ShapeOk(t, offset) && Stored(file.blocks, t, handles, offset);
    hide Stored, BlockFor, IsFilterBlock, AllFiltered;
    SeparatorsSorted(t, index, handles, offset);
  }

  /** Block i: its handle reads back, its bytes hold its entries, and they are sorted. */
  lemma BlockOf(hash: Hasher, k: nat, file: TableFile, t: Shape, handles: seq<Handle>, filters: seq<seq<Bytes>>, index: seq<KV>, offset: nat, i: nat)
    requires TableWith(hash, k, file, t, handles, filters, index, offset) && i < |index|
    ensures StartOf(t, i) <= t.ends[i] <= |t.es| && t.offs[i] in file.blocks
    ensures DecodeHandle(index[i].value) == Some(Handle(t.offs[i], |file.blocks[t.offs[i]]|))
    ensures BlockFor(file.blocks[t.offs[i]], t.es[StartOf(t, i)..t.ends[i]]) && SortedBy(ILess, t.es[StartOf(t, i)..t.ends[i]])
  {
    hide BlockFor, IsFilterBlock, AllFiltered, SepOk, EncodeHandle, DecodeHandle;
    assert BlockStored(file.blocks, t, handles, i);
    BlockSize(file.blocks[t.offs[i]], t.es[StartOf(t, i)..t.ends[i]]);
    HandleRoundTrip(handles[i]);
  }

  lemma BlockSize(bytes: Bytes, es: seq<KV>)
    requires BlockFor(bytes, es)
    ensures |bytes| < TWO64
  {
  }

  /** If the filter denies the key, no entry of the block has its user key. */
  lemma FilterDenies(hash: Hasher, k: nat, file: TableFile, t: Shape, handles: seq<Handle>, filters: seq<seq<Bytes>>, index: seq<KV>, offset: nat, i: nat, user: Bytes)
    requires TableWith(hash, k, file, t, handles, filters, index, offset) && i < |index|
    requires file.filter.Some? && !(exists p, fs :: FilterBlock.Filtered(hash, p, file.filter.value, fs, t.offs[i], user))
    ensures forall x :: StartOf(t, i) <= x < t.ends[i] && x < |t.es| ==> UserPart(t.es[x].key) != user
  {
    hide ShapeOk, Stored, IndexOk, BlockFor, IsFilterBlock;
    forall x: nat | StartOf(t, i) <= x < t.ends[i] && x < |t.es| ensures UserPart(t.es[x].key) != user {
      assert FilteredAt(t, filters, i, x);
      assert FilterBlock.Filtered(hash, k, file.filter.value, filters, t.offs[i], UserPart(t.es[x].key));
    }
  }

  /** The position found in a block, as a position in the table. */
  lemma LocatedAt(t: Shape, index: seq<KV>, key: Bytes, i: nat, d: nat)
    requires |index| == |t.ends| && FirstIn(index, key, i)
    requires i < |index| ==> StartOf(t, i) <= t.ends[i] <= |t.es| && FirstIn(t.es[StartOf(t, i)..t.ends[i]], key, d)
    ensures Located(t, index, key, i, if i < |index| then StartOf(t, i) + d else 0)
  {
    hide InternalLess;
    if i < |index| {
      var a, block := StartOf(t, i), t.es[StartOf(t, i)..t.ends[i]];
      forall x | a <= x < a + d ensures InternalLess(t.es[x].key, key) { assert t.es[x] == block[x - a]; }
      assert d < |block| ==> t.es[a + d] == block[d];
    }
  }

  /**
   Table::InternalGet, with the saver's test on the user key: the answer of a scan of the whole list, found
   through the index, the filter and one block.
   */
  method InternalGet(hash: Hasher, file: TableFile, key: Bytes, ghost k: nat, ghost t: Shape, ghost handles: seq<Handle>, ghost filters: seq<seq<Bytes>>)
      returns (r: Option<KV>)
    requires TableOf(hash, k, file, t, handles, filters) && |key| >= 8
    ensures Answer(t.es, key, r)
  {
    hide TableOf, TableWith, BlockFor, SortedBy, Located, Answer, FirstIn, InternalLess, UserPart;
    ghost var index, offset := OpenTable(hash, k, file, t, handles, filters);
    IndexBlockFor(hash, k, file, t, handles, filters, index, offset);
    var entry, i := SeekBlock(file.index, key, index);
    IndexBound(index, key, i);
    if entry.None? {
      LocatedAt(t, index, key, i, 0);
      Conclude(hash, k, file, t, handles, filters, index, offset, key, i, 0);
      r := None;
    } else {
      r := GetFromBlock(hash, file, key, entry.value.value, k, t, handles, filters, index, offset, i);
    }
  }

  /** The block that an index entry leads to: ask the filter, then seek in the block. */
  method GetFromBlock(hash: Hasher, file: TableFile, key: Bytes, handleValue: Bytes, ghost k: nat, ghost t: Shape, ghost handles: seq<Handle>,
                      ghost filters: seq<seq<Bytes>>, ghost index: seq<KV>, ghost offset: nat, ghost i: nat)
      returns (r: Option<KV>)
    requires TableWith(hash, k, file, t, handles, filters, index, offset) && |key| >= 8
    requires i < |index| == |t.ends| == |t.offs| && FirstIn(index, key, i) && handleValue == index[i].value
    ensures Answer(t.es, key, r)
  {
    hide TableWith, BlockFor, SortedBy, Located, Answer, FirstIn, DecodeHandle, InternalLess, UserPart;
    BlockOf(hash, k, file, t, handles, filters, index, offset, i);
    var handle := DecodeHandle(handleValue).value;
    var may := true;
    if file.filter.Some? { may := MayMatch(hash, file.filter.value, handle.offset, key); }
    ghost var a, es := StartOf(t, i), t.es[StartOf(t, i)..t.ends[i]];
    if may {
      var found, d := SeekBlock(file.blocks[handle.offset], key, es);
      IndexBound(es, key, d);
      LocatedAt(t, index, key, i, d);
      Conclude(hash, k, file, t, handles, filters, index, offset, key, i, a + d);
      r := if found.Some? && UserPart(found.value.key) == UserPart(key) then found else None;
    } else {
      ghost var d := SomeFirst(es, key);
      LocatedAt(t, index, key, i, d);
      FilterDenies(hash, k, file, t, handles, filters, index, offset, i, UserPart(key));
      Conclude(hash, k, file, t, handles, filters, index, offset, key, i, a + d);
      r := None;
    }
  }

  lemma IndexBound(es: seq<KV>, k: Bytes, d: nat)
    requires FirstIn(es, k, d)
    ensures d <= |es|
  {
  }

  lemma IndexBlockFor(hash: Hasher, k: nat, file: TableFile, t: Shape, handles: seq<Handle>, filters: seq<seq<Bytes>>, index: seq<KV>, offset: nat)
    requires TableWith(hash, k, file, t, handles, filters, index, offset)
    ensures BlockFor(file.index, index) && |index| == |t.ends| == |t.offs|
  {
    hide BlockFor;
  }

  lemma Conclude(hash: Hasher, k: nat, file: TableFile, t: Shape, handles: seq<Handle>, filters: seq<seq<Bytes>>, index: seq<KV>, offset: nat, key: Bytes, i: nat, d: nat)
    requires TableWith(hash, k, file, t, handles, filters, index, offset) && |index| == |t.ends| && Located(t, index, key, i, d) && |key| >= 8
    ensures i <= |index| && (i < |index| ==> d <= t.ends[i] <= |t.es|)
    ensures Answer(t.es, key, if i < |index| && d < t.ends[i] && UserPart(t.es[d].key) == UserPart(key) then Some(t.es[d]) else None)
  {
    hide Stored, BlockFor, IsFilterBlock, AllFiltered;
    IndexFindsAnswer(t, index, handles, offset, key, i, d);
  }
}
