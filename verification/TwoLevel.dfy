/** two_level_iterator.cc: an index of blocks read as one list, even when some blocks are empty. */
module TwoLevel {
  import opened Keys
  import opened Tables

  type Handle = Bytes

  datatype IndexEntry = IndexEntry(key: IKey, handle: Handle)

  /** The block function: what a handle leads to. */
  type BlockFunction = Handle -> seq<Entry>

  /** The first n blocks one after the other. */
  function Flat(index: seq<IndexEntry>, block: BlockFunction, n: nat): seq<Entry>
    requires n <= |index|
  {
    if n == 0 then [] else Flat(index, block, n - 1) + block(index[n - 1].handle)
  }

  lemma {:induction false} FlatPrefix(index: seq<IndexEntry>, block: BlockFunction, m: nat, n: nat)
    requires m <= n <= |index|
    ensures Flat(index, block, m) <= Flat(index, block, n)
  {
    if m < n { FlatPrefix(index, block, m, n - 1); }
  }

  /** Entry d of block i, in the whole list. */
  lemma FlatAt(index: seq<IndexEntry>, block: BlockFunction, i: nat, d: nat)
    requires i < |index| && d < |block(index[i].handle)|
    ensures var g := |Flat(index, block, i)| + d;
            g < |Flat(index, block, |index|)| && Flat(index, block, |index|)[g] == block(index[i].handle)[d]
  {
    FlatPrefix(index, block, i + 1, |index|);
    assert Flat(index, block, i + 1)[|Flat(index, block, i)| + d] == block(index[i].handle)[d];
  }

  /** Each index key is at least every key of its block and less than every key of a later block. */
  ghost predicate Separators(index: seq<IndexEntry>, block: BlockFunction) {
    && (forall i, d :: 0 <= i < |index| && 0 <= d < |block(index[i].handle)| ==> !Before(index[i].key, block(index[i].handle)[d].Key()))
    && (forall i, j, d :: 0 <= i < j < |index| && 0 <= d < |block(index[j].handle)| ==> Before(index[i].key, block(index[j].handle)[d].Key()))
    && (forall i, j :: 0 <= i < j < |index| ==> Before(index[i].key, index[j].key))
  }

  function SeekIndexKey(index: seq<IndexEntry>, k: IKey): (i: nat)
    ensures i <= |index|
    ensures forall j :: 0 <= j < i ==> Before(index[j].key, k)
    ensures i < |index| ==> !Before(index[i].key, k)
  {
    if index == [] || !Before(index[0].key, k) then 0
    else
      var i := SeekIndexKey(index[1..], k);
      assert forall j :: 0 < j <= i ==> index[j] == index[1..][j - 1];
      1 + i
  }

  lemma {:induction false} EarlierBlocksBefore(index: seq<IndexEntry>, block: BlockFunction, n: nat, target: IKey, g: nat)
    requires n <= |index| && Separators(index, block) && (forall i :: 0 <= i < n ==> Before(index[i].key, target))
    requires g < |Flat(index, block, n)|
    ensures Before(Flat(index, block, n)[g].Key(), target)
  {
    if g < |Flat(index, block, n - 1)| {
      EarlierBlocksBefore(index, block, n - 1, target, g);
    } else {
      var e := block(index[n - 1].handle)[g - |Flat(index, block, n - 1)|];
      assert Flat(index, block, n)[g] == e;
      BeforeIsStrictTotalOrder(e.Key(), index[n - 1].key, target);
    }
  }

  /** The entry after the first n blocks lies in a later block. */
  lemma {:induction false} LaterBlock(index: seq<IndexEntry>, block: BlockFunction, n: nat, m: nat) returns (j: nat, d: nat)
    requires n <= m <= |index| && |Flat(index, block, n)| < |Flat(index, block, m)|
    ensures n <= j < m && d < |block(index[j].handle)| && Flat(index, block, m)[|Flat(index, block, n)|] == block(index[j].handle)[d]
    decreases m
  {
    var g := |Flat(index, block, n)|;
    if g < |Flat(index, block, m - 1)| {
      j, d := LaterBlock(index, block, n, m - 1);
    } else {
      FlatPrefix(index, block, n, m - 1);
      j, d := m - 1, 0;
    }
  }

  lemma SeekIsUnique(es: seq<Entry>, k: IKey, g: nat)
    requires g <= |es| && (forall j :: 0 <= j < g ==> Before(es[j].Key(), k)) && (g < |es| ==> !Before(es[g].Key(), k))
    ensures g == SeekIndex(es, k)
  {
    var i := SeekIndex(es, k);
  }

  /** Seeking the index and then the block is seeking the whole list. */
  lemma SeekBoth(index: seq<IndexEntry>, block: BlockFunction, target: IKey)
    requires Separators(index, block)
    ensures var i := SeekIndexKey(index, target);
            SeekIndex(Flat(index, block, |index|), target)
            == |Flat(index, block, i)| + if i < |index| then SeekIndex(block(index[i].handle), target) else 0
  {
    var i, all := SeekIndexKey(index, target), Flat(index, block, |index|);
    var d := if i < |index| then SeekIndex(block(index[i].handle), target) else 0;
    var g := |Flat(index, block, i)| + d;
    FlatPrefix(index, block, i, |index|);
    if i < |index| { FlatPrefix(index, block, i + 1, |index|); }
    forall j | 0 <= j < g ensures j < |all| && Before(all[j].Key(), target) {
      if j < |Flat(index, block, i)| {
        EarlierBlocksBefore(index, block, i, target, j);
      } else {
        FlatAt(index, block, i, j - |Flat(index, block, i)|);
      }
    }
    if g < |all| {
      if i < |index| && d < |block(index[i].handle)| {
        FlatAt(index, block, i, d);
      } else {
        var n := if i < |index| then i + 1 else i;
        assert g == |Flat(index, block, n)|;
        var j, x := LaterBlock(index, block, n, |index|);
        BeforeIsStrictTotalOrder(index[i].key, block(index[j].handle)[x].Key(), target);
      }
    }
    SeekIsUnique(all, target, g);
  }

  class TwoLevelIterator {
    const index: seq<IndexEntry>
    const block: BlockFunction
    var ip: int                        // where index_iter_ stands
    var data: Option<seq<Entry>>       // data_iter_, None for NULL
    var dp: int                        // where data_iter_ stands
    var dataHandle: Handle             // data_block_handle_
    ghost var at: int                  // position in the whole list

    ghost function All(): seq<Entry> { Flat(index, block, |index|) }

    ghost predicate Built()
      reads this
    {
      -1 <= ip <= |index| && (data.Some? ==> data.value == block(dataHandle))
    }

    predicate Valid()
      reads this
    {
      data.Some? && 0 <= dp < |data.value|
    }

    /** The data iterator belongs to the current index entry, and at says where that is in the whole list. */
    ghost predicate OnBlock()
      reads this
    {
      && Built() && (data.Some? <==> 0 <= ip < |index|)
      && (data.Some? ==> dataHandle == index[ip].handle && -1 <= dp <= |data.value|
                         && at == |Flat(index, block, ip)| + dp)
      && (ip == |index| ==> at == |All()|) && (ip == -1 ==> at == -1)
    }

    ghost predicate Inv()
      reads this
    {
      Built() && (Valid() ==> OnBlock())
    }

    function Current(): Entry
      reads this
      requires Valid()
    {
      data.value[dp]
    }

    constructor (index: seq<IndexEntry>, block: BlockFunction)
      ensures Inv() && !Valid() && this.index == index && this.block == block
    {
      this.index, this.block := index, block;
      ip, data, dp, dataHandle, at := -1, None, -1, [], -1;
    }

    lemma Shows()
      requires Inv() && Valid()
      ensures 0 <= at < |All()| && Current() == All()[at]
    {
      FlatAt(index, block, ip, dp);
    }

    method InitDataBlock()
      requires Built()
      modifies `data, `dataHandle, `dp
      ensures Built() && (data.Some? <==> 0 <= ip < |index|) && (data.Some? ==> dataHandle == index[ip].handle)
    {
      if !(0 <= ip < |index|) {
        data := None;
      } else {
        var handle := index[ip].handle;
        if data.Some? && handle == dataHandle {
        } else {
          dataHandle := handle;
          data, dp := Some(block(handle)), -1;
        }
      }
    }

    method SkipEmptyDataBlocksForward()
      requires OnBlock() && ip >= 0 && (data.Some? ==> 0 <= dp)
      modifies `ip, `data, `dataHandle, `dp
      ensures Inv() && at == old(at) && (Valid() <==> at < |All()|) && 0 <= at <= |All()|
    {
      while data.None? || !(0 <= dp < |data.value|)
        invariant OnBlock() && at == old(at) && 0 <= ip && (data.Some? ==> 0 <= dp)
        decreases |index| - ip
      {
        if !(0 <= ip < |index|) {
          data := None;
          return;
        }
        ip := ip + 1;
        InitDataBlock();
        if data.Some? { dp := 0; }
      }
      FlatAt(index, block, ip, dp);
    }

    method SkipEmptyDataBlocksBackward()
      requires OnBlock() && ip < |index| && (data.Some? ==> dp < |data.value|)
      modifies `ip, `data, `dataHandle, `dp
      ensures Inv() && at == old(at) && (Valid() <==> at >= 0) && -1 <= at < |All()|
    {
      while data.None? || !(0 <= dp < |data.value|)
        invariant OnBlock() && at == old(at) && ip < |index| && (data.Some? ==> dp < |data.value|)
        decreases ip + 1
      {
        if !(0 <= ip < |index|) {
          data := None;
          return;
        }
        ip := ip - 1;
        InitDataBlock();
        if data.Some? { dp := |data.value| - 1; }
      }
      FlatAt(index, block, ip, dp);
    }

    method Seek(target: IKey)
      requires Inv() && Separators(index, block)
      modifies this
      ensures Inv() && at == SeekIndex(All(), target) && (Valid() <==> at < |All()|)
    {
      ip := SeekIndexKey(index, target);
      SeekBoth(index, block, target);
      InitDataBlock();
      if data.Some? { dp := SeekIndex(data.value, target); }
      at := SeekIndex(All(), target);
      SkipEmptyDataBlocksForward();
    }

    method SeekToFirst()
      requires Inv()
      modifies this
      ensures Inv() && at == 0 && (Valid() <==> at < |All()|)
    {
      ip := 0;
      InitDataBlock();
      if data.Some? { dp := 0; }
      at := 0;
      SkipEmptyDataBlocksForward();
    }

    method SeekToLast()
      requires Inv()
      modifies this
      ensures Inv() && at == |All()| - 1 && (Valid() <==> at >= 0)
    {
      ip := |index| - 1;
      InitDataBlock();
      if data.Some? { dp := |data.value| - 1; }
      at := |All()| - 1;
      SkipEmptyDataBlocksBackward();
    }

    method Next()
      requires Inv() && Valid()
      modifies this
      ensures Inv() && at == old(at) + 1 && (Valid() <==> at < |All()|)
    {
      dp := dp + 1;
      at := at + 1;
      SkipEmptyDataBlocksForward();
    }

    method Prev()
      requires Inv() && Valid()
      modifies this
      ensures Inv() && at == old(at) - 1 && (Valid() <==> at >= 0)
    {
      dp := dp - 1;
      at := at - 1;
      SkipEmptyDataBlocksBackward();
    }
  }
}
