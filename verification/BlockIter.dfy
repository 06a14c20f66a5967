/** Block::Iter of block.cc: a cursor over the entries of a block. */
module BlockIter {
  import opened Keys
  import opened Coding
  import opened Block

  /** The comparator: a is smaller than b. */
  type Less = (Bytes, Bytes) -> bool

  ghost predicate Transitive(less: Less) { forall a, b, c :: less(a, b) && less(b, c) ==> less(a, c) }

  /** a is smaller than b, and every key not less than b is not less than a. */
  ghost predicate Ordered(less: Less) {
    Transitive(less) && forall a, b, t :: less(a, b) && !less(a, t) ==> !less(b, t)
  }

  ghost predicate SortedBy(less: Less, es: seq<KV>) { forall i, j :: 0 <= i < j < |es| ==> less(es[i].key, es[j].key) }

  lemma {:induction false} FixedListSize(rs: seq<nat>)
    ensures |FixedList(rs)| == 4 * |rs|
  {
    if rs != [] { FixedListSize(rs[..|rs| - 1]); }
  }

  lemma {:induction false} FixedListAt(rs: seq<nat>, r: nat)
    requires r < |rs| && forall i :: 0 <= i < |rs| ==> rs[i] < TWO32
    ensures |FixedList(rs)| == 4 * |rs| && DecodeFixed(FixedList(rs)[4 * r..4 * r + 4]) == rs[r]
  {
    FixedListSize(rs);
    var n := |rs| - 1;
    var init, last := FixedList(rs[..n]), Fixed(4, rs[n]);
    FixedListSize(rs[..n]);
    assert FixedList(rs) == init + last;
    if r == n {
      Fixed32RoundTrip(rs[n]);
      hide Fixed, DecodeFixed, FixedList;
      assert (init + last)[4 * r..4 * r + 4] == last;
    } else {
      FixedListAt(rs[..n], r);
      hide Fixed, DecodeFixed, FixedList;
      assert (init + last)[4 * r..4 * r + 4] == init[4 * r..4 * r + 4];
    }
  }

  /** GetRestartPoint and NumRestarts, as read from the block. */
  function RestartPoint(block: Bytes, limit: nat, r: nat): nat
    requires limit + 4 * r + 4 <= |block|
  {
    DecodeFixed(block[limit + 4 * r..limit + 4 * r + 4])
  }

  function NumRestarts(block: Bytes): nat
    requires 4 <= |block|
  {
    DecodeFixed(block[|block| - 4..])
  }

  /** What the reader gets out of the tail of a block. */
  lemma BlockTail(block: Bytes, data: Bytes, es: seq<KV>, l: Layout)
    requires IsBlock(block, data, es, l) && |block| < TWO32
    ensures |block| == |data| + 4 * |l.marks| + 4 && NumRestarts(block) == |l.marks| && block[..|data|] == data
    ensures forall r :: 0 <= r < |l.marks| ==> RestartPoint(block, |data|, r) == l.offs[l.marks[r]]
  {
    var rs := RestartsOf(l);
    var list, count := FixedList(rs), Fixed(4, |l.marks|);
    forall r | 0 <= r < |rs| ensures rs[r] <= |data| { OffsetsInRange(data, es, l, l.marks[r]); }
    FixedListSize(rs);
    Fixed32RoundTrip(|l.marks|);
    hide Fixed, DecodeFixed, Encodes, FixedList;
    assert block[|block| - 4..] == count;
    forall r | 0 <= r < |l.marks| ensures RestartPoint(block, |data|, r) == rs[r] {
      FixedListAt(rs, r);
      assert block[|data| + 4 * r..|data| + 4 * r + 4] == list[4 * r..4 * r + 4];
    }
  }

  lemma OffsetsInRange(data: Bytes, es: seq<KV>, l: Layout, i: nat)
    requires Encodes(data, es, l) && i < |l.offs|
    ensures l.offs[i] <= |data|
  {
    assert i == |es| || l.offs[i] < l.offs[|es|];
  }

  /** Entry j decodes at its offset, given any key that agrees on the shared part. */
  lemma DecodeAt(data: Bytes, es: seq<KV>, l: Layout, j: nat, key: Bytes)
    requires Encodes(data, es, l) && Small(es) && j < |es|
    requires l.shared[j] <= |key| && l.shared[j] <= |es[j].key| && key[..l.shared[j]] == es[j].key[..l.shared[j]]
    ensures l.offs[j] < l.offs[j + 1] <= |data|
    ensures var d := DecodeEntry(data[l.offs[j]..]);
            d.Some? && d.value.shared == l.shared[j]
            && key[..d.value.shared] + d.value.rest[..d.value.nonShared] == es[j].key
            && d.value.rest[d.value.nonShared..d.value.nonShared + d.value.valueLength] == es[j].value
            && |data| - |d.value.rest| + d.value.nonShared + d.value.valueLength == l.offs[j + 1]
  {
    assert EntryAt(data, es, l, j);
    var a, b, k, v := l.offs[j], l.offs[j + 1], es[j].key, es[j].value;
    var delta := k[l.shared[j]..];
    var bytes := EntryBytes(l.shared[j], delta, v);
    assert data[a..] == bytes + data[b..];
    DecodeOfEntry(l.shared[j], delta, v, data[b..]);
    hide DecodeEntry, EntryBytes;
    var rest := delta + v + data[b..];
    assert rest[..|delta|] == delta && rest[|delta|..|delta| + |v|] == v;
    assert key[..l.shared[j]] + delta == k;
  }

  class Iter {
    const less: Less
    const data: Bytes          // the whole block
    const limit: nat           // restarts_: where the restart array begins
    const numRestarts: nat
    var current: nat
    var restartIndex: nat
    var key: Bytes
    var value: Bytes           // value_, and where it ends
    var valueEnd: nat
    var corrupt: bool
    ghost const es: seq<KV>
    ghost const l: Layout
    ghost var at: int          // the entry the iterator is on; |es| if none

    /** The block is well formed. */
    ghost predicate Wf() {
      && limit <= |data| < TWO32 && Encodes(data[..limit], es, l) && Small(es) && |l.offs| == |es| + 1 && |l.shared| == |es|
      && (forall r :: 0 <= r < |l.marks| ==> l.marks[r] < |l.offs|)
      && numRestarts == |l.marks| && limit + 4 * numRestarts + 4 == |data|
      && (forall r :: 0 <= r < numRestarts ==> RestartPoint(data, limit, r) == l.offs[l.marks[r]])
    }

    /** The restart block of entry j; a restart point may be counted to the block before it. */
    ghost predicate InRestart(r: nat, j: nat)
      requires Wf()
    {
      r < numRestarts && l.marks[r] <= j && (r + 1 < numRestarts ==> j <= l.marks[r + 1])
    }

    ghost predicate Inv()
      reads this
    {
      && Wf() && !corrupt && 0 <= at <= |es|
      && (at == |es| ==> current == limit)
      && (at < |es| ==> current == l.offs[at] && key == es[at].key && value == es[at].value
                        && valueEnd == l.offs[at + 1] && InRestart(restartIndex, at))
    }

    predicate Valid()
      reads this
    {
      current < limit
    }

    /** The iterator is valid exactly on an entry. */
    lemma ValidIsOnEntry()
      requires Inv()
      ensures Valid() <==> at < |es|
      ensures Valid() ==> key == es[at].key && value == es[at].value
    {
      assert at < |es| ==> l.offs[at] < l.offs[|es|];
    }

    constructor (less: Less, data: Bytes, ghost es: seq<KV>, ghost l: Layout, ghost payload: Bytes)
      requires IsBlock(data, payload, es, l) && |data| < TWO32 && Small(es)
      ensures Inv() && at == |es| && this.less == less && this.es == es && this.data == data
    {
      BlockTail(data, payload, es, l);
      this.less, this.data := less, data;
      numRestarts := NumRestarts(data);
      limit := |data| - (1 + NumRestarts(data)) * 4;
      current, restartIndex := |data| - (1 + NumRestarts(data)) * 4, NumRestarts(data);
      key, value, valueEnd, corrupt := [], [], 0, false;
      this.es, this.l, at := es, l, |es|;
    }

    /** ParseNextKey is about to read entry j. */
    ghost predicate Ready(j: nat)
      reads this
    {
      && Wf() && !corrupt && j <= |es| && valueEnd == l.offs[j]
      && (j < |es| ==> restartIndex < numRestarts && l.marks[restartIndex] <= j
                       && l.shared[j] <= |key| && l.shared[j] <= |es[j].key| && key[..l.shared[j]] == es[j].key[..l.shared[j]])
    }

    lemma NextReady()
      requires Inv() && at < |es|
      ensures Ready(at + 1)
    {
      if at + 1 < |es| { assert EntryAt(data[..limit], es, l, at + 1); }
    }

    method SeekToRestartPoint(index: nat)
      requires Wf() && !corrupt && index < numRestarts
      modifies this
      ensures Ready(l.marks[index]) && restartIndex == index && at == old(at)
    {
      key := [];
      restartIndex := index;
      valueEnd := RestartPoint(data, limit, index);
      value := [];
    }

    method ParseNextKey(ghost j: nat) returns (found: bool)
      requires Ready(j)
      modifies this
      ensures Inv() && at == j && (found <==> j < |es|) && (found ==> valueEnd == l.offs[j + 1])
    {
      hide Encodes, Small;
      current := valueEnd;
      at := j;
      EndOfData(j);
      if current >= limit {
        current, restartIndex := limit, numRestarts;
        return false;
      }
      assert data[..limit][current..] == data[current..limit];
      ReadEntry(j);
      SkipRestarts(j);
      found := true;
    }

    lemma EndOfData(j: nat)
      requires Wf() && j <= |es|
      ensures l.offs[j] >= limit <==> j == |es|
      ensures j == |es| ==> l.offs[j] == limit
    {
      assert j < |es| ==> l.offs[j] < l.offs[|es|];
    }

    /** Decode the entry at current. */
    method ReadEntry(ghost j: nat)
      requires Wf() && j < |es| && current == l.offs[j] < limit
      requires l.shared[j] <= |key| && l.shared[j] <= |es[j].key| && key[..l.shared[j]] == es[j].key[..l.shared[j]]
      modifies `key, `value, `valueEnd
      ensures key == es[j].key && value == es[j].value && valueEnd == l.offs[j + 1]
    {
      assert data[..limit][current..] == data[current..limit];
      DecodeAt(data[..limit], es, l, j, key);
      hide DecodeEntry, Encodes, Small;
      var d := DecodeEntry(data[current..limit]);
      if d.None? || |key| < d.value.shared {
        assert false;  // the entries of a well-formed block decode
      }
      key := key[..d.value.shared] + d.value.rest[..d.value.nonShared];
      value := d.value.rest[d.value.nonShared..d.value.nonShared + d.value.valueLength];
      valueEnd := limit - |d.value.rest| + d.value.nonShared + d.value.valueLength;
    }

    /** restart_index_ moves up while the next restart point lies before the entry. */
    method SkipRestarts(ghost j: nat)
      requires Wf() && j < |es| && restartIndex < numRestarts && l.marks[restartIndex] <= j && current == l.offs[j]
      modifies `restartIndex
      ensures InRestart(restartIndex, j)
    {
      while restartIndex + 1 < numRestarts && RestartPoint(data, limit, restartIndex + 1) < current
        invariant restartIndex < numRestarts && l.marks[restartIndex] <= j
        decreases numRestarts - restartIndex
      {
        OffsetOrder(restartIndex + 1, j);
        restartIndex := restartIndex + 1;
      }
      if restartIndex + 1 < numRestarts { OffsetOrder(restartIndex + 1, j); }
    }

    lemma OffsetOrder(r: nat, j: nat)
      requires Wf() && r < numRestarts && j <= |es|
      ensures l.offs[l.marks[r]] < l.offs[j] <==> l.marks[r] < j
    {
    }

    method SeekToFirst()
      requires Inv()
      modifies this
      ensures Inv() && at == 0
    {
      SeekToRestartPoint(0);
      var _ := ParseNextKey(0);
    }

    method SeekToLast()
      requires Inv()
      modifies this
      ensures Inv() && at == if es == [] then 0 else |es| - 1
    {
      SeekToRestartPoint(numRestarts - 1);
      ghost var j := l.marks[numRestarts - 1];
      var found := ParseNextKey(j);
      while found && valueEnd < limit
        invariant Inv() && at == j <= |es| && (found <==> j < |es|) && (found ==> valueEnd == l.offs[j + 1]) && (es != [] ==> found)
        decreases |es| - j
      {
        NextReady();
        LastEntry(j);
        j := j + 1;
        found := ParseNextKey(j);
      }
      if es != [] { LastEntry(j); }
    }

    /** The end of an entry is the end of the data exactly for the last one. */
    lemma LastEntry(j: nat)
      requires Wf() && j < |es|
      ensures l.offs[j + 1] < limit <==> j + 1 < |es|
    {
      assert j + 1 < |es| ==> l.offs[j + 1] < l.offs[|es|];
    }

    method Next()
      requires Inv() && at < |es|
      modifies this
      ensures Inv() && at == old(at) + 1
    {
      NextReady();
      var _ := ParseNextKey(at + 1);
    }

    method Prev()
      requires Inv() && at < |es|
      modifies this
      ensures Inv() && at == if old(at) == 0 then |es| else old(at) - 1
    {
      hide Encodes, Small;
      var original := current;
      ghost var i := at;
      var more := BackToRestart(original);
      if more { ScanUpTo(original, i); }
    }

    /** Find a restart point before the entry at original. */
    method BackToRestart(original: nat) returns (more: bool)
      requires Inv() && at < |es| && original == current
      modifies this
      ensures if more then Wf() && !corrupt && at == old(at) && restartIndex < numRestarts && l.marks[restartIndex] < at
              else Inv() && old(at) == 0 && at == |es|
    {
      hide Encodes, Small;
      ghost var i := at;
      while RestartPoint(data, limit, restartIndex) >= original
        invariant Wf() && !corrupt && at == i && restartIndex < numRestarts && l.marks[restartIndex] <= i
        decreases restartIndex
      {
        OffsetOrder(restartIndex, i);
        if restartIndex == 0 {
          current, restartIndex := limit, numRestarts;
          at := |es|;
          FirstMark();
          return false;
        }
        restartIndex := restartIndex - 1;
        MarkOrder(restartIndex);
      }
      OffsetOrder(restartIndex, i);
      return true;
    }

    lemma FirstMark()
      requires Wf()
      ensures l.marks[0] == 0
    {
    }

    lemma MarkOrder(r: nat)
      requires Wf() && r + 1 < numRestarts
      ensures l.marks[r] < l.marks[r + 1]
    {
    }

    /** Read entries from the restart point on, until one ends where the original entry starts. */
    method ScanUpTo(original: nat, ghost i: nat)
      requires Wf() && !corrupt && restartIndex < numRestarts && l.marks[restartIndex] < i < |es| && original == l.offs[i]
      modifies this
      ensures Inv() && at == i - 1
    {
      hide Encodes, Small;
      SeekToRestartPoint(restartIndex);
      ghost var j := l.marks[restartIndex];
      var found := ParseNextKey(j);
      EntryOrder(j + 1, i);
      while found && valueEnd < original
        invariant Inv() && at == j < i && found && valueEnd == l.offs[j + 1] && (l.offs[j + 1] < l.offs[i] <==> j + 1 < i)
        decreases i - j
      {
        NextReady();
        j := j + 1;
        found := ParseNextKey(j);
        EntryOrder(j + 1, i);
      }
    }

    lemma EntryOrder(a: nat, b: nat)
      requires Wf() && a <= |es| && b <= |es|
      ensures l.offs[a] < l.offs[b] <==> a < b
    {
    }

    /** The first key that is not less than the target. */
    ghost predicate FirstAtLeast(target: Bytes, i: int) {
      && 0 <= i <= |es| && (forall j :: 0 <= j < i ==> less(es[j].key, target))
      && (i < |es| ==> !less(es[i].key, target))
    }

    method Seek(target: Bytes)
      requires Inv() && SortedBy(less, es) && Ordered(less)
      modifies this
      ensures Inv() && FirstAtLeast(target, at)
    {
      hide Encodes, Small, SortedBy, Ordered;
      var left := FindRestart(target);
      SeekToRestartPoint(left);
      ghost var j := l.marks[left];
      while true
        invariant Ready(j) && forall i :: 0 <= i < j ==> less(es[i].key, target)
        decreases |es| - j
      {
        var found := ParseNextKey(j);
        if !found { return; }
        if !less(key, target) { return; }
        NextReady();
        j := j + 1;
      }
    }

    /** The binary search: the last restart point with a key less than the target, or the first. */
    method FindRestart(target: Bytes) returns (left: nat)
      requires Inv() && SortedBy(less, es) && Ordered(less)
      ensures left < numRestarts && forall i :: 0 <= i < l.marks[left] && i < |es| ==> less(es[i].key, target)
      ensures l.marks[left] <= |es|
    {
      left := 0;
      var right := numRestarts - 1;
      while left < right
        invariant 0 <= left <= right < numRestarts
        invariant left > 0 ==> l.marks[left] < |es| && less(es[l.marks[left]].key, target)
        decreases right - left
      {
        var mid := (left + right + 1) / 2;
        var midKey := RestartKey(mid);
        if less(midKey, target) {
          left := mid;
        } else {
          right := mid - 1;
        }
      }
    }

    /** The key at a restart point, decoded without the keys before it. */
    method RestartKey(r: nat) returns (k: Bytes)
      requires Wf() && r < numRestarts && 0 < r
      ensures l.marks[r] < |es| && k == es[l.marks[r]].key
    {
      ghost var j := l.marks[r];
      assert |es| > 0;
      var offset := RestartPoint(data, limit, r);
      EndOfData(j);
      assert data[..limit][offset..] == data[offset..limit];
      DecodeAt(data[..limit], es, l, j, []);
      hide DecodeEntry, Encodes, Small;
      var d := DecodeEntry(data[offset..limit]);
      if d.None? || d.value.shared != 0 {
        assert false;  // an entry at a restart point shares nothing
      }
      k := d.value.rest[..d.value.nonShared];
      assert [] + k == k;
    }
  }
}
