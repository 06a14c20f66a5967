/** merger.cc: a cursor over the sorted union of its children. */
module Merger {
  import opened Keys
  import opened Tables

  datatype Direction = Forward | Reverse

  ghost predicate InUnion(lists: seq<seq<Entry>>, e: Entry) { exists i :: 0 <= i < |lists| && e in lists[i] }

  /** Each child is sorted, and no two children hold the same internal key. */
  ghost predicate DistinctChildren(lists: seq<seq<Entry>>) {
    && (forall i :: 0 <= i < |lists| ==> Sorted(lists[i]))
    && (forall i, j, x, y :: 0 <= i < |lists| && 0 <= j < |lists| && i != j && 0 <= x < |lists[i]| && 0 <= y < |lists[j]|
                             ==> lists[i][x].Key() != lists[j][y].Key())
  }

  /** A cut of the key order: everything before a low key is low. */
  type Cut = IKey -> bool

  ghost predicate IsCut(low: Cut) { forall a, b :: low(b) && Before(a, b) ==> low(a) }

  /** Each child i has its low entries before q[i] and the others from there on. */
  ghost predicate SplitBy(lists: seq<seq<Entry>>, q: seq<int>, low: Cut) {
    && |q| == |lists|
    && (forall i :: 0 <= i < |lists| ==> 0 <= q[i] <= |lists[i]|)
    && (forall i, j :: 0 <= i < |lists| && 0 <= j < q[i] ==> low(lists[i][j].Key()))
    && (forall i, j :: 0 <= i < |lists| && q[i] <= j < |lists[i]| ==> !low(lists[i][j].Key()))
  }

  /** e is the smallest entry of the union that is not low. */
  ghost predicate LeastHigh(lists: seq<seq<Entry>>, low: Cut, e: Entry) {
    && InUnion(lists, e) && !low(e.Key())
    && forall x :: InUnion(lists, x) && !low(x.Key()) ==> x == e || Before(e.Key(), x.Key())
  }

  ghost predicate GreatestLow(lists: seq<seq<Entry>>, low: Cut, e: Entry) {
    && InUnion(lists, e) && low(e.Key())
    && forall x :: InUnion(lists, x) && low(x.Key()) ==> x == e || Before(x.Key(), e.Key())
  }

  ghost predicate AllLow(lists: seq<seq<Entry>>, low: Cut) { forall x :: InUnion(lists, x) ==> low(x.Key()) }

  ghost predicate NoneLow(lists: seq<seq<Entry>>, low: Cut) { forall x :: InUnion(lists, x) ==> !low(x.Key()) }

  function UpTo(k: IKey): Cut { x => !Before(k, x) }

  function Below(k: IKey): Cut { x => Before(x, k) }

  lemma CutsAreCuts(k: IKey)
    ensures IsCut(UpTo(k)) && IsCut(Below(k))
  {
    forall a, b | Before(a, b) ensures (UpTo(k)(b) ==> UpTo(k)(a)) && (Below(k)(b) ==> Below(k)(a)) {
      BeforeIsStrictTotalOrder(a, b, k);
      BeforeIsStrictTotalOrder(k, a, b);
    }
  }

  function Plus(pos: seq<int>): seq<int> { seq(|pos|, i requires 0 <= i < |pos| => pos[i] + 1) }

  predicate ValidAt(list: seq<Entry>, p: int) { 0 <= p < |list| }

  /** cur is the child with the smallest current entry, or -1 if no child is valid. */
  ghost predicate Smallest(lists: seq<seq<Entry>>, pos: seq<int>, cur: int, n: int)
    requires |pos| == |lists| && 0 <= n <= |lists|
  {
    && -1 <= cur < n
    && (cur >= 0 ==> ValidAt(lists[cur], pos[cur]))
    && (forall i :: 0 <= i < n && ValidAt(lists[i], pos[i]) ==>
          cur >= 0 && !Before(lists[i][pos[i]].Key(), lists[cur][pos[cur]].Key()))
  }

  ghost predicate Largest(lists: seq<seq<Entry>>, pos: seq<int>, cur: int, n: int)
    requires |pos| == |lists| && 0 <= n <= |lists|
  {
    && (cur == -1 || n <= cur < |lists|)
    && (cur >= 0 ==> ValidAt(lists[cur], pos[cur]))
    && (forall i :: n <= i < |lists| && ValidAt(lists[i], pos[i]) ==>
          cur >= 0 && !Before(lists[cur][pos[cur]].Key(), lists[i][pos[i]].Key()))
  }

  /** With the children split at a cut, the smallest child is on the smallest entry above the cut. */
  lemma SmallestIsLeast(lists: seq<seq<Entry>>, pos: seq<int>, cur: int, low: Cut)
    requires DistinctChildren(lists) && SplitBy(lists, pos, low) && Smallest(lists, pos, cur, |lists|)
    ensures if cur >= 0 then LeastHigh(lists, low, lists[cur][pos[cur]]) else AllLow(lists, low)
  {
    forall x | InUnion(lists, x) && !low(x.Key())
      ensures cur >= 0 && (x == lists[cur][pos[cur]] || Before(lists[cur][pos[cur]].Key(), x.Key()))
    {
      var i :| 0 <= i < |lists| && x in lists[i];
      var j :| 0 <= j < |lists[i]| && lists[i][j] == x;
      HighEntry(lists, pos, cur, i, j);
    }
  }

  lemma HighEntry(lists: seq<seq<Entry>>, pos: seq<int>, cur: int, i: int, j: int)
    requires DistinctChildren(lists) && |pos| == |lists| && Smallest(lists, pos, cur, |lists|)
    requires 0 <= i < |lists| && 0 <= pos[i] <= j < |lists[i]|
    ensures cur >= 0 && ((i == cur && j == pos[cur]) || Before(lists[cur][pos[cur]].Key(), lists[i][j].Key()))
  {
    assert ValidAt(lists[i], pos[i]);
    var k, a, b := lists[cur][pos[cur]].Key(), lists[i][pos[i]].Key(), lists[i][j].Key();
    BeforeIsStrictTotalOrder(k, a, b);
    assert j == pos[i] || Before(a, b);
  }

  lemma LargestIsGreatest(lists: seq<seq<Entry>>, pos: seq<int>, cur: int, low: Cut)
    requires DistinctChildren(lists) && SplitBy(lists, Plus(pos), low) && |pos| == |lists| && Largest(lists, pos, cur, 0)
    ensures if cur >= 0 then GreatestLow(lists, low, lists[cur][pos[cur]]) else NoneLow(lists, low)
  {
    if cur >= 0 { assert pos[cur] < Plus(pos)[cur]; }
    forall x | InUnion(lists, x) && low(x.Key())
      ensures cur >= 0 && (x == lists[cur][pos[cur]] || Before(x.Key(), lists[cur][pos[cur]].Key()))
    {
      var i :| 0 <= i < |lists| && x in lists[i];
      var j :| 0 <= j < |lists[i]| && lists[i][j] == x;
      assert j < Plus(pos)[i] <= |lists[i]|;
      LowEntry(lists, pos, cur, i, j);
    }
  }

  lemma LowEntry(lists: seq<seq<Entry>>, pos: seq<int>, cur: int, i: int, j: int)
    requires DistinctChildren(lists) && |pos| == |lists| && Largest(lists, pos, cur, 0)
    requires 0 <= i < |lists| && 0 <= j <= pos[i] < |lists[i]|
    ensures cur >= 0 && ((i == cur && j == pos[cur]) || Before(lists[i][j].Key(), lists[cur][pos[cur]].Key()))
  {
    assert ValidAt(lists[i], pos[i]);
    var k, a, b := lists[cur][pos[cur]].Key(), lists[i][pos[i]].Key(), lists[i][j].Key();
    BeforeIsStrictTotalOrder(b, a, k);
    assert j == pos[i] || Before(b, a);
  }

  /** The split by any cut below the smallest child is also the split just below its entry. */
  lemma Resplit(lists: seq<seq<Entry>>, pos: seq<int>, cur: int, low: Cut)
    requires DistinctChildren(lists) && SplitBy(lists, pos, low) && IsCut(low) && Smallest(lists, pos, cur, |lists|) && cur >= 0
    ensures SplitBy(lists, pos, Below(lists[cur][pos[cur]].Key()))
  {
    var k := lists[cur][pos[cur]].Key();
    forall i, j | 0 <= i < |lists| && 0 <= j < pos[i] ensures Below(k)(lists[i][j].Key()) {
      BeforeIsStrictTotalOrder(k, lists[i][j].Key(), k);
    }
    forall i, j | 0 <= i < |lists| && pos[i] <= j < |lists[i]| ensures !Below(k)(lists[i][j].Key()) {
      HighEntry(lists, pos, cur, i, j);
      BeforeIsStrictTotalOrder(k, lists[i][j].Key(), k);
    }
  }

  lemma ResplitReverse(lists: seq<seq<Entry>>, pos: seq<int>, cur: int, low: Cut)
    requires DistinctChildren(lists) && |pos| == |lists| && SplitBy(lists, Plus(pos), low) && IsCut(low)
    requires Largest(lists, pos, cur, 0) && cur >= 0
    ensures SplitBy(lists, Plus(pos), UpTo(lists[cur][pos[cur]].Key()))
  {
    var k, q := lists[cur][pos[cur]].Key(), Plus(pos);
    assert pos[cur] < q[cur];
    forall i, j | 0 <= i < |lists| && 0 <= j < q[i] ensures UpTo(k)(lists[i][j].Key()) {
      LowEntry(lists, pos, cur, i, j);
      BeforeIsStrictTotalOrder(k, lists[i][j].Key(), k);
    }
    forall i, j | 0 <= i < |lists| && q[i] <= j < |lists[i]| ensures !UpTo(k)(lists[i][j].Key()) {
      BeforeIsStrictTotalOrder(k, lists[i][j].Key(), k);
    }
  }

  /** Stepping the current child over its entry moves the cut from just below it to just above it. */
  lemma StepForward(lists: seq<seq<Entry>>, pos: seq<int>, cur: int)
    requires DistinctChildren(lists) && |pos| == |lists| && 0 <= cur < |lists| && ValidAt(lists[cur], pos[cur])
    requires SplitBy(lists, pos, Below(lists[cur][pos[cur]].Key()))
    ensures SplitBy(lists, pos[cur := pos[cur] + 1], UpTo(lists[cur][pos[cur]].Key()))
  {
    var k, q := lists[cur][pos[cur]].Key(), pos[cur := pos[cur] + 1];
    forall i, j | 0 <= i < |lists| && 0 <= j < q[i] ensures UpTo(k)(lists[i][j].Key()) {
      assert j < pos[i] || (i == cur && j == pos[cur]);
      BeforeIsStrictTotalOrder(k, lists[i][j].Key(), k);
    }
    forall i, j | 0 <= i < |lists| && q[i] <= j < |lists[i]| ensures !UpTo(k)(lists[i][j].Key()) {
      assert !Below(k)(lists[i][j].Key());
      assert i == cur ==> Before(k, lists[i][j].Key());
      BeforeIsStrictTotalOrder(k, lists[i][j].Key(), k);
    }
  }

  lemma StepBackward(lists: seq<seq<Entry>>, pos: seq<int>, cur: int)
    requires DistinctChildren(lists) && |pos| == |lists| && 0 <= cur < |lists| && ValidAt(lists[cur], pos[cur])
    requires SplitBy(lists, Plus(pos), UpTo(lists[cur][pos[cur]].Key()))
    ensures SplitBy(lists, Plus(pos[cur := pos[cur] - 1]), Below(lists[cur][pos[cur]].Key()))
  {
    var k, q, r := lists[cur][pos[cur]].Key(), Plus(pos), Plus(pos[cur := pos[cur] - 1]);
    forall i | 0 <= i < |lists| ensures 0 <= r[i] <= |lists[i]| { assert 0 <= q[i] <= |lists[i]|; }
    forall i, j | 0 <= i < |lists| && 0 <= j < r[i] ensures Below(k)(lists[i][j].Key()) {
      assert j < q[i] && UpTo(k)(lists[i][j].Key());
      assert i == cur ==> Before(lists[i][j].Key(), k);
      BeforeIsStrictTotalOrder(k, lists[i][j].Key(), k);
    }
    forall i, j | 0 <= i < |lists| && r[i] <= j < |lists[i]| ensures !Below(k)(lists[i][j].Key()) {
      assert (i == cur && j == pos[cur]) || q[i] <= j;
      BeforeIsStrictTotalOrder(k, lists[i][j].Key(), k);
    }
  }

  class MergingIterator {
    const lists: seq<seq<Entry>>
    var pos: seq<int>        // where each child stands; invalid outside its list
    var current: int         // the child current_ points to, -1 for NULL
    var direction: Direction

    ghost predicate Inv()
      reads this
    {
      && DistinctChildren(lists) && |pos| == |lists|
      && (current != -1 ==>
            && 0 <= current < |lists| && ValidAt(lists[current], pos[current])
            && var k := lists[current][pos[current]].Key();
               if direction.Forward? then SplitBy(lists, pos, Below(k)) else SplitBy(lists, Plus(pos), UpTo(k)))
    }

    predicate Valid()
      reads this
    {
      current != -1
    }

    function Current(): Entry
      reads this
      requires Inv() && Valid()
    {
      lists[current][pos[current]]
    }

    constructor (lists: seq<seq<Entry>>)
      requires DistinctChildren(lists)
      ensures Inv() && !Valid() && this.lists == lists
    {
      this.lists := lists;
      pos, current, direction := seq(|lists|, _ => -1), -1, Forward;
    }

    method FindSmallest(ghost low: Cut)
      requires DistinctChildren(lists) && IsCut(low) && SplitBy(lists, pos, low)
      modifies `current
      ensures current != -1 ==> 0 <= current < |lists| && ValidAt(lists[current], pos[current])
                                && SplitBy(lists, pos, Below(lists[current][pos[current]].Key()))
                                && LeastHigh(lists, low, lists[current][pos[current]])
      ensures current == -1 ==> AllLow(lists, low)
    {
      var smallest := -1;
      for i := 0 to |lists|
        invariant Smallest(lists, pos, smallest, i)
      {
        if 0 <= pos[i] < |lists[i]| {
          if smallest == -1 {
            smallest := i;
          } else {
            ghost var a, b := lists[i][pos[i]].Key(), lists[smallest][pos[smallest]].Key();
            StillSmallest(i, smallest);
            if Before(lists[i][pos[i]].Key(), lists[smallest][pos[smallest]].Key()) {
              smallest := i;
            }
          }
        }
      }
      current := smallest;
      SmallestIsLeast(lists, pos, current, low);
      if current >= 0 { Resplit(lists, pos, current, low); }
    }

    lemma StillSmallest(i: int, cur: int)
      requires |pos| == |lists| && 0 <= cur < i < |lists| && Smallest(lists, pos, cur, i) && ValidAt(lists[i], pos[i])
      ensures Smallest(lists, pos, if Before(lists[i][pos[i]].Key(), lists[cur][pos[cur]].Key()) then i else cur, i + 1)
    {
      var a, b := lists[i][pos[i]].Key(), lists[cur][pos[cur]].Key();
      BeforeIsStrictTotalOrder(a, a, a);
      forall k | 0 <= k < i && ValidAt(lists[k], pos[k]) && Before(a, b) ensures !Before(lists[k][pos[k]].Key(), a) {
        BeforeIsStrictTotalOrder(lists[k][pos[k]].Key(), a, b);
      }
    }

    method FindLargest(ghost low: Cut)
      requires DistinctChildren(lists) && IsCut(low) && |pos| == |lists| && SplitBy(lists, Plus(pos), low)
      modifies `current
      ensures current != -1 ==> 0 <= current < |lists| && ValidAt(lists[current], pos[current])
                                && SplitBy(lists, Plus(pos), UpTo(lists[current][pos[current]].Key()))
                                && GreatestLow(lists, low, lists[current][pos[current]])
      ensures current == -1 ==> NoneLow(lists, low)
    {
      var largest := -1;
      for i := |lists| downto 0
        invariant Largest(lists, pos, largest, i)
      {
        if 0 <= pos[i] < |lists[i]| {
          if largest == -1 {
            largest := i;
            BeforeIsStrictTotalOrder(lists[i][pos[i]].Key(), lists[i][pos[i]].Key(), lists[i][pos[i]].Key());
          } else {
            StillLargest(i, largest);
            if Before(lists[largest][pos[largest]].Key(), lists[i][pos[i]].Key()) {
              largest := i;
            }
          }
        }
      }
      current := largest;
      LargestIsGreatest(lists, pos, current, low);
      if current >= 0 { ResplitReverse(lists, pos, current, low); }
    }

    lemma StillLargest(i: int, cur: int)
      requires |pos| == |lists| && 0 <= i < cur < |lists| && Largest(lists, pos, cur, i + 1) && ValidAt(lists[i], pos[i])
      ensures Largest(lists, pos, if Before(lists[cur][pos[cur]].Key(), lists[i][pos[i]].Key()) then i else cur, i)
    {
      var a, b := lists[i][pos[i]].Key(), lists[cur][pos[cur]].Key();
      BeforeIsStrictTotalOrder(a, a, a);
      forall k | i < k < |lists| && ValidAt(lists[k], pos[k]) && Before(b, a) ensures !Before(a, lists[k][pos[k]].Key()) {
        BeforeIsStrictTotalOrder(b, a, lists[k][pos[k]].Key());
      }
    }

    method SeekToFirst()
      requires Inv()
      modifies this
      ensures Inv()
      ensures if Valid() then LeastHigh(lists, x => false, Current()) else forall x :: !InUnion(lists, x)
    {
      for i := 0 to |lists|
        invariant |pos| == |lists| && forall j :: 0 <= j < i ==> pos[j] == 0
      {
        pos := pos[i := 0];
      }
      FindSmallest(x => false);
      direction := Forward;
    }

    method SeekToLast()
      requires Inv()
      modifies this
      ensures Inv()
      ensures if Valid() then GreatestLow(lists, x => true, Current()) else forall x :: !InUnion(lists, x)
    {
      for i := 0 to |lists|
        invariant |pos| == |lists| && forall j :: 0 <= j < i ==> pos[j] == |lists[j]| - 1
      {
        pos := pos[i := |lists[i]| - 1];
      }
      FindLargest(x => true);
      direction := Reverse;
    }

    method Seek(target: IKey)
      requires Inv()
      modifies this
      ensures Inv()
      ensures if Valid() then LeastHigh(lists, Below(target), Current()) else AllLow(lists, Below(target))
    {
      for i := 0 to |lists|
        invariant |pos| == |lists| && forall j :: 0 <= j < i ==> pos[j] == SeekIndex(lists[j], target)
      {
        pos := pos[i := SeekIndex(lists[i], target)];
      }
      CutsAreCuts(target);
      SeekSplits(target);
      FindSmallest(Below(target));
      direction := Forward;
    }

    lemma SeekSplits(target: IKey)
      requires DistinctChildren(lists) && |pos| == |lists| && forall j :: 0 <= j < |lists| ==> pos[j] == SeekIndex(lists[j], target)
      ensures SplitBy(lists, pos, Below(target))
    {
      forall i, j | 0 <= i < |lists| && pos[i] <= j < |lists[i]| ensures !Below(target)(lists[i][j].Key()) {
        BeforeIsStrictTotalOrder(lists[i][pos[i]].Key(), lists[i][j].Key(), target);
        assert j == pos[i] || Before(lists[i][pos[i]].Key(), lists[i][j].Key());
      }
    }

    /** SeekIndex in a child that does not hold k itself. */
    lemma ChildSplit(i: int, k: IKey)
      requires DistinctChildren(lists) && 0 <= i < |lists|
      requires forall j :: 0 <= j < |lists[i]| ==> lists[i][j].Key() != k
      ensures var p := SeekIndex(lists[i], k);
              (forall j :: 0 <= j < p ==> Before(lists[i][j].Key(), k))
              && forall j :: p <= j < |lists[i]| ==> Before(k, lists[i][j].Key())
    {
      var p := SeekIndex(lists[i], k);
      forall j | p <= j < |lists[i]| ensures Before(k, lists[i][j].Key()) {
        BeforeIsStrictTotalOrder(lists[i][p].Key(), lists[i][j].Key(), k);
        BeforeIsStrictTotalOrder(lists[i][j].Key(), k, k);
        assert j == p || Before(lists[i][p].Key(), lists[i][j].Key());
      }
    }

    /** The children other than the current one stand at the first entry after k, plus shift. */
    ghost predicate Repositioned(k: IKey, n: int, shift: int)
      reads this
      requires |pos| == |lists|
    {
      forall i :: 0 <= i < n && i < |lists| && i != current ==> pos[i] == SeekIndex(lists[i], k) + shift
    }

    method Next()
      requires Inv() && Valid()
      modifies this
      ensures Inv()
      ensures if Valid() then LeastHigh(lists, UpTo(old(Current()).Key()), Current())
              else AllLow(lists, UpTo(old(Current()).Key()))
    {
      var k := lists[current][pos[current]].Key();
      if !direction.Forward? {
        for i := 0 to |lists|
          invariant |pos| == |lists| && current == old(current) && pos[current] == old(pos)[current] && Repositioned(k, i, 0)
        {
          if i != current {
            pos := pos[i := SeekIndex(lists[i], k)];
            if 0 <= pos[i] < |lists[i]| && lists[i][pos[i]].Key() == k {
              assert false;  // no child but the current one holds this key
            }
          }
        }
        SplitBelow(k);
        direction := Forward;
      }
      CutsAreCuts(k);
      StepForward(lists, pos, current);
      pos := pos[current := pos[current] + 1];
      FindSmallest(UpTo(k));
    }

    /** After a change of direction all children are split at the current key. */
    lemma SplitBelow(k: IKey)
      requires DistinctChildren(lists) && |pos| == |lists| && 0 <= current < |lists| && ValidAt(lists[current], pos[current])
      requires k == lists[current][pos[current]].Key() && Repositioned(k, |lists|, 0)
      ensures SplitBy(lists, pos, Below(k))
    {
      forall i | 0 <= i < |lists| && i != current ensures pos[i] == SeekIndex(lists[i], k) { }
      forall i, j | 0 <= i < |lists| && 0 <= j < pos[i] ensures Below(k)(lists[i][j].Key()) {
        if i != current { ChildSplit(i, k); }
      }
      forall i, j | 0 <= i < |lists| && pos[i] <= j < |lists[i]| ensures !Below(k)(lists[i][j].Key()) {
        if i != current { ChildSplit(i, k); }
        BeforeIsStrictTotalOrder(k, lists[i][j].Key(), k);
        assert i == current && j > pos[current] ==> Before(k, lists[i][j].Key());
      }
    }

    lemma SplitUpTo(k: IKey)
      requires DistinctChildren(lists) && |pos| == |lists| && 0 <= current < |lists| && ValidAt(lists[current], pos[current])
      requires k == lists[current][pos[current]].Key() && Repositioned(k, |lists|, -1)
      ensures SplitBy(lists, Plus(pos), UpTo(k))
    {
      var q := Plus(pos);
      forall i | 0 <= i < |lists| && i != current ensures q[i] == SeekIndex(lists[i], k) { }
      forall i, j | 0 <= i < |lists| && 0 <= j < q[i] ensures UpTo(k)(lists[i][j].Key()) {
        if i != current { ChildSplit(i, k); }
        BeforeIsStrictTotalOrder(k, lists[i][j].Key(), k);
        assert i == current && j < pos[current] ==> Before(lists[i][j].Key(), k);
      }
      forall i, j | 0 <= i < |lists| && q[i] <= j < |lists[i]| ensures !UpTo(k)(lists[i][j].Key()) {
        if i != current { ChildSplit(i, k); }
      }
    }

    method Prev()
      requires Inv() && Valid()
      modifies this
      ensures Inv()
      ensures if Valid() then GreatestLow(lists, Below(old(Current()).Key()), Current())
              else NoneLow(lists, Below(old(Current()).Key()))
    {
      hide SplitBy, DistinctChildren, GreatestLow, NoneLow, Before, InUnion;
      var k := lists[current][pos[current]].Key();
      if !direction.Reverse? {
        for i := 0 to |lists|
          invariant |pos| == |lists| && current == old(current) && pos[current] == old(pos)[current] && Repositioned(k, i, -1)
        {
          if i != current {
            pos := pos[i := SeekIndex(lists[i], k)];
            if 0 <= pos[i] < |lists[i]| {
              pos := pos[i := pos[i] - 1];
            } else {
              pos := pos[i := |lists[i]| - 1];
            }
          }
        }
        SplitUpTo(k);
        direction := Reverse;
      }
      CutsAreCuts(k);
      StepBackward(lists, pos, current);
      pos := pos[current := pos[current] - 1];
      FindLargest(Below(k));
    }
  }
}
