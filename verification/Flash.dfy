/** The flash memory of flash.c: pages, page counters and the FIFO list of free blocks. */
module Flash {

  const FREE_PAGE: int := -1
  const INVALID_PAGE: int := -2
  const BAD_BLOCK: int := -3

  const FBL_POINT_TO_NULL: int := -1
  const FBL_NOT_IN_LIST: int := -2

  /** A block as it is set up: a bad one is marked on its first page. */
  function InitialPages(maxPage: nat, bad: bool): (pages: seq<int>)
    ensures |pages| == maxPage
    ensures forall p :: 0 <= p < maxPage ==> pages[p] == if p == 0 && bad then BAD_BLOCK else FREE_PAGE
  {
    seq(maxPage, p => if p == 0 && bad then BAD_BLOCK else FREE_PAGE)
  }

  function InitialMemory(maxPage: nat, bad: seq<bool>): (mem: seq<seq<int>>)
    ensures |mem| == |bad|
    ensures forall b :: 0 <= b < |bad| ==> mem[b] == InitialPages(maxPage, bad[b])
  {
    seq(|bad|, b requires 0 <= b < |bad| => InitialPages(maxPage, bad[b]))
  }

  /** The memory as values: page contents, the two counters of each block, the free list front to back. */
  datatype View = View(mem: seq<seq<int>>, valid: seq<int>, invalid: seq<int>, free: seq<int>)

  function CountValid(pages: seq<int>): nat {
    if pages == [] then 0 else CountValid(pages[..|pages| - 1]) + if pages[|pages| - 1] >= 0 then 1 else 0
  }

  function CountInvalid(pages: seq<int>): nat {
    if pages == [] then 0 else CountInvalid(pages[..|pages| - 1]) + if pages[|pages| - 1] == INVALID_PAGE then 1 else 0
  }

  predicate Clean(pages: seq<int>) { forall p :: 0 <= p < |pages| ==> pages[p] == FREE_PAGE }

  predicate Full(pages: seq<int>) { forall p :: 0 <= p < |pages| ==> pages[p] >= 0 || pages[p] == INVALID_PAGE }

  function Bit(b: bool): int { if b then 1 else 0 }

  lemma {:induction false} CountUpdate(pages: seq<int>, p: nat, x: int)
    requires p < |pages|
    ensures CountValid(pages[p := x]) == CountValid(pages) - Bit(pages[p] >= 0) + Bit(x >= 0)
    ensures CountInvalid(pages[p := x]) == CountInvalid(pages) - Bit(pages[p] == INVALID_PAGE) + Bit(x == INVALID_PAGE)
  {
    var n := |pages| - 1;
    if p == n {
      assert pages[p := x][..n] == pages[..n];
    } else {
      CountUpdate(pages[..n], p, x);
      assert pages[p := x][..n] == pages[..n][p := x];
    }
  }

  lemma {:induction false} CountBounds(pages: seq<int>)
    ensures CountValid(pages) + CountInvalid(pages) <= |pages|
    ensures Full(pages) ==> CountValid(pages) + CountInvalid(pages) == |pages|
    ensures Clean(pages) ==> CountValid(pages) == CountInvalid(pages) == 0
    ensures CountValid(pages) == 0 ==> forall p :: 0 <= p < |pages| ==> pages[p] < 0
    ensures CountInvalid(pages) == 0 ==> INVALID_PAGE !in pages
  {
    if pages != [] {
      CountBounds(pages[..|pages| - 1]);
    }
  }

  function Sum(s: seq<int>): int {
    if s == [] then 0 else Sum(s[..|s| - 1]) + s[|s| - 1]
  }

  lemma {:induction false} SumUpdate(s: seq<int>, i: nat, x: int)
    requires i < |s|
    ensures Sum(s[i := x]) == Sum(s) - s[i] + x
  {
    var n := |s| - 1;
    if i == n {
      assert s[i := x][..n] == s[..n];
    } else {
      SumUpdate(s[..n], i, x);
      assert s[i := x][..n] == s[..n][i := x];
    }
  }

  /** If every block of a set counts at least m, the total is at least m for each of them. */
  lemma {:induction false} SumAtLeast(s: seq<int>, blocks: set<int>, m: nat)
    requires forall i :: 0 <= i < |s| ==> s[i] >= 0
    requires forall b :: b in blocks ==> 0 <= b < |s| && s[b] >= m
    ensures Sum(s) >= m * |blocks|
    decreases |s|
  {
    if s == [] {
      assert forall b :: b !in blocks;
      assert blocks == {};
    } else {
      var n := |s| - 1;
      SumAtLeast(s[..n], blocks - {n}, m);
      if n in blocks {
        assert |blocks| == |blocks - {n}| + 1;
        assert m * |blocks| == m * |blocks - {n}| + m;
      } else {
        assert blocks - {n} == blocks;
      }
    }
  }

  /** A set of numbers below n and its image under a map that is one to one on it have the same size. */
  lemma {:induction false} SameSize(n: nat, keys: set<int>, image: set<int>, f: map<int, int>)
    requires forall k :: k in keys ==> 0 <= k < n && k in f && f[k] in image
    requires forall k, j :: k in keys && j in keys && f[k] == f[j] ==> k == j
    requires forall b :: b in image ==> exists k :: k in keys && f[k] == b
    ensures |keys| == |image|
  {
    if n == 0 {
      assert forall k :: k !in keys;
      assert forall b :: b !in image;
      assert keys == {} && image == {};
    } else if n - 1 !in keys {
      SameSize(n - 1, keys, image, f);
    } else {
      var b := f[n - 1];
      assert keys == (keys - {n - 1}) + {n - 1} && image == (image - {b}) + {b};
      forall x | x in image - {b} ensures exists j :: j in keys - {n - 1} && f[j] == x {
        var j :| j in keys && f[j] == x;
        assert j in keys - {n - 1};
      }
      SameSize(n - 1, keys - {n - 1}, image - {b}, f);
    }
  }

  // ---------- the divider of the garbage collectors ----------

  /** Distance the scan cursor travels from s to b around n blocks. */
  function Dist(s: int, b: int, n: int): int { if b > s then b - s - 1 else b - s - 1 + n }

  lemma NextAround(scan: int, n: int)
    requires -1 <= scan < n && 0 < n
    ensures (scan + 1) % n == if scan + 1 == n then 0 else scan + 1
  {
  }

  /** x / d as C computes it. */
  function Truncated(x: int, d: int): (q: int)
    requires d != 0
  {
    if 0 <= x then (if 0 < d then x / d else -(x / -d)) else (if 0 < d then -(-x / d) else -x / -d)
  }

  lemma SmallQuotient(x: int, d: int)
    requires 0 <= x && (0 < d || d < -x)
    ensures 0 <= Truncated(x, d) && (x < d || d < -x ==> Truncated(x, d) == 0)
  {
    var a := if 0 < d then d else -d;
    assert x == (x / a) * a + x % a && 0 <= x % a < a;
    assert x < a ==> x / a == 0;
  }

  /** The value a flash_size_t, a 32-bit int, takes when x is stored in it. */
  function Int32(x: int): (r: int) { (x + 0x8000_0000) % 0x1_0000_0000 - 0x8000_0000 }

  /** InvalidPage2ValidPageDivider after n fruitless scans. */
  function Divider(n: nat): (d: int) {
    if n == 0 then 1 else Int32(2 * Divider(n - 1))
  }

  lemma DividerStep(n: nat)
    requires 0 < n
    ensures Divider(n) == Int32(2 * Divider(n - 1))
  {
  }

  function Pow2(n: nat): (r: nat) {
    if n == 0 then 1 else 2 * Pow2(n - 1)
  }

  lemma {:induction false} Pow2Below(n: nat, k: nat)
    requires n <= k
    ensures 0 < Pow2(n) <= Pow2(k)
    decreases k
  {
    if n < k {
      Pow2Below(n, k - 1);
    } else if 0 < n {
      Pow2Below(n - 1, n - 1);
    }
  }

  lemma Pow2Six(n: nat)
    ensures Pow2(n + 6) == 64 * Pow2(n)
  {
    assert Pow2(n + 1) == 2 * Pow2(n) && Pow2(n + 2) == 4 * Pow2(n) && Pow2(n + 3) == 8 * Pow2(n);
    assert Pow2(n + 4) == 16 * Pow2(n) && Pow2(n + 5) == 32 * Pow2(n);
  }

  lemma Pow2Thirty(n: nat)
    requires n == 30
    ensures Pow2(n) == 0x4000_0000
  {
    Pow2Six(n - 6);
    Pow2Six(n - 12);
    Pow2Six(n - 18);
    Pow2Six(n - 24);
    Pow2Six(n - 30);
  }

  lemma Doubles(x: int)
    requires 0 <= x <= 0x2000_0000
    ensures Int32(2 * x) == 2 * x
  {
  }

  lemma {:induction false} DividerIsPower(n: nat)
    requires n <= 30
    ensures Divider(n) == Pow2(n)
  {
    if 0 < n {
      DividerIsPower(n - 1);
      var k: nat :| k == 30;
      Pow2Below(n, k);
      Pow2Thirty(k);
      Doubles(Pow2(n - 1));
    }
  }

  /** The divider is a power of two for thirty doublings, then negative, then zero. */
  lemma {:induction false} DividerOverflows(n: nat)
    ensures n <= 30 ==> 0 < Divider(n) == Pow2(n)
    ensures n == 31 ==> Divider(n) == -0x8000_0000
    ensures n == 32 ==> Divider(n) == 0
  {
    hide Divider, Pow2;
    if n <= 30 {
      DividerIsPower(n);
      Pow2Below(n, n);
    } else if n == 31 {
      DividerIsPower(n - 1);
      Pow2Thirty(n - 1);
      DividerStep(n);
    } else if n == 32 {
      DividerOverflows(n - 1);
      DividerStep(n);
    }
  }

  /** The blocks of order that are not bad, in order. */
  function GoodOnly(order: seq<int>, bad: seq<bool>): seq<int>
    requires forall i :: 0 <= i < |order| ==> 0 <= order[i] < |bad|
  {
    if order == [] then []
    else
      var rest, b := GoodOnly(order[..|order| - 1], bad), order[|order| - 1];
      if bad[b] then rest else rest + [b]
  }

  lemma GoodOnlyMembers(order: seq<int>, bad: seq<bool>, b: int)
    requires forall i :: 0 <= i < |order| ==> 0 <= order[i] < |bad|
    ensures b in GoodOnly(order, bad) <==> b in order && !bad[b]
  {
    if order != [] {
      GoodOnlyMembers(order[..|order| - 1], bad, b);
      assert order == order[..|order| - 1] + [order[|order| - 1]];
    }
  }

  ghost predicate Distinct(s: seq<int>) { forall i, j :: 0 <= i < j < |s| ==> s[i] != s[j] }

  lemma DistinctSize(s: seq<int>)
    requires Distinct(s)
    ensures |set x | x in s| == |s|
  {
    if s != [] {
      var rest := s[..|s| - 1];
      DistinctSize(rest);
      assert (set x | x in s) == (set x | x in rest) + {s[|s| - 1]};
    }
  }

  /** Sizes, the reserve (LeastFreeBlocksInFBL) and the blocks that are not bad. */
  datatype Geometry = Geometry(maxBlock: nat, maxPage: nat, reserve: nat, good: set<int>)

  ghost predicate WfGeometry(g: Geometry) {
    && 0 < g.maxBlock && 0 < g.maxPage && 1 <= g.reserve
    && forall b :: b in g.good ==> 0 <= b < g.maxBlock
  }

  ghost predicate Sized(g: Geometry, v: View) {
    && WfGeometry(g)
    && |v.mem| == |v.valid| == |v.invalid| == g.maxBlock
    && (forall b :: 0 <= b < g.maxBlock ==> |v.mem[b]| == g.maxPage)
  }

  /** The counters are exact. */
  ghost predicate Counted(g: Geometry, v: View) {
    && Sized(g, v)
    && (forall b :: b in g.good ==> v.valid[b] == CountValid(v.mem[b]) && v.invalid[b] == CountInvalid(v.mem[b]))
    && (forall b :: 0 <= b < g.maxBlock && b !in g.good ==> v.valid[b] == v.invalid[b] == 0)
  }

  function BlockUpdated(v: View, b: int, pages: seq<int>, valid: int, invalid: int): View
    requires 0 <= b < |v.mem| == |v.valid| == |v.invalid|
  {
    v.(mem := v.mem[b := pages], valid := v.valid[b := valid], invalid := v.invalid[b := invalid])
  }

  lemma BlockUpdatedCounted(g: Geometry, v: View, b: int, pages: seq<int>, valid: int, invalid: int)
    requires Counted(g, v) && b in g.good && |pages| == g.maxPage
    requires valid == CountValid(pages) && invalid == CountInvalid(pages)
    ensures Counted(g, BlockUpdated(v, b, pages, valid, invalid))
  {
  }

  /** One page gets a new content and the counters of its block follow. */
  function SetPage(v: View, b: int, p: int, x: int): View
    requires 0 <= b < |v.mem| == |v.valid| == |v.invalid| && 0 <= p < |v.mem[b]|
  {
    BlockUpdated(v, b, v.mem[b][p := x],
                 v.valid[b] - Bit(v.mem[b][p] >= 0) + Bit(x >= 0),
                 v.invalid[b] - Bit(v.mem[b][p] == INVALID_PAGE) + Bit(x == INVALID_PAGE))
  }

  lemma SetPageCounted(g: Geometry, v: View, b: int, p: int, x: int)
    requires Counted(g, v) && b in g.good && 0 <= p < g.maxPage
    ensures Counted(g, SetPage(v, b, p, x))
    ensures Sum(SetPage(v, b, p, x).valid) == Sum(v.valid) - Bit(v.mem[b][p] >= 0) + Bit(x >= 0)
    ensures Sum(SetPage(v, b, p, x).invalid)
              == Sum(v.invalid) - Bit(v.mem[b][p] == INVALID_PAGE) + Bit(x == INVALID_PAGE)
  {
    var v' := SetPage(v, b, p, x);
    CountUpdate(v.mem[b], p, x);
    BlockUpdatedCounted(g, v, b, v'.mem[b], v'.valid[b], v'.invalid[b]);
    SumUpdate(v.valid, b, v'.valid[b]);
    SumUpdate(v.invalid, b, v'.invalid[b]);
  }

  /** SetPage block by block. */
  lemma SetPageBlocks(g: Geometry, v: View, b: int, p: int, x: int)
    requires Counted(g, v) && b in g.good && 0 <= p < g.maxPage
    ensures var v' := SetPage(v, b, p, x);
            Counted(g, v') && v'.free == v.free
            && forall k :: 0 <= k < g.maxBlock ==> v'.mem[k] == if k == b then v.mem[k][p := x] else v.mem[k]
  {
    SetPageCounted(g, v, b, p, x);
  }

  /** The array list links the blocks of free, from head to tail. */
  ghost predicate Linked(g: Geometry, list: seq<int>, head: int, tail: int, free: seq<int>)
    requires WfGeometry(g) && |list| == g.maxBlock
  {
    && 1 <= |free| && Distinct(free)
    && head == free[0] && tail == free[|free| - 1]
    && (forall i :: 0 <= i < |free| ==> free[i] in g.good)
    && (forall i :: 0 <= i < |free| - 1 ==> list[free[i]] == free[i + 1])
    && list[free[|free| - 1]] == FBL_POINT_TO_NULL
    && (forall b :: b in g.good && b !in free ==> list[b] == FBL_NOT_IN_LIST)
  }

  lemma PopLinked(g: Geometry, list: seq<int>, head: int, tail: int, free: seq<int>)
    requires WfGeometry(g) && |list| == g.maxBlock && Linked(g, list, head, tail, free) && 2 <= |free|
    ensures Linked(g, list[head := FBL_NOT_IN_LIST], list[head], tail, free[1..])
  {
    assert free == [head] + free[1..];
  }

  lemma PushLinked(g: Geometry, list: seq<int>, head: int, tail: int, free: seq<int>, b: int)
    requires WfGeometry(g) && |list| == g.maxBlock && Linked(g, list, head, tail, free) && b in g.good && b !in free
    ensures Linked(g, list[tail := b][b := FBL_POINT_TO_NULL], head, b, free + [b])
  {
  }

  class FlashMemory {
    const maxBlock: nat
    const maxPage: nat
    const reserve: nat
    ghost const g: Geometry
    const mem: array<seq<int>>  // FlashMemory, one sequence of pages for each block
    const validPageCnt: array<int>
    const invalidPageCnt: array<int>
    const freeBlockList: array<int>
    var head: int
    var tail: int
    var blocksInList: int
    ghost var view: View

    ghost const Repr: set<object> := {this, mem, validPageCnt, invalidPageCnt, freeBlockList}

    ghost predicate Shape() {
      && WfGeometry(g) && g.maxBlock == maxBlock && g.maxPage == maxPage && g.reserve == reserve
      && mem.Length == validPageCnt.Length == invalidPageCnt.Length == freeBlockList.Length == maxBlock
      && validPageCnt != invalidPageCnt && validPageCnt != freeBlockList && invalidPageCnt != freeBlockList
    }

    ghost predicate Stored(v: View)
      reads mem, validPageCnt, invalidPageCnt
      requires Shape() && Sized(g, v)
    {
      mem[..] == v.mem && validPageCnt[..] == v.valid && invalidPageCnt[..] == v.invalid
    }

    ghost predicate Consistent()
      reads Repr
    {
      Shape() && Sized(g, view) && Stored(view) && Linked(g, freeBlockList[..], head, tail, view.free) && blocksInList == |view.free|
    }

    /** The list never falls below its reserve. */
    ghost predicate Valid()
      reads Repr
    {
      Consistent() && reserve <= |view.free|
    }

    /** All pages free except the marks of bad blocks; a free list of one block. */
    constructor Blank(maxBlock: nat, maxPage: nat, reserve: nat, first: int, bad: seq<bool>)
      requires 0 < maxPage && 1 <= reserve && |bad| == maxBlock && 0 <= first < maxBlock && !bad[first]
      ensures Consistent() && fresh(Repr)
      ensures g == Geometry(maxBlock, maxPage, reserve, set b | 0 <= b < maxBlock && !bad[b])
      ensures view == View(InitialMemory(maxPage, bad), seq(maxBlock, _ => 0), seq(maxBlock, _ => 0), [first])
    {
      this.maxBlock, this.maxPage, this.reserve := maxBlock, maxPage, reserve;
      g := Geometry(maxBlock, maxPage, reserve, set b | 0 <= b < maxBlock && !bad[b]);
      mem := new seq<int>[maxBlock](b => if 0 <= b < |bad| then InitialPages(maxPage, bad[b]) else []);
      validPageCnt := new int[maxBlock](_ => 0);
      invalidPageCnt := new int[maxBlock](_ => 0);
      freeBlockList := new int[maxBlock](b => if b == first then FBL_POINT_TO_NULL else FBL_NOT_IN_LIST);
      head, tail, blocksInList := first, first, 1;
      view := View(InitialMemory(maxPage, bad), seq(maxBlock, _ => 0), seq(maxBlock, _ => 0), [first]);
    }

    lemma InitialCounted(bad: seq<bool>)
      requires Shape() && |bad| == maxBlock && g.good == set b | 0 <= b < maxBlock && !bad[b]
      requires |view.valid| == |view.invalid| == maxBlock && view.mem == InitialMemory(maxPage, bad)
      requires forall b :: 0 <= b < maxBlock ==> view.valid[b] == view.invalid[b] == 0
      ensures Counted(g, view) && forall b :: b in g.good ==> Clean(view.mem[b])
    {
      forall b | b in g.good ensures Clean(view.mem[b]) && CountValid(view.mem[b]) == CountInvalid(view.mem[b]) == 0 {
        CountBounds(view.mem[b]);
      }
    }

    method LinkBlocks(order: seq<int>, bad: seq<bool>)
      requires Consistent() && |order| == |bad| == maxBlock && g.good == set b | 0 <= b < maxBlock && !bad[b]
      requires Distinct(order) && (forall i :: 0 <= i < maxBlock ==> 0 <= order[i] < maxBlock)
      requires !bad[order[0]] && view.free == [order[0]]
      modifies `tail, `blocksInList, freeBlockList, `view
      ensures Consistent() && view == old(view).(free := GoodOnly(order, bad))
    {
      assert GoodOnly(order[..1], bad) == [order[0]];
      for k := 1 to maxBlock
        invariant Consistent() && view == old(view).(free := GoodOnly(order[..k], bad))
      {
        assert order[..k + 1][..k] == order[..k];
        if !bad[order[k]] {
          GoodOnlyMembers(order[..k], bad, order[k]);
          PutFreeBlock(order[k]);
        }
      }
      assert order[..maxBlock] == order;
    }

    /** Store one page and the counters of its block. */
    method StorePage(b: int, p: int, x: int, valid: int, invalid: int)
      requires Shape() && Sized(g, view) && Stored(view) && b in g.good && 0 <= p < maxPage
      modifies mem, validPageCnt, invalidPageCnt, `view
      ensures view == BlockUpdated(old(view), b, old(view).mem[b][p := x], valid, invalid)
      ensures Sized(g, view) && Stored(view)
    {
      mem[b] := mem[b][p := x];
      validPageCnt[b] := valid;
      invalidPageCnt[b] := invalid;
      view := BlockUpdated(view, b, view.mem[b][p := x], valid, invalid);
    }

    /** Write cluster c to a free page. */
    method Program(b: int, p: int, c: int)
      requires Valid() && b in g.good && 0 <= p < maxPage && 0 <= c
      requires view.mem[b][p] == FREE_PAGE
      modifies mem, validPageCnt, invalidPageCnt, `view
      ensures Valid()
      ensures view == SetPage(old(view), b, p, c)
    {
      StorePage(b, p, c, validPageCnt[b] + 1, invalidPageCnt[b]);
    }

    /** Mark a live page as invalid. */
    method Invalidate(b: int, p: int)
      requires Valid() && b in g.good && 0 <= p < maxPage && 0 <= view.mem[b][p]
      modifies mem, validPageCnt, invalidPageCnt, `view
      ensures Valid()
      ensures view == SetPage(old(view), b, p, INVALID_PAGE)
    {
      StorePage(b, p, INVALID_PAGE, validPageCnt[b] - 1, invalidPageCnt[b] + 1);
    }

    /** Count one page of a block as moved away, before the block itself is erased. */
    method CountMoved(b: int)
      requires Valid() && b in g.good
      modifies validPageCnt, invalidPageCnt, `view
      ensures Valid()
      ensures view == BlockUpdated(old(view), b, old(view).mem[b], old(view).valid[b] - 1, old(view).invalid[b] + 1)
    {
      validPageCnt[b] := validPageCnt[b] - 1;
      invalidPageCnt[b] := invalidPageCnt[b] + 1;
      view := BlockUpdated(view, b, view.mem[b], view.valid[b] - 1, view.invalid[b] + 1);
    }

    /** Clean a block: all pages free, both counters zero. */
    method EraseBlock(b: int)
      requires Valid() && b in g.good
      modifies mem, validPageCnt, invalidPageCnt, `view
      ensures Valid()
      ensures view == BlockUpdated(old(view), b, InitialPages(maxPage, false), 0, 0)
    {
      ghost var clean := InitialPages(maxPage, false);
      invalidPageCnt[b] := 0;
      validPageCnt[b] := 0;
      for i := 0 to maxPage
        invariant |mem[b]| == maxPage && forall p :: 0 <= p < i ==> mem[b][p] == FREE_PAGE
        invariant mem[..] == old(mem[..])[b := mem[b]] && view == old(view)
        invariant validPageCnt[..] == old(validPageCnt[..])[b := 0] && invalidPageCnt[..] == old(invalidPageCnt[..])[b := 0]
      {
        mem[b] := mem[b][i := FREE_PAGE];
      }
      assert mem[b] == clean;
      view := BlockUpdated(view, b, clean, 0, 0);
    }

    /** The first block of the list if the list is above its reserve, else -1. */
    method CheckFreeBlock() returns (r: int)
      requires Valid()
      ensures r == if |view.free| > reserve then view.free[0] else -1
    {
      r := if blocksInList > reserve then head else -1;
    }

    /** GetFreeBlock(False): take the first block of the list, but never the reserve. */
    method GetFreeBlock() returns (block: int)
      requires Valid() && view.valid[view.free[0]] == view.invalid[view.free[0]] == 0
      modifies `head, `blocksInList, freeBlockList, validPageCnt, invalidPageCnt, `view
      ensures Valid()
      ensures if |old(view).free| > reserve
              then block == old(view).free[0] && view == old(view).(free := old(view).free[1..])
              else block == -1 && view == old(view)
    {
      if blocksInList > reserve {
        block := head;
        PopLinked(g, freeBlockList[..], head, tail, view.free);
        head := freeBlockList[block];
        freeBlockList[block] := FBL_NOT_IN_LIST;
        blocksInList := blocksInList - 1;
        invalidPageCnt[block] := 0;
        validPageCnt[block] := 0;
        view := view.(free := view.free[1..]);
      } else {
        block := -1;
      }
    }

    /** Append a block to the list. */
    method PutFreeBlock(b: int)
      requires Consistent() && b in g.good && b !in view.free
      modifies `tail, `blocksInList, freeBlockList, `view
      ensures Consistent()
      ensures view == old(view).(free := old(view).free + [b])
    {
      PushLinked(g, freeBlockList[..], head, tail, view.free, b);
      freeBlockList[tail] := b;
      tail := b;
      freeBlockList[tail] := FBL_POINT_TO_NULL;
      blocksInList := blocksInList + 1;
      view := view.(free := view.free + [b]);
    }
  }

  /**
   InitializeFlashMemory, given the outcome of its random choices: the shuffled block order
   and which blocks came out bad. Good blocks enter the free list in that order.
   */
  method InitializeFlashMemory(maxBlock: nat, maxPage: nat, reserve: nat, order: seq<int>, bad: seq<bool>)
    returns (f: FlashMemory)
    requires 0 < maxBlock && 0 < maxPage && 1 <= reserve && |order| == |bad| == maxBlock
    requires Distinct(order) && (forall i :: 0 <= i < maxBlock ==> 0 <= order[i] < maxBlock)
    requires !bad[order[0]] && reserve <= |GoodOnly(order, bad)|
    ensures f.Valid() && fresh(f.Repr)
    ensures f.g == Geometry(maxBlock, maxPage, reserve, set b | 0 <= b < maxBlock && !bad[b])
    ensures f.view.free == GoodOnly(order, bad) && Counted(f.g, f.view)
    ensures forall b :: b in f.g.good ==> Clean(f.view.mem[b])
  {
    f := new FlashMemory.Blank(maxBlock, maxPage, reserve, order[0], bad);
    f.InitialCounted(bad);
    f.LinkBlocks(order, bad);
  }
}
