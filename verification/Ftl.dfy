/** FTL.c: page mapping over the flash memory, with garbage collection that refills the list it drains. */
module Ftl {
  import opened Flash

  datatype Loc = Null | At(block: int, page: int)

  /** The mapping as values: flash memory, FTLTable, CurrentFreeBlockID and CurrentFreePageID. */
  datatype State = State(view: View, table: seq<Loc>, cur: int, page: int)

  // ---------- invariant ----------

  /** FTLTable and FlashMemory are inverse to each other. */
  ghost predicate Mapped(g: Geometry, s: State)
    requires Sized(g, s.view)
  {
    && (forall c :: 0 <= c < |s.table| && s.table[c].At? ==>
          var l := s.table[c];
          l.block in g.good && 0 <= l.page < g.maxPage && s.view.mem[l.block][l.page] == c)
    && (forall b, p :: b in g.good && 0 <= p < g.maxPage && s.view.mem[b][p] >= 0 ==>
          s.view.mem[b][p] < |s.table| && s.table[s.view.mem[b][p]] == At(b, p))
  }

  predicate Used(x: int) { x >= 0 || x == INVALID_PAGE }

  /** The current block is written up to the current page; -1 stands for no block at all. */
  ghost predicate CurrentOk(g: Geometry, s: State)
    requires Sized(g, s.view)
  {
    if s.cur == -1 then s.page == g.maxPage
    else
      && s.cur in g.good && s.cur !in s.view.free && 0 <= s.page <= g.maxPage
      && (forall p :: 0 <= p < s.page ==> Used(s.view.mem[s.cur][p]))
      && (forall p :: s.page <= p < g.maxPage ==> s.view.mem[s.cur][p] == FREE_PAGE)
  }

  /** Free blocks are clean, except one that is being emptied; the others are full. */
  ghost predicate BlocksOk(g: Geometry, s: State, emptying: int)
    requires Sized(g, s.view)
  {
    && (forall b :: b in s.view.free ==> b in g.good)
    && (forall b :: b in g.good && b !in s.view.free && b != s.cur ==> Full(s.view.mem[b]))
    && (forall b :: b in s.view.free && b != emptying ==> Clean(s.view.mem[b]))
  }

  ghost function Live(t: seq<Loc>): set<int> { set c | 0 <= c < |t| && t[c].At? }

  ghost predicate Ok(g: Geometry, s: State, emptying: int) {
    && Counted(g, s.view) && Mapped(g, s) && CurrentOk(g, s) && BlocksOk(g, s, emptying)
    && |Live(s.table)| == Sum(s.view.valid)
  }

  // ---------- writing one cluster ----------

  /** The pages a write of c touches: its old one is live, and the one to program is free. */
  ghost predicate CanWrite(g: Geometry, s: State, c: int) {
    && Sized(g, s.view) && 0 <= c < |s.table|
    && s.cur in g.good && 0 <= s.page < g.maxPage && s.view.mem[s.cur][s.page] == FREE_PAGE
    && (s.table[c].At? ==>
          var l := s.table[c];
          l.block in g.good && 0 <= l.page < g.maxPage && s.view.mem[l.block][l.page] == c)
  }

  /** What FTLWriteOneCluster does: invalidate the old page of c, if any, then program the current page. */
  ghost function Invalidated(g: Geometry, s: State, c: int): View
    requires CanWrite(g, s, c)
  {
    var v := s.view;
    match s.table[c]
    case Null => v
    case At(b, p) => SetPage(v, b, p, INVALID_PAGE)
  }

  ghost function Written(g: Geometry, s: State, c: int): State
    requires CanWrite(g, s, c)
  {
    var v := Invalidated(g, s, c);
    State(SetPage(v, s.cur, s.page, c), s.table[c := At(s.cur, s.page)], s.cur, s.page + 1)
  }

  ghost predicate Writable(g: Geometry, s: State, c: int, emptying: int) {
    Ok(g, s, emptying) && 0 <= c < |s.table| && s.cur != -1 && s.page < g.maxPage
  }

  /** Page by page, a write changes the old page of c and the page it programs, nothing else. */
  lemma WrittenPages(g: Geometry, s: State, c: int, emptying: int)
    requires Writable(g, s, c, emptying)
    ensures var s' := Written(g, s, c);
            Sized(g, s'.view) && s'.view.free == s.view.free &&
            forall b, p :: 0 <= b < g.maxBlock && 0 <= p < g.maxPage ==>
              s'.view.mem[b][p] == if b == s.cur && p == s.page then c
                                   else if s.table[c] == At(b, p) then INVALID_PAGE else s.view.mem[b][p]
  {
  }

  lemma WrittenCounted(g: Geometry, s: State, c: int, emptying: int)
    requires Writable(g, s, c, emptying)
    ensures Counted(g, Written(g, s, c).view)
    ensures Sum(Written(g, s, c).view.valid) == Sum(s.view.valid) + Bit(s.table[c].Null?)
    ensures Sum(Written(g, s, c).view.invalid) == Sum(s.view.invalid) + Bit(s.table[c].At?)
  {
    if s.table[c].At? {
      SetPageCounted(g, s.view, s.table[c].block, s.table[c].page, INVALID_PAGE);
    }
    assert Invalidated(g, s, c).mem[s.cur][s.page] == FREE_PAGE;
    SetPageCounted(g, Invalidated(g, s, c), s.cur, s.page, c);
  }

  lemma WrittenMapped(g: Geometry, s: State, c: int, emptying: int)
    requires Writable(g, s, c, emptying)
    ensures Sized(g, Written(g, s, c).view) && Mapped(g, Written(g, s, c))
  {
    WrittenPages(g, s, c, emptying);
  }

  lemma WrittenBlocks(g: Geometry, s: State, c: int, emptying: int)
    requires Writable(g, s, c, emptying)
    ensures var s' := Written(g, s, c); Sized(g, s'.view) && CurrentOk(g, s') && BlocksOk(g, s', emptying)
  {
    WrittenPages(g, s, c, emptying);
    var s' := Written(g, s, c);
    forall b | b in s.view.free && b != emptying ensures Clean(s'.view.mem[b]) {
      assert s.table[c].At? ==> s.view.mem[s.table[c].block][s.table[c].page] == c;
    }
  }

  lemma WrittenOk(g: Geometry, s: State, c: int, emptying: int)
    requires Writable(g, s, c, emptying)
    ensures Ok(g, Written(g, s, c), emptying)
    ensures Live(Written(g, s, c).table) == Live(s.table) + {c}
  {
    WrittenCounted(g, s, c, emptying);
    WrittenMapped(g, s, c, emptying);
    WrittenBlocks(g, s, c, emptying);
    LiveGrows(s.table, c, At(s.cur, s.page));
  }

  lemma LiveGrows(t: seq<Loc>, c: int, l: Loc)
    requires 0 <= c < |t| && l.At?
    ensures Live(t[c := l]) == Live(t) + {c}
    ensures |Live(t[c := l])| == |Live(t)| + Bit(t[c].Null?)
  {
    assert Live(t[c := l]) == Live(t) + {c};
    assert t[c].At? ==> Live(t) + {c} == Live(t);
  }

  // ---------- moving between blocks ----------

  /** Put a full block back on the list before it has been emptied. */
  ghost function PutBack(s: State, victim: int): State { s.(view := s.view.(free := s.view.free + [victim])) }

  lemma PutBackOk(g: Geometry, s: State, victim: int)
    requires Ok(g, s, -1) && victim in g.good && victim !in s.view.free && victim != s.cur
    ensures Ok(g, PutBack(s, victim), victim)
  {
  }

  /** The current block is used up and the first free block takes its place. */
  ghost function Fetched(s: State): State
    requires s.view.free != []
  {
    State(s.view.(free := s.view.free[1..]), s.table, s.view.free[0], 0)
  }

  lemma FetchedOk(g: Geometry, s: State, emptying: int)
    requires Ok(g, s, emptying) && s.page == g.maxPage
    requires s.view.free != [] && Distinct(s.view.free) && s.view.free[0] != emptying
    ensures Ok(g, Fetched(s), emptying)
  {
    assert s.view.free == [s.view.free[0]] + Fetched(s).view.free;
    assert s.view.free[0] in s.view.free;
  }

  /** An emptied block is erased. */
  ghost function Erased(g: Geometry, s: State, victim: int): State
    requires Sized(g, s.view) && victim in g.good
  {
    s.(view := BlockUpdated(s.view, victim, InitialPages(g.maxPage, false), 0, 0))
  }

  lemma ErasedOk(g: Geometry, s: State, victim: int)
    requires Ok(g, s, victim) && victim in s.view.free
    requires forall p :: 0 <= p < g.maxPage ==> s.view.mem[victim][p] < 0
    ensures Ok(g, Erased(g, s, victim), -1)
    ensures Sum(Erased(g, s, victim).view.invalid) == Sum(s.view.invalid) - s.view.invalid[victim]
  {
    var clean := InitialPages(g.maxPage, false);
    CountBounds(clean);
    NoLivePage(s.view.mem[victim]);
    BlockUpdatedCounted(g, s.view, victim, clean, 0, 0);
    SumUpdate(s.view.valid, victim, 0);
    SumUpdate(s.view.invalid, victim, 0);
  }

  lemma {:induction false} NoLivePage(pages: seq<int>)
    requires forall p :: 0 <= p < |pages| ==> pages[p] < 0
    ensures CountValid(pages) == 0
  {
    if pages != [] { NoLivePage(pages[..|pages| - 1]); }
  }

  // ---------- why there is always something to collect ----------

  /** The victim test of FTLGarbageCollection for a given divider. */
  predicate Victim(s: State, b: int, divider: int)
    requires 0 <= b < |s.view.valid| == |s.view.invalid| && divider != 0
  {
    s.view.invalid[b] > Truncated(s.view.valid[b], divider) && b !in s.view.free && b != s.cur
  }

  /** Fewer than (U - 1) * MaxPage clusters, where U is the number of good blocks above the reserve. */
  ghost predicate Slack(g: Geometry, clusters: int) { clusters < (|g.good| - g.reserve - 1) * g.maxPage }

  /** Taking the free blocks and the current one from the good blocks. */
  lemma FullBlocks(good: set<int>, free: seq<int>, cur: int) returns (full: set<int>)
    requires Distinct(free) && forall b :: b in free ==> b in good
    ensures full == good - (set b | b in free) - {cur}
    ensures |full| == |good| - |free| - if cur in good && cur !in free then 1 else 0
  {
    var f := set b | b in free;
    DistinctSize(free);
    assert f <= good && good == (good - f) + f;
    full := good - f - {cur};
    assert cur in good - f ==> good - f == full + {cur};
    assert cur !in good - f ==> good - f == full;
  }

  /** If no full block has an invalid page, the live clusters fill all blocks but the reserve and one. */
  lemma NothingToCollect(g: Geometry, s: State)
    requires Ok(g, s, -1) && Distinct(s.view.free) && |s.view.free| == g.reserve
    requires forall b :: b in g.good && b !in s.view.free && b != s.cur ==> s.view.invalid[b] <= 0
    ensures |Live(s.table)| >= (|g.good| - g.reserve - 1) * g.maxPage
  {
    var full := FullBlocks(g.good, s.view.free, s.cur);
    forall b | 0 <= b < g.maxBlock ensures s.view.valid[b] >= 0 {
      assert b in g.good || s.view.valid[b] == 0;
    }
    forall b | b in full ensures 0 <= b < g.maxBlock && s.view.valid[b] >= g.maxPage {
      assert b in g.good && Full(s.view.mem[b]);
      CountBounds(s.view.mem[b]);
    }
    SumAtLeast(s.view.valid, full, g.maxPage);
    MulMono(|g.good| - g.reserve - 1, |full|, g.maxPage);
  }

  lemma MulMono(a: int, b: int, m: nat)
    requires a <= b
    ensures a * m <= m * b
  {
  }

  ghost predicate Collectable(g: Geometry, s: State, b: int)
    requires Counted(g, s.view)
  {
    b in g.good && b !in s.view.free && b != s.cur && s.view.invalid[b] > 0
  }

  /** With the list at its reserve and slack in the mapping, some full block has an invalid page. */
  lemma SomethingToCollect(g: Geometry, s: State)
    requires Ok(g, s, -1) && Distinct(s.view.free) && |s.view.free| == g.reserve && Slack(g, |Live(s.table)|)
    ensures exists b :: Collectable(g, s, b)
  {
    if forall b :: !Collectable(g, s, b) {
      assert forall b :: b in g.good && b !in s.view.free && b != s.cur ==> !Collectable(g, s, b);
      NothingToCollect(g, s);
    }
  }

  /** Past MaxPage the divider no longer matters: any block with an invalid page is a victim. */
  lemma LargeDivider(g: Geometry, s: State, divider: int, b: int)
    requires Counted(g, s.view) && divider > g.maxPage && 0 <= b < g.maxBlock
    ensures Victim(s, b, divider) <==> Collectable(g, s, b)
  {
    if b in g.good {
      CountBounds(s.view.mem[b]);
    }
    SmallQuotient(s.view.valid[b], divider);
  }

  lemma DivSmall(v: int, d: int)
    requires 0 <= v < d
    ensures v / d == 0
  {
  }

  /**
   The scan can succeed, once the divider has grown, exactly when some block that is neither
   free nor current has an invalid page.
   */
  lemma LargeDividerFinds(g: Geometry, s: State, divider: int)
    requires Counted(g, s.view) && divider > g.maxPage
    ensures (exists b :: 0 <= b < g.maxBlock && Victim(s, b, divider)) <==> exists b :: Collectable(g, s, b)
  {
    forall b | 0 <= b < g.maxBlock ensures Victim(s, b, divider) <==> Collectable(g, s, b) {
      LargeDivider(g, s, divider, b);
    }
  }

  /**
   The bound is exact: whenever the list is above its reserve and the current block has a free page,
   which is what a collection must reach, the clusters fit in all other blocks but one.
   */
  lemma RoomNeedsSlack(g: Geometry, s: State)
    requires Ok(g, s, -1) && Distinct(s.view.free) && |s.view.free| > g.reserve
    requires s.cur != -1 && s.page < g.maxPage
    ensures Slack(g, |Live(s.table)|)
  {
    var full := FullBlocks(g.good, s.view.free, s.cur);
    FreePageNotCounted(s.view.mem[s.cur], s.page);
    SumUpdate(s.view.valid, s.cur, 0);
    OtherBlocks(g, s, full);
    FitsBelow(Sum(s.view.valid), |full|, |g.good| - g.reserve - 1, g.maxPage);
  }

  // ---------- the collection loop, turn by turn ----------

  /** An erase keeps every cluster, leaves a page to write to and lengthens the list by one block at most. */
  ghost predicate EraseStep(g: Geometry, s: State, s': State) {
    && Ok(g, s', -1) && Distinct(s'.view.free) && Live(s'.table) == Live(s.table)
    && g.reserve <= |s'.view.free| <= g.reserve + 1 && s'.cur != -1 && s'.page < g.maxPage
  }

  /** One turn of the loop of FTLGarbageCollection: a victim is erased, or the divider doubles. */
  ghost predicate Turn(g: Geometry, s: State, d: int, s': State, d': int)
    requires Sized(g, s.view) && d != 0
  {
    if exists b :: 0 <= b < g.maxBlock && Victim(s, b, d) then EraseStep(g, s, s') && d' == d
    else s' == s && d' == Int32(2 * d)
  }

  /** Turns for as long as the list is at its reserve. */
  ghost predicate Turns(g: Geometry, states: seq<State>, dividers: seq<int>) {
    && 0 < |states| == |dividers|
    && forall i :: 0 <= i < |states| - 1 ==> TurnAt(g, states, dividers, i)
  }

  ghost predicate TurnAt(g: Geometry, states: seq<State>, dividers: seq<int>, i: nat)
    requires i + 1 < |states| == |dividers|
  {
    && Sized(g, states[i].view) && dividers[i] != 0 && |states[i].view.free| == g.reserve
    && Turn(g, states[i], dividers[i], states[i + 1], dividers[i + 1])
  }

  /** Without slack no number of turns lifts the list above its reserve. */
  lemma {:induction false} NoTurnMakesRoom(g: Geometry, states: seq<State>, dividers: seq<int>, n: nat)
    requires Turns(g, states, dividers) && n < |states|
    requires Ok(g, states[0], -1) && Distinct(states[0].view.free) && |states[0].view.free| == g.reserve
    requires !Slack(g, |Live(states[0].table)|)
    ensures Ok(g, states[n], -1) && Distinct(states[n].view.free) && |states[n].view.free| == g.reserve
    ensures Live(states[n].table) == Live(states[0].table)
  {
    hide Ok, Live, Slack, Victim;
    if n > 0 {
      NoTurnMakesRoom(g, states, dividers, n - 1);
      assert TurnAt(g, states, dividers, n - 1);
      if |states[n].view.free| > g.reserve {
        RoomNeedsSlack(g, states[n]);
      }
    }
  }

  /** Where nothing can be collected, a turn does nothing but double the divider. */
  lemma OnlyDoubles(g: Geometry, s: State, d: int, s': State, d': int)
    requires Counted(g, s.view) && (forall b :: !Collectable(g, s, b)) && (0 < d || d + g.maxPage < 0)
    requires Turn(g, s, d, s', d')
    ensures s' == s && d' == Int32(2 * d)
  {
    forall b | 0 <= b < g.maxBlock ensures !Victim(s, b, d) {
      if b in g.good { CountBounds(s.view.mem[b]); }
      SmallQuotient(s.view.valid[b], d);
      assert !Collectable(g, s, b);
    }
  }

  /** From a state where nothing can be collected the loop doubles the divider 32 times; then it is zero and divided by. */
  lemma {:induction false} LoopDividesByZero(g: Geometry, states: seq<State>, dividers: seq<int>, n: nat)
    requires Turns(g, states, dividers) && n < |states| && n <= 32 && dividers[0] == Divider(0) && g.maxPage < 0x8000_0000
    requires Counted(g, states[0].view) && forall b :: !Collectable(g, states[0], b)
    ensures states[n] == states[0] && dividers[n] == Divider(n)
    ensures n == 32 ==> dividers[n] == 0 && |states| == 33
  {
    hide Counted, Collectable, Turn, Divider;
    if n > 0 {
      LoopDividesByZero(g, states, dividers, n - 1);
      DividerOverflows(n - 1);
      assert TurnAt(g, states, dividers, n - 1);
      OnlyDoubles(g, states[n - 1], dividers[n - 1], states[n], dividers[n]);
      DividerStep(n);
      DividerOverflows(n);
      assert n + 1 < |states| ==> TurnAt(g, states, dividers, n);
    }
  }

  // ---------- a write sequence that ends there ----------

  const pair: Geometry := Geometry(2, 2, 1, {0, 1})

  /** Two blocks of two pages, one of them in reserve, as InitializeFTL leaves them. */
  function Fresh(): State {
    State(View([[FREE_PAGE, FREE_PAGE], [FREE_PAGE, FREE_PAGE]], [0, 0], [0, 0], [1]), [Null, Null], 0, 0)
  }

  lemma FreshPairOk()
    ensures Ok(pair, Fresh(), -1)
  {
    CountBounds([FREE_PAGE, FREE_PAGE]);
    assert Counted(pair, Fresh().view);
    assert Sum([0, 0]) == 0;
    assert Live(Fresh().table) == {};
  }

  function OneWritten(): State {
    State(View([[0, FREE_PAGE], [FREE_PAGE, FREE_PAGE]], [1, 0], [0, 0], [1]), [At(0, 0), Null], 0, 1)
  }

  function TwoWritten(): State {
    State(View([[0, 1], [FREE_PAGE, FREE_PAGE]], [2, 0], [0, 0], [1]), [At(0, 0), At(0, 1)], 0, 2)
  }

  lemma FirstWrite()
    ensures CanWrite(pair, Fresh(), 0) && Written(pair, Fresh(), 0) == OneWritten()
  {
    assert Written(pair, Fresh(), 0).view.mem[0] == [0, FREE_PAGE];
  }

  lemma SecondWrite()
    ensures CanWrite(pair, OneWritten(), 1) && Written(pair, OneWritten(), 1) == TwoWritten()
  {
    assert Written(pair, OneWritten(), 1).view.mem[0] == [0, 1];
  }

  /** After clusters 0 and 1 the current block is full, the list at its reserve and nothing can be collected. */
  lemma StuckAfterTwoWrites()
    ensures CanWrite(pair, Fresh(), 0) && CanWrite(pair, Written(pair, Fresh(), 0), 1)
    ensures var s := Written(pair, Written(pair, Fresh(), 0), 1).(cur := -1);
            Ok(pair, s, -1) && |s.view.free| == pair.reserve && !Slack(pair, |Live(s.table)|)
            && forall b :: !Collectable(pair, s, b)
  {
    TwoWrittenOk();
    FirstWrite();
    SecondWrite();
    hide Written, CanWrite;
  }

  lemma TwoWrittenOk()
    ensures var s := TwoWritten().(cur := -1);
            Ok(pair, s, -1) && |s.view.free| == pair.reserve && !Slack(pair, |Live(s.table)|)
            && forall b :: !Collectable(pair, s, b)
  {
    FreshPairOk();
    FirstWrite();
    SecondWrite();
    hide Written, CanWrite, Ok;
    WrittenOk(pair, Fresh(), 0, -1);
    WrittenOk(pair, OneWritten(), 1, -1);
    DropCurrentOk(pair, TwoWritten());
  }

  lemma OtherBlocks(g: Geometry, s: State, full: set<int>)
    requires Ok(g, s, -1) && s.cur != -1 && full == g.good - (set b | b in s.view.free) - {s.cur}
    ensures Sum(s.view.valid[s.cur := 0]) <= g.maxPage * |full|
  {
    var others := s.view.valid[s.cur := 0];
    forall b | 0 <= b < g.maxBlock ensures others[b] <= if b in full then g.maxPage else 0 {
      if b in g.good && b != s.cur { CountBounds(s.view.mem[b]); }
    }
    SumAtMost(others, full, g.maxPage);
  }

  lemma FitsBelow(total: int, blocks: int, limit: int, m: nat)
    requires total < m * blocks + m && blocks + 1 <= limit
    ensures total < limit * m
  {
    MulMono(blocks + 1, limit, m);
    assert (blocks + 1) * m == m * blocks + m;
  }

  lemma {:induction false} FreePageNotCounted(pages: seq<int>, p: nat)
    requires p < |pages| && pages[p] == FREE_PAGE
    ensures CountValid(pages) < |pages|
  {
    CountUpdate(pages, p, 0);
    CountBounds(pages[p := 0]);
  }

  lemma {:induction false} SumAtMost(s: seq<int>, blocks: set<int>, m: nat)
    requires forall i :: 0 <= i < |s| ==> s[i] <= if i in blocks then m else 0
    ensures Sum(s) <= m * |blocks|
    decreases |s|
  {
    if s != [] {
      var n := |s| - 1;
      SumAtMost(s[..n], blocks - {n}, m);
      if n in blocks {
        assert |blocks| == |blocks - {n}| + 1;
        assert m * |blocks| == m * |blocks - {n}| + m;
      } else {
        assert blocks - {n} == blocks;
      }
    }
  }

  // ---------- the translation layer ----------

  class FTL {
    const flash: FlashMemory
    const table: array<Loc>  // FTLTable
    var cur: int             // CurrentFreeBlockID
    var page: int            // CurrentFreePageID
    var scan: int            // CurrentScanningBlockID
    var divider: int         // InvalidPage2ValidPageDivider

    ghost const Repr: set<object> := flash.Repr + {this, table}

    ghost function St(): State
      reads this, table, flash`view
    {
      State(flash.view, table[..], cur, page)
    }

    ghost predicate Valid()
      reads Repr
    {
      && table !in flash.Repr && this !in flash.Repr
      && flash.Valid()
      && -1 <= scan < flash.maxBlock && 1 <= divider <= 2 * flash.maxPage
    }

    /** Between two requests: the invariant holds and there is a page to write to. */
    ghost predicate Ready()
      reads Repr
    {
      Valid() && Ok(flash.g, St(), -1) && cur != -1 && page < flash.maxPage
    }

    constructor (flash: FlashMemory, maxCluster: nat)
      requires flash.Valid()
      ensures Valid() && this.flash == flash && fresh(Repr - flash.Repr)
      ensures table.Length == maxCluster && (forall c :: 0 <= c < maxCluster ==> table[c] == Null)
      ensures cur == -1 && page == flash.maxPage
    {
      this.flash := flash;
      table := new Loc[maxCluster](_ => Null);
      cur, page, scan, divider := -1, flash.maxPage, -1, 1;
    }

    /** CurrentFreeBlockID = GetFreeBlock(False); CurrentFreePageID = 0, where the list is above its reserve. */
    method NextBlock(ghost emptying: int)
      requires Valid() && Ok(flash.g, St(), emptying) && page == flash.maxPage
      requires flash.reserve < |flash.view.free| && flash.view.free[0] != emptying
      modifies Repr
      ensures Valid() && scan == old(scan) && divider == old(divider)
      ensures St() == Fetched(old(St())) && Ok(flash.g, St(), emptying)
    {
      FetchedOk(flash.g, St(), emptying);
      FreeIsZero(flash.g, St(), emptying, flash.view.free[0]);
      cur := flash.GetFreeBlock();
      page := 0;
    }

    /** FTLReadOneCluster. */
    method ReadOneCluster(c: int) returns (found: bool)
      requires Valid() && Ok(flash.g, St(), -1) && 0 <= c < table.Length
      ensures found <==> c in Live(table[..])
    {
      found := table[c].At?;
    }

    /** FTLWriteOneCluster. */
    method WriteOneCluster(c: int)
      requires Valid() && CanWrite(flash.g, St(), c)
      modifies Repr
      ensures Valid() && scan == old(scan) && divider == old(divider)
      ensures St() == Written(flash.g, old(St()), c)
    {
      if table[c].At? {
        flash.Invalidate(table[c].block, table[c].page);
      }
      table[c] := At(cur, page);
      flash.Program(cur, page, c);
      page := page + 1;
    }

    /**
     FTLEraseOneBlock: the victim goes to the end of the free list first, then its live pages are
     copied out. The list is first in, first out, so a block fetched meanwhile is never the victim,
     and one fetched block always has room for the rest.
     */
    method EraseOneBlock(victim: int)
      requires Valid() && Chosen(flash.g, St(), victim)
      modifies Repr
      ensures Valid() && Ok(flash.g, St(), -1) && scan == old(scan) && divider == old(divider)
      ensures cur != -1 && page < flash.maxPage
      ensures flash.reserve <= |flash.view.free| <= flash.reserve + 1
      ensures Live(table[..]) == old(Live(table[..])) && |table[..]| == old(|table[..]|)
      ensures Sum(flash.view.invalid) < old(Sum(flash.view.invalid))
    {
      hide Ok, Emptied, Linked, Mapped, CurrentOk, BlocksOk, Counted;
      ghost var s0 := St();
      CopyingStarts(flash.g, s0, victim);
      flash.PutFreeBlock(victim);
      CopyOut(victim, s0);
      CopyingDone(flash.g, s0, St(), victim);
      flash.EraseBlock(victim);
    }

    /** Reclaim the selected block: move its live pages out one by one. */
    method CopyOut(victim: int, ghost s0: State)
      requires Valid() && Copying(flash.g, s0, St(), victim, 0)
      modifies Repr
      ensures Valid() && scan == old(scan) && divider == old(divider)
      ensures Copying(flash.g, s0, St(), victim, flash.maxPage) && page < flash.maxPage
    {
      hide Copying, Linked;
      for i := 0 to flash.maxPage
        invariant Valid() && scan == old(scan) && divider == old(divider)
        invariant Copying(flash.g, s0, St(), victim, i)
      {
        RoomWhileCopying(victim, i, s0);
        EmptyPage(victim, i, s0);
      }
      RoomWhileCopying(victim, flash.maxPage, s0);
    }

    /** If the current block is filled up, get a free block from the list. */
    method RoomWhileCopying(victim: int, i: int, ghost s0: State)
      requires Valid() && Copying(flash.g, s0, St(), victim, i)
      modifies Repr
      ensures Valid() && scan == old(scan) && divider == old(divider)
      ensures Copying(flash.g, s0, St(), victim, i) && page < flash.maxPage
    {
      if page >= flash.maxPage {
        FetchWhileCopying(flash.g, s0, St(), victim, i);
        NextBlock(victim);
      }
    }

    /** Move the live page i, if it is one, out of the victim. */
    method EmptyPage(victim: int, i: int, ghost s0: State)
      requires Valid() && Copying(flash.g, s0, St(), victim, i) && i < flash.maxPage && page < flash.maxPage
      modifies Repr
      ensures Valid() && scan == old(scan) && divider == old(divider)
      ensures Copying(flash.g, s0, St(), victim, i + 1)
    {
      CopyingBounds(flash.g, s0, St(), victim, i);
      hide Copying, Linked, Ok;
      var c := flash.mem[victim][i];
      if c != INVALID_PAGE && c != FREE_PAGE {
        CopyStep(flash.g, s0, St(), victim, i);
        WriteOneCluster(c);
      } else {
        SkipStep(flash.g, s0, St(), victim, i);
      }
    }

    lemma FreeFacts()
      requires Valid()
      ensures Distinct(flash.view.free) && flash.view.free != [] && 0 <= flash.view.free[0]
      ensures forall b :: b in flash.view.free ==> b in flash.g.good && 0 <= b
    {
    }

    /** The counters and the list mark tell a victim from the rest. */
    lemma HitIsVictim(b: int)
      requires Valid() && Counted(flash.g, flash.view) && 0 <= b < flash.maxBlock
      ensures (flash.invalidPageCnt[b] > flash.validPageCnt[b] / divider
               && flash.freeBlockList[b] == FBL_NOT_IN_LIST && b != cur) <==> Victim(St(), b, divider)
    {
      assert flash.validPageCnt[b] == flash.view.valid[b] && flash.invalidPageCnt[b] == flash.view.invalid[b];
      if b in flash.g.good { CountBounds(flash.view.mem[b]); }
      assert flash.view.valid[b] >= 0;
      if b in flash.g.good {
        NotInList(flash.g, flash.freeBlockList[..], flash.head, flash.tail, flash.view.free, b);
      } else {
        DivSmall(0, divider);
      }
    }

    /** One turn of the scan: look at every block once, starting after the last one looked at. */
    method FindVictim() returns (found: bool)
      requires Valid() && Counted(flash.g, flash.view)
      modifies `scan
      ensures -1 <= scan < flash.maxBlock && St() == old(St())
      ensures found ==> 0 <= scan && Victim(St(), scan, divider)
      ensures !found ==> forall b :: 0 <= b < flash.maxBlock ==> !Victim(St(), b, divider)
    {
      hide Linked, Counted, Victim;
      ghost var start := scan;
      for i := 0 to flash.maxBlock
        invariant -1 <= scan < flash.maxBlock
        invariant if i == 0 then scan == start else 0 <= scan && Dist(start, scan, flash.maxBlock) == i - 1
        invariant forall b :: 0 <= b < flash.maxBlock && Dist(start, b, flash.maxBlock) < i ==> !Victim(St(), b, divider)
      {
        NextAround(scan, flash.maxBlock);
        scan := (scan + 1) % flash.maxBlock;
        var hit := flash.invalidPageCnt[scan] > flash.validPageCnt[scan] / divider
                   && flash.freeBlockList[scan] == FBL_NOT_IN_LIST && scan != cur;
        HitIsVictim(scan);
        if hit {
          return true;
        }
      }
      return false;
    }

    /** The collector's loop between two iterations. */
    ghost predicate Collecting(live: set<int>, clusters: nat)
      reads Repr
    {
      && Valid() && Ok(flash.g, St(), -1) && Live(table[..]) == live && |table[..]| == clusters
      && flash.reserve <= |flash.view.free| <= flash.reserve + 1
    }

    /**
     FTLGarbageCollection: erase blocks until the list is one above its reserve. It gives up where nothing can be
     collected; from there the original only doubles the divider until it divides by zero.
     */
    method GarbageCollection() returns (completed: bool)
      requires Valid() && Ok(flash.g, St(), -1) && |flash.view.free| == flash.reserve
      modifies Repr
      ensures Valid() && Ok(flash.g, St(), -1)
      ensures completed <==> Slack(flash.g, |old(Live(table[..]))|)
      ensures completed ==> cur != -1 && page < flash.maxPage && |flash.view.free| == flash.reserve + 1
      ensures !completed ==> |flash.view.free| == flash.reserve && forall b :: !Collectable(flash.g, St(), b)
      ensures Live(table[..]) == old(Live(table[..])) && |table[..]| == old(|table[..]|)
    {
      hide Ok, Linked, Slack, Live, Distinct, Collectable;
      ghost var live := Live(table[..]);
      InvalidTotal(flash.g, St());
      var room := HasFreeBlock();
      completed := true;
      while !room
        invariant Collecting(live, old(|table[..]|)) && completed
        invariant room <==> |flash.view.free| > flash.reserve
        invariant room ==> cur != -1 && page < flash.maxPage
        invariant 0 <= Sum(flash.view.invalid)
        decreases Sum(flash.view.invalid), 2 * flash.maxPage - divider
      {
        completed := CollectOnce(live, old(|table[..]|));
        if !completed { return; }
        room := HasFreeBlock();
      }
      FreeFacts();
      RoomNeedsSlack(flash.g, St());
    }

    /** CheckFreeBlock() != -1. */
    method HasFreeBlock() returns (room: bool)
      requires Valid()
      ensures room <==> |flash.view.free| > flash.reserve
    {
      FreeFacts();
      var b := flash.CheckFreeBlock();
      room := b != -1;
    }

    /** One turn; or, with a divider past MaxPage and no victim, nothing. */
    method CollectOnce(ghost live: set<int>, ghost clusters: nat) returns (turned: bool)
      requires Collecting(live, clusters) && |flash.view.free| == flash.reserve
      modifies Repr
      ensures Collecting(live, clusters) && 0 <= Sum(flash.view.invalid)
      ensures |flash.view.free| > flash.reserve ==> cur != -1 && page < flash.maxPage
      ensures turned ==> Sum(flash.view.invalid) < old(Sum(flash.view.invalid))
                         || (St() == old(St()) && divider == 2 * old(divider))
      ensures !turned ==> St() == old(St()) && !Slack(flash.g, |live|) && forall b :: !Collectable(flash.g, St(), b)
      ensures Sized(flash.g, old(St()).view)
      ensures turned && flash.maxPage <= 0x2000_0000 ==> Turn(flash.g, old(St()), old(divider), St(), divider)
    {
      hide Ok, Linked, Slack, Counted, Victim, Chosen, Live, Distinct, Sum, Collectable, Int32, EraseStep;
      ghost var s := St();
      InvalidTotal(flash.g, s);
      OkCounted(flash.g, s);
      FreeFacts();
      turned := FindVictim();
      if turned {
        VictimIsChosen(flash.g, s, scan, divider);
        EraseOneBlock(scan);
        InvalidTotal(flash.g, St());
        FreeFacts();
        Erasing(flash.g, s, St());
      } else if divider <= flash.maxPage {
        if flash.maxPage <= 0x2000_0000 { Doubles(divider); }
        divider := divider * 2;
        turned := true;
      } else {
        NothingCollectable(flash.g, s, divider);
      }
    }

    /** The loop that SecureFTLWriteOneCluster runs before and after its write. */
    method MakeRoom() returns (completed: bool)
      requires Valid() && Ok(flash.g, St(), -1)
      modifies Repr
      ensures Valid() && Ok(flash.g, St(), -1) && (completed ==> Ready())
      ensures completed <==> MayFetch(flash.g, old(St())) || Slack(flash.g, |old(Live(table[..]))|)
      ensures old(page) < flash.maxPage ==> St() == old(St())
      ensures Live(table[..]) == old(Live(table[..])) && |table[..]| == old(|table[..]|)
    {
      hide Linked, Slack, Ok;
      completed := true;
      PageBounds(flash.g, St());
      while page >= flash.maxPage
        invariant Valid() && Ok(flash.g, St(), -1) && page <= flash.maxPage && (page < flash.maxPage ==> cur != -1)
        invariant Live(table[..]) == old(Live(table[..])) && |table[..]| == old(|table[..]|) && completed
        invariant if page < flash.maxPage then MayFetch(flash.g, old(St())) || Slack(flash.g, |old(Live(table[..]))|)
                  else St() == old(St())
        invariant old(page) < flash.maxPage ==> St() == old(St())
        decreases page
      {
        ghost var s := St();
        FreeFacts();
        FreeIsZero(flash.g, s, -1, s.view.free[0]);
        var b := flash.GetFreeBlock();
        cur := b;
        if b == -1 {
          DropCurrentOk(flash.g, s);
          completed := GarbageCollection();
          if !completed { return; }
        } else {
          FetchedOk(flash.g, s, -1);
          page := 0;
        }
      }
      PageBounds(flash.g, St());
    }

    /** SecureFTLWriteOneCluster; completed is false where one of its two collections does not come to an end. */
    method SecureWriteOneCluster(c: int) returns (completed: bool)
      requires Ready() && 0 <= c < table.Length
      modifies Repr
      ensures Valid() && Ok(flash.g, St(), -1) && (completed ==> Ready())
      ensures completed <==> Accepts(flash.g, old(St()), c)
      ensures Live(table[..]) == old(Live(table[..])) + {c} && |table[..]| == old(|table[..]|)
    {
      hide Linked, Slack, Ok, Live, CanWrite, Written, Writable;
      completed := MakeRoom();
      assert completed && St() == old(St());
      CanWriteReady(flash.g, St(), c);
      WrittenOk(flash.g, St(), c, -1);
      WrittenRoom(flash.g, St(), c);
      WriteOneCluster(c);
      completed := MakeRoom();
    }

    /**
     The write loop of WritewithFTL over the clusters of one request, up to the first write that does not
     come to an end.
     */
    method WriteRequest(start: nat, length: nat) returns (completed: bool, ghost done: nat)
      requires Ready() && start + length <= table.Length
      modifies Repr
      ensures Valid() && Ok(flash.g, St(), -1) && done <= length && |table[..]| == old(|table[..]|)
      ensures Live(table[..]) == old(Live(table[..])) + Interval(start, done)
      ensures if completed then Ready() && done == length else !Slack(flash.g, |Live(table[..])|)
      ensures Slack(flash.g, |old(Live(table[..])) + Interval(start, length)|) ==> completed
    {
      hide Ok, Linked, Slack, Live, Interval, MayFetch;
      EmptyInterval(start);
      ghost var live := Live(table[..]);
      done := 0;
      for i := 0 to length
        invariant Ready() && |table[..]| == old(|table[..]|) && done == i
        invariant Live(table[..]) == live + Interval(start, i)
      {
        IntervalStep(start, i, length);
        assert live + Interval(start, i) + {start + i} == live + Interval(start, i + 1);
        SlackWithin(flash.g, live + Interval(start, i + 1), live + Interval(start, length));
        completed := SecureWriteOneCluster(start + i);
        done := i + 1;
        if !completed { return; }
      }
      completed := true;
    }
  }

  /** The clusters start, start + 1, ..., start + length - 1. */
  ghost function Interval(start: nat, length: nat): set<int> {
    if length == 0 then {} else Interval(start, length - 1) + {start + length - 1}
  }

  lemma EmptyInterval(start: nat)
    ensures Interval(start, 0) == {}
  {
  }

  lemma IntervalStep(start: nat, i: nat, length: nat)
    requires i < length
    ensures Interval(start, i + 1) == Interval(start, i) + {start + i} && Interval(start, i + 1) <= Interval(start, length)
    decreases length
  {
    if i + 1 < length { IntervalStep(start, i, length - 1); }
  }

  lemma SlackWithin(g: Geometry, a: set<int>, b: set<int>)
    requires a <= b
    ensures Slack(g, |b|) ==> Slack(g, |a|)
  {
    assert b == a + (b - a);
  }

  /** The current block has a free page, or the list a block above its reserve. */
  ghost predicate MayFetch(g: Geometry, s: State) { s.page < g.maxPage || |s.view.free| > g.reserve }

  /** What a state between two writes must offer for a write of c to come to an end. */
  ghost predicate Accepts(g: Geometry, s: State, c: int) {
    s.page + 1 < g.maxPage || |s.view.free| > g.reserve || Slack(g, |Live(s.table) + {c}|)
  }

  lemma WrittenRoom(g: Geometry, s: State, c: int)
    requires CanWrite(g, s, c)
    ensures var s' := Written(g, s, c);
            |s'.table| == |s.table| && (MayFetch(g, s') <==> s.page + 1 < g.maxPage || |s.view.free| > g.reserve)
  {
  }

  /** With a divider past MaxPage and no victim, nothing can be collected and there is no slack. */
  lemma NothingCollectable(g: Geometry, s: State, divider: int)
    requires Ok(g, s, -1) && Distinct(s.view.free) && |s.view.free| == g.reserve && divider > g.maxPage
    requires forall b :: 0 <= b < g.maxBlock ==> !Victim(s, b, divider)
    ensures !Slack(g, |Live(s.table)|) && forall b :: !Collectable(g, s, b)
  {
    LargeDividerFinds(g, s, divider);
    if Slack(g, |Live(s.table)|) { SomethingToCollect(g, s); }
  }

  lemma Erasing(g: Geometry, s: State, s': State)
    requires Ok(g, s', -1) && Distinct(s'.view.free) && Live(s'.table) == Live(s.table)
    requires g.reserve <= |s'.view.free| <= g.reserve + 1 && s'.cur != -1 && s'.page < g.maxPage
    ensures EraseStep(g, s, s')
  {
  }

  /** Only blocks off the list carry the mark FBL_NOT_IN_LIST. */
  lemma NotInList(g: Geometry, list: seq<int>, head: int, tail: int, free: seq<int>, b: int)
    requires WfGeometry(g) && |list| == g.maxBlock && Linked(g, list, head, tail, free)
    requires b in g.good
    ensures list[b] == FBL_NOT_IN_LIST <==> b !in free
  {
    if b in free {
      var i :| 0 <= i < |free| && free[i] == b;
      assert i < |free| - 1 ==> free[i + 1] in g.good;
    }
  }

  lemma {:induction false} SumNonNegative(s: seq<int>)
    requires forall i :: 0 <= i < |s| ==> s[i] >= 0
    ensures Sum(s) >= 0
  {
    if s != [] { SumNonNegative(s[..|s| - 1]); }
  }

  lemma InvalidTotal(g: Geometry, s: State)
    requires Ok(g, s, -1)
    ensures 0 <= Sum(s.view.invalid)
  {
    SumNonNegative(s.view.invalid);
  }

  lemma OkCounted(g: Geometry, s: State)
    requires Ok(g, s, -1)
    ensures Counted(g, s.view)
  {
  }

  lemma VictimIsChosen(g: Geometry, s: State, b: int, divider: int)
    requires Ok(g, s, -1) && |s.view.free| == g.reserve && Distinct(s.view.free)
    requires 0 <= b < g.maxBlock && 0 < divider && Victim(s, b, divider)
    ensures Chosen(g, s, b)
  {
    assert s.view.valid[b] >= 0;
    SmallQuotient(s.view.valid[b], divider);
  }

  lemma PageBounds(g: Geometry, s: State)
    requires Ok(g, s, -1)
    ensures 0 <= s.page <= g.maxPage && (s.page < g.maxPage ==> s.cur != -1)
  {
  }

  /** A full current block can be let go. */
  lemma DropCurrentOk(g: Geometry, s: State)
    requires Ok(g, s, -1) && s.page == g.maxPage
    ensures Ok(g, s.(cur := -1), -1)
  {
  }

  lemma CanWriteReady(g: Geometry, s: State, c: int)
    requires Ok(g, s, -1) && s.cur != -1 && s.page < g.maxPage && 0 <= c < |s.table|
    ensures Writable(g, s, c, -1) && CanWrite(g, s, c)
  {
  }

  /** What the collector knows of its victim when it starts. */
  ghost predicate Chosen(g: Geometry, s: State, victim: int) {
    && Ok(g, s, -1) && |s.view.free| == g.reserve && Distinct(s.view.free)
    && victim in g.good && victim !in s.view.free && victim != s.cur && s.view.invalid[victim] > 0
  }

  /** The first i pages of the victim have been emptied, using at most one block from the list. */
  ghost predicate Emptied(g: Geometry, s0: State, s: State, victim: int, i: int)
    requires Sized(g, s.view) && Sized(g, s0.view) && victim in g.good && s0.view.free != []
  {
    var copied := s0.view.valid[victim] - s.view.valid[victim];
    && 0 <= i <= g.maxPage && 0 <= copied
    && ((s.view.free == s0.view.free + [victim] && s.page == s0.page + copied)
        || (s.view.free == s0.view.free[1..] + [victim] && s.page == s0.page + copied - g.maxPage))
    && Live(s.table) == Live(s0.table) && |s.table| == |s0.table|
    && (forall p :: 0 <= p < i ==> s.view.mem[victim][p] < 0)
    && (forall p :: i <= p < g.maxPage ==> s.view.mem[victim][p] == s0.view.mem[victim][p])
    && Sum(s.view.invalid) - s.view.invalid[victim] == Sum(s0.view.invalid) - s0.view.invalid[victim]
  }

  ghost predicate Copying(g: Geometry, s0: State, s: State, victim: int, i: int) {
    Chosen(g, s0, victim) && Ok(g, s, victim) && victim != s.cur && Emptied(g, s0, s, victim, i)
  }

  lemma CopyingStarts(g: Geometry, s0: State, victim: int)
    requires Chosen(g, s0, victim)
    ensures Copying(g, s0, PutBack(s0, victim), victim, 0)
  {
    PutBackOk(g, s0, victim);
  }

  /** Room runs out at most once, because the victim has at most MaxPage - 1 live pages. */
  lemma FetchWhileCopying(g: Geometry, s0: State, s: State, victim: int, i: int)
    requires Copying(g, s0, s, victim, i) && s.page >= g.maxPage
    ensures s.page == g.maxPage && |s.view.free| == g.reserve + 1 && s.view.free[0] != victim && Distinct(s.view.free)
    ensures Fetched(s).cur != victim && Emptied(g, s0, Fetched(s), victim, i)
  {
    CountBounds(s0.view.mem[victim]);
    CountBounds(s.view.mem[victim]);
    assert s.view.free == s0.view.free + [victim];
    assert Fetched(s).view.free == s0.view.free[1..] + [victim];
  }

  /** A write of a cluster that lives in block b, which is not the current one. */
  lemma WrittenElsewhere(g: Geometry, s: State, c: int, b: int, p: int)
    requires CanWrite(g, s, c) && s.table[c] == At(b, p) && b != s.cur && 0 <= c
    ensures var v := Written(g, s, c).view;
            v.mem[b] == s.view.mem[b][p := INVALID_PAGE]
            && v.valid[b] == s.view.valid[b] - 1 && v.invalid[b] == s.view.invalid[b] + 1
  {
  }

  /** A live page of the victim can be copied to the current page. */
  lemma CopySource(g: Geometry, s0: State, s: State, victim: int, i: int)
    requires Copying(g, s0, s, victim, i) && i < g.maxPage && s.page < g.maxPage
    requires s.view.mem[victim][i] != INVALID_PAGE && s.view.mem[victim][i] != FREE_PAGE
    ensures var c := s.view.mem[victim][i]; Writable(g, s, c, victim) && CanWrite(g, s, c) && s.table[c] == At(victim, i)
  {
    assert Full(s0.view.mem[victim]);
  }

  lemma CopyOnePage(g: Geometry, s0: State, s: State, victim: int, i: int, c: int)
    requires Sized(g, s.view) && Sized(g, s0.view) && victim in g.good && s0.view.free != []
    requires Emptied(g, s0, s, victim, i) && i < g.maxPage && victim != s.cur
    requires CanWrite(g, s, c) && 0 <= c && s.table[c] == At(victim, i)
    requires Sum(Written(g, s, c).view.invalid) == Sum(s.view.invalid) + 1
    ensures Sized(g, Written(g, s, c).view) && Emptied(g, s0, Written(g, s, c), victim, i + 1)
  {
    WrittenElsewhere(g, s, c, victim, i);
    LiveGrows(s.table, c, At(s.cur, s.page));
    assert c in Live(s.table);
  }

  lemma CopyingBounds(g: Geometry, s0: State, s: State, victim: int, i: int)
    requires Copying(g, s0, s, victim, i)
    ensures Sized(g, s.view) && victim in g.good && 0 <= i <= g.maxPage
  {
  }

  lemma CopyStep(g: Geometry, s0: State, s: State, victim: int, i: int)
    requires Copying(g, s0, s, victim, i) && i < g.maxPage && s.page < g.maxPage && victim in g.good && Sized(g, s.view)
    requires s.view.mem[victim][i] != INVALID_PAGE && s.view.mem[victim][i] != FREE_PAGE
    ensures CanWrite(g, s, s.view.mem[victim][i])
    ensures Copying(g, s0, Written(g, s, s.view.mem[victim][i]), victim, i + 1)
  {
    var c := s.view.mem[victim][i];
    CopySource(g, s0, s, victim, i);
    assert Sized(g, s0.view) && s0.view.free != [] && 0 <= c;
    hide Ok;
    WrittenOk(g, s, c, victim);
    WrittenCounted(g, s, c, victim);
    CopyOnePage(g, s0, s, victim, i, c);
  }

  lemma SkipStep(g: Geometry, s0: State, s: State, victim: int, i: int)
    requires Copying(g, s0, s, victim, i) && i < g.maxPage && victim in g.good && Sized(g, s.view)
    requires s.view.mem[victim][i] == INVALID_PAGE || s.view.mem[victim][i] == FREE_PAGE
    ensures Copying(g, s0, s, victim, i + 1)
  {
  }

  lemma CopyingDone(g: Geometry, s0: State, s: State, victim: int)
    requires Copying(g, s0, s, victim, g.maxPage) && s.page < g.maxPage
    ensures Ok(g, Erased(g, s, victim), -1) && s.cur != -1
    ensures Sum(Erased(g, s, victim).view.invalid) < Sum(s0.view.invalid)
    ensures Live(s.table) == Live(s0.table) && |s.table| == |s0.table|
    ensures g.reserve <= |s.view.free| <= g.reserve + 1
  {
    ErasedOk(g, s, victim);
  }

  /** InitializeFTL on a fresh flash memory, without its optional initial writes. */
  method InitializeFTL(flash: FlashMemory, maxCluster: nat) returns (f: FTL)
    requires flash.Valid() && Counted(flash.g, flash.view) && flash.reserve < |flash.view.free|
    requires forall b :: b in flash.g.good ==> b in flash.view.free && Clean(flash.view.mem[b])
    modifies flash.Repr
    ensures f.Ready() && f.flash == flash && f.table.Length == maxCluster && fresh(f.Repr - flash.Repr)
    ensures Live(f.table[..]) == {}
  {
    f := new FTL(flash, maxCluster);
    FreshOk(flash.g, f.St());
    f.NextBlock(-1);
  }

  lemma FreeIsZero(g: Geometry, s: State, emptying: int, b: int)
    requires Ok(g, s, emptying) && b in s.view.free && b != emptying
    ensures b in g.good && s.view.valid[b] == s.view.invalid[b] == 0
  {
    CountBounds(s.view.mem[b]);
  }

  lemma FreshOk(g: Geometry, s: State)
    requires Counted(g, s.view) && s.cur == -1 && s.page == g.maxPage
    requires forall c :: 0 <= c < |s.table| ==> s.table[c].Null?
    requires forall b :: b in s.view.free ==> b in g.good
    requires forall b :: b in g.good ==> b in s.view.free && Clean(s.view.mem[b])
    ensures Ok(g, s, -1) && Live(s.table) == {}
  {
    forall b | 0 <= b < g.maxBlock ensures s.view.valid[b] == 0 {
      if b in g.good { CountBounds(s.view.mem[b]); }
    }
    SumZero(s.view.valid);
  }

  lemma {:induction false} SumZero(s: seq<int>)
    requires forall i :: 0 <= i < |s| ==> s[i] == 0
    ensures Sum(s) == 0
  {
    if s != [] { SumZero(s[..|s| - 1]); }
  }
}
