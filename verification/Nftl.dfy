/** NFTL.c: each logical block has a primary block, written in place, and a replacement block, appended to. */
module Nftl {
  import opened Flash

  const NFTL_POINT_TO_NULL: int := -1

  /** One row of NFTLTable. */
  datatype Entry = Entry(primary: int, curPB: int, replacement: int, curRB: int)

  datatype State = State(view: View, table: seq<Entry>)

  // ---------- cluster numbers ----------

  /** ClusterID / MaxPage, by repeated subtraction. */
  function LogicalBlock(m: int, c: int): (l: int)
    requires 0 < m
    ensures 0 <= l
    decreases c
  {
    if c < m then 0 else 1 + LogicalBlock(m, c - m)
  }

  /** ClusterID % MaxPage. */
  function LogicalPage(m: int, c: int): (p: int)
    requires 0 < m
    ensures p < m && (0 <= c ==> 0 <= p)
    decreases c
  {
    if c < m then c else LogicalPage(m, c - m)
  }

  function Cluster(m: int, l: int, p: int): int
    decreases l
  {
    if l <= 0 then p else m + Cluster(m, l - 1, p)
  }

  lemma {:induction false} LogicalIsDivision(m: int, c: nat)
    requires 0 < m
    ensures LogicalBlock(m, c) == c / m && LogicalPage(m, c) == c % m
    decreases c
  {
    if c >= m {
      LogicalIsDivision(m, c - m);
      var q, r := (c - m) / m, (c - m) % m;
      assert c == (q + 1) * m + r;
      Quotient(m, c, q + 1, r);
    } else {
      Quotient(m, c, 0, c);
    }
  }

  lemma Quotient(m: int, c: int, q: int, r: int)
    requires 0 < m && c == q * m + r && 0 <= r < m
    ensures c / m == q && c % m == r
  {
    var q', r' := c / m, c % m;
    assert (q' - q) * m == r - r';
    assert q' - q >= 1 ==> (q' - q) * m >= m;
    assert q' - q <= -1 ==> (q' - q) * m <= -m;
  }

  lemma {:induction false} HomeOf(m: int, c: nat)
    requires 0 < m
    ensures 0 <= LogicalPage(m, c) < m && 0 <= LogicalBlock(m, c)
    ensures Cluster(m, LogicalBlock(m, c), LogicalPage(m, c)) == c
    decreases c
  {
    if c >= m { HomeOf(m, c - m); }
  }

  lemma Homes(m: int)
    requires 0 < m
    ensures forall c :: 0 <= c ==> 0 <= LogicalPage(m, c) < m
    ensures forall c :: 0 <= c ==> 0 <= LogicalBlock(m, c)
    ensures forall c :: 0 <= c ==> Cluster(m, LogicalBlock(m, c), LogicalPage(m, c)) == c
  {
    forall c | 0 <= c
      ensures 0 <= LogicalPage(m, c) < m && 0 <= LogicalBlock(m, c)
      ensures Cluster(m, LogicalBlock(m, c), LogicalPage(m, c)) == c
    {
      HomeOf(m, c);
    }
  }

  lemma {:induction false} HomeOfCluster(m: int, l: int, p: int)
    requires 0 < m && 0 <= l && 0 <= p < m
    ensures 0 <= Cluster(m, l, p) && LogicalBlock(m, Cluster(m, l, p)) == l && LogicalPage(m, Cluster(m, l, p)) == p
    decreases l
  {
    if 0 < l { HomeOfCluster(m, l - 1, p); }
  }

  lemma ClusterHomes(m: int, l: int)
    requires 0 < m && 0 <= l
    ensures forall p :: 0 <= p < m ==> 0 <= Cluster(m, l, p)
    ensures forall p :: 0 <= p < m ==> LogicalBlock(m, Cluster(m, l, p)) == l && LogicalPage(m, Cluster(m, l, p)) == p
  {
    forall p | 0 <= p < m
      ensures 0 <= Cluster(m, l, p) && LogicalBlock(m, Cluster(m, l, p)) == l && LogicalPage(m, Cluster(m, l, p)) == p
    {
      HomeOfCluster(m, l, p);
    }
  }

  // ---------- one logical block ----------

  /** A cluster in the primary block is on its own page, and nothing lies at or above curPB. */
  ghost predicate PrimaryOk(m: int, l: int, cur: int, pages: seq<int>) {
    && |pages| == m && 0 <= cur <= m
    && (forall p :: 0 <= p < m ==> pages[p] == FREE_PAGE || pages[p] == INVALID_PAGE || pages[p] == Cluster(m, l, p))
    && (forall p :: cur <= p < m ==> pages[p] == FREE_PAGE)
    && (0 < cur ==> pages[cur - 1] != FREE_PAGE)
  }

  /** The replacement block is a log of clusters of this logical block, each live at most once. */
  ghost predicate ReplacementOk(m: int, l: int, cur: int, pages: seq<int>)
    requires 0 < m
  {
    && |pages| == m && 0 <= cur <= m
    && (forall q :: 0 <= q < cur ==> pages[q] == INVALID_PAGE || (0 <= pages[q] && LogicalBlock(m, pages[q]) == l))
    && (forall q :: cur <= q < m ==> pages[q] == FREE_PAGE)
    && (forall q, r :: 0 <= q < r < m && 0 <= pages[q] ==> pages[q] != pages[r])
  }

  /** A cluster is live in one of the two blocks only; an invalid primary page has its cluster in the other. */
  ghost predicate PairOk(m: int, l: int, cur: int, prim: seq<int>, repl: seq<int>)
    requires 0 < m && |prim| == m
  {
    && (forall q :: 0 <= q < |repl| && 0 <= repl[q] ==>
          0 <= LogicalPage(m, repl[q]) < cur && prim[LogicalPage(m, repl[q])] < 0)
    && (forall p :: 0 <= p < m && prim[p] == INVALID_PAGE ==> Cluster(m, l, p) in repl)
  }

  ghost predicate SetOk(m: int, l: int, e: Entry, prim: seq<int>, repl: seq<int>)
    requires 0 < m
  {
    if e.primary == NFTL_POINT_TO_NULL then e.replacement == NFTL_POINT_TO_NULL
    else
      && PrimaryOk(m, l, e.curPB, prim)
      && (if e.replacement == NFTL_POINT_TO_NULL then repl == [] else ReplacementOk(m, l, e.curRB, repl))
      && PairOk(m, l, e.curPB, prim, repl)
  }

  /** The cluster is live in one of the two blocks. */
  predicate Holds(m: int, prim: seq<int>, repl: seq<int>, c: int)
    requires 0 < m && 0 <= c
  {
    (LogicalPage(m, c) < |prim| && prim[LogicalPage(m, c)] == c) || c in repl
  }

  // ---------- the whole table ----------

  predicate Owns(e: Entry, b: int) { b != NFTL_POINT_TO_NULL && (e.primary == b || e.replacement == b) }

  function Pages(v: View, b: int): seq<int> { if 0 <= b < |v.mem| then v.mem[b] else [] }

  /** Every good block is either free or belongs to exactly one logical block. */
  ghost predicate OwnedOk(g: Geometry, s: State) {
    && (forall l, b :: 0 <= l < |s.table| && Owns(s.table[l], b) ==> b in g.good && b !in s.view.free)
    && (forall l :: 0 <= l < |s.table| && s.table[l].primary != NFTL_POINT_TO_NULL ==> s.table[l].primary != s.table[l].replacement)
    && (forall l, k, b :: 0 <= l < |s.table| && 0 <= k < |s.table| && Owns(s.table[l], b) && Owns(s.table[k], b) ==> l == k)
    && (forall b :: b in g.good && b !in s.view.free ==> exists l :: 0 <= l < |s.table| && Owns(s.table[l], b))
  }

  ghost predicate SetsOk(g: Geometry, s: State)
    requires 0 < g.maxPage
  {
    forall l :: 0 <= l < |s.table| ==>
      SetOk(g.maxPage, l, s.table[l], Pages(s.view, s.table[l].primary), Pages(s.view, s.table[l].replacement))
  }

  ghost predicate FreeOk(g: Geometry, s: State)
    requires Sized(g, s.view)
  {
    && Distinct(s.view.free)
    && forall b :: b in s.view.free ==> b in g.good && Clean(s.view.mem[b])
  }

  ghost predicate Ok(g: Geometry, s: State) {
    Counted(g, s.view) && |s.table| == g.maxBlock && OwnedOk(g, s) && SetsOk(g, s) && FreeOk(g, s)
  }

  ghost predicate InRange(g: Geometry, c: int) {
    0 < g.maxPage && 0 <= c && 0 <= LogicalBlock(g.maxPage, c) < g.maxBlock
  }

  /** Cluster c can be read back. */
  predicate Written(g: Geometry, s: State, c: int)
    requires InRange(g, c) && |s.table| == g.maxBlock
  {
    var e := s.table[LogicalBlock(g.maxPage, c)];
    Holds(g.maxPage, Pages(s.view, e.primary), Pages(s.view, e.replacement), c)
  }

  /** The clusters that can be read are those of s, and c unless it is -1. */
  ghost predicate Reads(g: Geometry, s: State, s': State, c: int) {
    && |s.table| == |s'.table| == g.maxBlock
    && forall x :: InRange(g, x) ==> (Written(g, s', x) <==> Written(g, s, x) || x == c)
  }

  /** Only the blocks of logical block l changed, and they are in order. */
  lemma OneSetChanged(g: Geometry, s: State, s': State, l: int, c: int)
    requires Ok(g, s) && 0 <= l < |s.table| && |s'.table| == |s.table| && Counted(g, s'.view)
    requires forall k :: 0 <= k < |s.table| && k != l ==> s'.table[k] == s.table[k]
    requires OwnedOk(g, s') && FreeOk(g, s')
    requires forall b :: 0 <= b < g.maxBlock && !Owns(s.table[l], b) && !Owns(s'.table[l], b) ==> s'.view.mem[b] == s.view.mem[b]
    requires SetOk(g.maxPage, l, s'.table[l], Pages(s'.view, s'.table[l].primary), Pages(s'.view, s'.table[l].replacement))
    requires forall x :: InRange(g, x) && LogicalBlock(g.maxPage, x) == l ==> (Written(g, s', x) <==> Written(g, s, x) || x == c)
    requires c == -1 || (InRange(g, c) && LogicalBlock(g.maxPage, c) == l)
    ensures Ok(g, s') && Reads(g, s, s', c)
  {
    hide LogicalBlock, LogicalPage, Cluster;
    forall k | 0 <= k < |s.table| && k != l
      ensures Pages(s'.view, s'.table[k].primary) == Pages(s.view, s.table[k].primary)
      ensures Pages(s'.view, s'.table[k].replacement) == Pages(s.view, s.table[k].replacement)
    {
      OtherPages(g, s, s', l, k, s.table[k].primary);
      OtherPages(g, s, s', l, k, s.table[k].replacement);
    }
    forall x | InRange(g, x) ensures Written(g, s', x) <==> Written(g, s, x) || x == c {
      Homes(g.maxPage);
    }
  }

  lemma OtherPages(g: Geometry, s: State, s': State, l: int, k: int, b: int)
    requires Ok(g, s) && 0 <= l < |s.table| && |s'.table| == |s.table| && Sized(g, s'.view) && OwnedOk(g, s')
    requires 0 <= k < |s.table| && k != l && s'.table[k] == s.table[k]
    requires b == s.table[k].primary || b == s.table[k].replacement
    requires forall b :: 0 <= b < g.maxBlock && !Owns(s.table[l], b) && !Owns(s'.table[l], b) ==> s'.view.mem[b] == s.view.mem[b]
    ensures Pages(s'.view, b) == Pages(s.view, b)
  {
    if b != NFTL_POINT_TO_NULL {
      assert Owns(s.table[k], b) && Owns(s'.table[k], b);
    }
  }

  /** Each written cluster has exactly one live page in the whole flash memory. */
  lemma OneLivePage(g: Geometry, s: State, c: int)
    requires Ok(g, s) && InRange(g, c)
    ensures Written(g, s, c) <==> exists b, p :: LiveAt(g, s, b, p, c)
    ensures forall b, p, b', p' :: LiveAt(g, s, b, p, c) && LiveAt(g, s, b', p', c) ==> b == b' && p == p'
  {
    hide LogicalBlock, LogicalPage, Cluster;
    Homes(g.maxPage);
    var m, l := g.maxPage, LogicalBlock(g.maxPage, c);
    var e := s.table[l];
    var prim, repl := Pages(s.view, e.primary), Pages(s.view, e.replacement);
    forall b, p | LiveAt(g, s, b, p, c)
      ensures (b == e.primary && p == LogicalPage(m, c)) || (b == e.replacement && 0 <= p < |repl| && repl[p] == c)
      ensures Owns(e, b)
    {
      LiveIsAtHome(g, s, b, p, c);
    }
    if Written(g, s, c) {
      if LogicalPage(m, c) < |prim| && prim[LogicalPage(m, c)] == c {
        assert Owns(e, e.primary);
        assert LiveAt(g, s, e.primary, LogicalPage(m, c), c);
      } else {
        var q :| 0 <= q < |repl| && repl[q] == c;
        assert Owns(e, e.replacement);
        assert LiveAt(g, s, e.replacement, q, c);
      }
    }
    assert SetOk(m, l, e, prim, repl);
  }

  ghost predicate LiveAt(g: Geometry, s: State, b: int, p: int, c: int)
    requires Sized(g, s.view)
  {
    b in g.good && 0 <= p < g.maxPage && s.view.mem[b][p] == c
  }

  lemma LiveIsAtHome(g: Geometry, s: State, b: int, p: int, c: int)
    requires Ok(g, s) && InRange(g, c) && LiveAt(g, s, b, p, c)
    ensures var e := s.table[LogicalBlock(g.maxPage, c)];
            0 <= LogicalBlock(g.maxPage, c) && Owns(e, b) && (b == e.primary ==> p == LogicalPage(g.maxPage, c))
  {
    hide LogicalBlock, LogicalPage, Cluster;
    Homes(g.maxPage);
    assert b !in s.view.free;
    var l :| 0 <= l < |s.table| && Owns(s.table[l], b);
    var e := s.table[l];
    assert SetOk(g.maxPage, l, e, Pages(s.view, e.primary), Pages(s.view, e.replacement));
    ClusterHomes(g.maxPage, l);
  }

  // ---------- the cases of a write, on the two blocks ----------

  /** For the clusters of logical block l: those held before, and c. */
  ghost predicate Adds(m: int, l: int, prim: seq<int>, repl: seq<int>, prim': seq<int>, repl': seq<int>, c: int)
    requires 0 < m
  {
    forall x :: 0 <= x && LogicalBlock(m, x) == l ==> (Holds(m, prim', repl', x) <==> Holds(m, prim, repl, x) || x == c)
  }

  ghost predicate IsCluster(m: int, l: int, c: int, lp: int) {
    0 < m && 0 <= c && 0 <= l && LogicalBlock(m, c) == l && LogicalPage(m, c) == lp
  }

  /** Case 1: the page is free and above everything written so far. */
  lemma CaseInPlace(m: int, l: int, e: Entry, prim: seq<int>, repl: seq<int>, c: int, lp: int)
    requires IsCluster(m, l, c, lp) && SetOk(m, l, e, prim, repl) && e.primary != NFTL_POINT_TO_NULL
    requires 0 <= lp < m && prim[lp] == FREE_PAGE && e.curPB <= lp
    ensures SetOk(m, l, e.(curPB := lp + 1), prim[lp := c], repl)
    ensures Adds(m, l, prim, repl, prim[lp := c], repl, c)
  {
    hide LogicalBlock, LogicalPage, Cluster;
    Homes(m);
    ClusterHomes(m, l);
  }

  /** Case 2: the cluster moves from the primary block to the replacement block. */
  lemma CaseFromPrimary(m: int, l: int, e: Entry, prim: seq<int>, repl: seq<int>, c: int, lp: int)
    requires IsCluster(m, l, c, lp) && SetOk(m, l, e, prim, repl) && e.primary != NFTL_POINT_TO_NULL
    requires e.replacement != NFTL_POINT_TO_NULL && 0 <= e.curRB < m && 0 <= lp < m && prim[lp] == c
    ensures SetOk(m, l, e.(curRB := e.curRB + 1), prim[lp := INVALID_PAGE], repl[e.curRB := c])
    ensures Adds(m, l, prim, repl, prim[lp := INVALID_PAGE], repl[e.curRB := c], c)
  {
    hide LogicalBlock, LogicalPage, Cluster;
    Homes(m);
    ClusterHomes(m, l);
    Appended(repl, e.curRB, c);
  }

  lemma Appended(repl: seq<int>, cur: int, c: int)
    requires 0 <= cur < |repl| && repl[cur] == FREE_PAGE && 0 <= c
    ensures forall x :: x >= 0 ==> (x in repl[cur := c] <==> x in repl || x == c)
  {
    var r := repl[cur := c];
    assert r[cur] == c;
    forall x | x >= 0 ensures x in r <==> x in repl || x == c {
      if x in repl {
        var q :| 0 <= q < |repl| && repl[q] == x;
        assert r[q] == x;
      }
    }
  }

  /** Dropping the only copy of c from the log. */
  lemma Dropped(repl: seq<int>, i: int, c: int)
    requires 0 <= i < |repl| && repl[i] == c && 0 <= c
    requires forall q, r :: 0 <= q < r < |repl| && 0 <= repl[q] ==> repl[q] != repl[r]
    ensures forall x :: x >= 0 ==> (x in repl[i := INVALID_PAGE] <==> x in repl && x != c)
  {
    forall x | x >= 0 && x in repl && x != c ensures x in repl[i := INVALID_PAGE] {
      var q :| 0 <= q < |repl| && repl[q] == x;
      assert repl[i := INVALID_PAGE][q] == x;
    }
    assert c !in repl[i := INVALID_PAGE];
  }

  /** The log with one page of it made invalid, or unchanged if i is -1. */
  function WithoutPage(repl: seq<int>, i: int): seq<int> { if 0 <= i < |repl| then repl[i := INVALID_PAGE] else repl }

  lemma LogUpdated(m: int, l: int, cur: int, repl: seq<int>, c: int, i: int)
    requires 0 < m && ReplacementOk(m, l, cur, repl) && cur < m && 0 <= c && LogicalBlock(m, c) == l
    requires if c in repl then 0 <= i < cur && repl[i] == c else i == -1
    ensures ReplacementOk(m, l, cur + 1, WithoutPage(repl, i)[cur := c])
    ensures forall x :: x >= 0 ==> (x in WithoutPage(repl, i)[cur := c] <==> x in repl || x == c)
  {
    hide LogicalBlock;
    if c in repl { Dropped(repl, i, c); }
    var mid := WithoutPage(repl, i);
    Appended(mid, cur, c);
    assert c !in mid;
  }

  /** Cases 3 and 4: the cluster's copy in the log, if there is one, is replaced by a new one at its end. */
  lemma CaseFromReplacement(m: int, l: int, e: Entry, prim: seq<int>, repl: seq<int>, c: int, lp: int, i: int)
    requires IsCluster(m, l, c, lp) && SetOk(m, l, e, prim, repl) && e.primary != NFTL_POINT_TO_NULL
    requires e.replacement != NFTL_POINT_TO_NULL && 0 <= e.curRB < m && 0 <= lp < m && prim[lp] != c
    requires if c in repl then 0 <= i < e.curRB && repl[i] == c else i == -1 && lp < e.curPB
    ensures SetOk(m, l, e.(curRB := e.curRB + 1), prim, WithoutPage(repl, i)[e.curRB := c])
    ensures Adds(m, l, prim, repl, prim, WithoutPage(repl, i)[e.curRB := c], c)
  {
    hide LogicalBlock, LogicalPage, Cluster;
    Homes(m);
    ClusterHomes(m, l);
    LogUpdated(m, l, e.curRB, repl, c, i);
    hide ReplacementOk;
    assert prim[lp] < 0;
  }

  /** A clean block as primary block. */
  lemma NewPrimarySet(m: int, l: int, e: Entry, clean: seq<int>)
    requires 0 < m && |clean| == m && Clean(clean)
    requires e.primary != NFTL_POINT_TO_NULL && e.curPB == 0 && e.replacement == NFTL_POINT_TO_NULL
    ensures SetOk(m, l, e, clean, []) && Adds(m, l, [], [], clean, [], -1)
  {
    hide LogicalBlock, LogicalPage, Cluster;
  }

  /** A clean block as replacement block. */
  lemma NewReplacementSet(m: int, l: int, e: Entry, prim: seq<int>, clean: seq<int>, b: int)
    requires 0 < m && |clean| == m && Clean(clean) && SetOk(m, l, e, prim, []) && b != NFTL_POINT_TO_NULL
    requires e.primary != NFTL_POINT_TO_NULL && e.replacement == NFTL_POINT_TO_NULL
    ensures SetOk(m, l, e.(replacement := b, curRB := 0), prim, clean) && Adds(m, l, prim, [], prim, clean, -1)
  {
    hide LogicalBlock, LogicalPage, Cluster;
  }

  /** After the first test failed, one of cases 2, 3 and 4 applies; in case 3 the cluster is in the log. */
  lemma CasesCover(m: int, l: int, e: Entry, prim: seq<int>, repl: seq<int>, c: int, lp: int)
    requires IsCluster(m, l, c, lp) && SetOk(m, l, e, prim, repl) && e.primary != NFTL_POINT_TO_NULL && 0 <= lp < m
    ensures prim[lp] == c || prim[lp] == INVALID_PAGE || prim[lp] == FREE_PAGE
    ensures prim[lp] == INVALID_PAGE ==> c in repl
    ensures e.curPB <= lp ==> prim[lp] == FREE_PAGE && c !in repl
  {
    hide LogicalBlock, LogicalPage, Cluster;
    Homes(m);
    ClusterHomes(m, l);
  }

  // ---------- merging the two blocks ----------

  /** Pages i of the primary and j of the replacement block have been copied, each to its own offset. */
  function CopiedUpTo(m: nat, l: int, prim: seq<int>, repl: seq<int>, i: int, j: int): (pages: seq<int>)
    requires |prim| == |repl| == m && 0 <= i <= m && 0 <= j <= m
    ensures |pages| == m
  {
    seq(m, p requires 0 <= p < m =>
      if (p < i && prim[p] >= 0) || Cluster(m, l, p) in repl[..j] then Cluster(m, l, p) else FREE_PAGE)
  }

  ghost predicate MergeSource(m: nat, l: int, cur: int, curRB: int, prim: seq<int>, repl: seq<int>) {
    0 < m && 0 <= l && PrimaryOk(m, l, cur, prim) && ReplacementOk(m, l, curRB, repl) && PairOk(m, l, cur, prim, repl)
  }

  lemma CopyPrimaryPage(m: nat, l: int, cur: int, curRB: int, prim: seq<int>, repl: seq<int>, i: nat)
    requires MergeSource(m, l, cur, curRB, prim, repl) && i < m
    ensures prim[i] >= 0 ==> CopiedUpTo(m, l, prim, repl, i, i)[i] == FREE_PAGE
    ensures CopiedUpTo(m, l, prim, repl, i + 1, i)
            == if prim[i] >= 0 then CopiedUpTo(m, l, prim, repl, i, i)[i := prim[i]] else CopiedUpTo(m, l, prim, repl, i, i)
    ensures prim[i] >= 0 || prim[i] == INVALID_PAGE || prim[i] == FREE_PAGE
    ensures prim[i] >= 0 ==> i < cur
  {
    hide LogicalBlock, LogicalPage, Cluster;
    ClusterHomes(m, l);
  }

  lemma CopyReplacementPage(m: nat, l: int, cur: int, curRB: int, prim: seq<int>, repl: seq<int>, i: nat)
    requires MergeSource(m, l, cur, curRB, prim, repl) && i < m
    ensures repl[i] >= 0 || repl[i] == INVALID_PAGE || repl[i] == FREE_PAGE
    ensures repl[i] >= 0 ==> 0 <= LogicalPage(m, repl[i]) < cur <= m
    ensures repl[i] >= 0 ==> CopiedUpTo(m, l, prim, repl, i + 1, i)[LogicalPage(m, repl[i])] == FREE_PAGE
    ensures CopiedUpTo(m, l, prim, repl, i + 1, i + 1)
            == if repl[i] >= 0 then CopiedUpTo(m, l, prim, repl, i + 1, i)[LogicalPage(m, repl[i]) := repl[i]]
               else CopiedUpTo(m, l, prim, repl, i + 1, i)
  {
    hide LogicalBlock, LogicalPage, Cluster;
    ClusterHomes(m, l);
    Homes(m);
    assert repl[..i + 1] == repl[..i] + [repl[i]];
    if repl[i] >= 0 {
      assert repl[i] !in repl[..i];
    }
  }

  function MergedPages(m: nat, l: int, prim: seq<int>, repl: seq<int>): (pages: seq<int>)
    requires |prim| == |repl| == m
    ensures |pages| == m
  {
    CopiedUpTo(m, l, prim, repl, m, m)
  }

  /** The merged block is a primary block on its own, holding the same clusters below the same mark. */
  lemma MergedSet(m: nat, l: int, e: Entry, prim: seq<int>, repl: seq<int>, e': Entry)
    requires MergeSource(m, l, e.curPB, e.curRB, prim, repl)
    requires e'.primary != NFTL_POINT_TO_NULL && e'.curPB == e.curPB && e'.replacement == NFTL_POINT_TO_NULL
    ensures SetOk(m, l, e', MergedPages(m, l, prim, repl), [])
    ensures Adds(m, l, prim, repl, MergedPages(m, l, prim, repl), [], -1)
    ensures CountInvalid(MergedPages(m, l, prim, repl)) == 0
  {
    hide LogicalBlock, LogicalPage, Cluster;
    ClusterHomes(m, l);
    Homes(m);
    var merged := MergedPages(m, l, prim, repl);
    assert repl[..m] == repl;
    CountNone(merged);
    if 0 < e.curPB {
      assert prim[e.curPB - 1] >= 0 || Cluster(m, l, e.curPB - 1) in repl;
    }
    assert forall p :: e.curPB <= p < m ==> Cluster(m, l, p) !in repl;
  }

  lemma {:induction false} CountNone(pages: seq<int>)
    requires INVALID_PAGE !in pages
    ensures CountInvalid(pages) == 0
  {
    if pages != [] { CountNone(pages[..|pages| - 1]); }
  }

  // ---------- steps on the whole state ----------

  /** The two blocks of logical block l. */
  function Prim(s: State, l: int): seq<int>
    requires 0 <= l < |s.table|
  {
    Pages(s.view, s.table[l].primary)
  }

  function Repl(s: State, l: int): seq<int>
    requires 0 <= l < |s.table|
  {
    Pages(s.view, s.table[l].replacement)
  }

  ghost predicate SameElsewhere(g: Geometry, s: State, s': State, l: int)
    requires 0 <= l < |s.table| && |s'.table| == |s.table| && Sized(g, s.view) && Sized(g, s'.view)
  {
    && (forall k :: 0 <= k < |s.table| && k != l ==> s'.table[k] == s.table[k])
    && (forall b :: 0 <= b < g.maxBlock && !Owns(s.table[l], b) && !Owns(s'.table[l], b) ==> s'.view.mem[b] == s.view.mem[b])
  }

  /** What a step on logical block l must show about that block alone. */
  ghost predicate SetStep(g: Geometry, s: State, s': State, l: int, c: int) {
    && Counted(g, s'.view) && 0 <= l < |s.table| && |s'.table| == |s.table| && Sized(g, s.view) && SameElsewhere(g, s, s', l)
    && SetOk(g.maxPage, l, s'.table[l], Prim(s', l), Repl(s', l))
    && Adds(g.maxPage, l, Prim(s, l), Repl(s, l), Prim(s', l), Repl(s', l), c)
    && (c == -1 || (InRange(g, c) && LogicalBlock(g.maxPage, c) == l))
  }

  lemma SetStepOk(g: Geometry, s: State, s': State, l: int, c: int)
    requires Ok(g, s) && SetStep(g, s, s', l, c) && OwnedOk(g, s') && FreeOk(g, s')
    ensures Ok(g, s') && Reads(g, s, s', c)
  {
    hide LogicalBlock, LogicalPage, Cluster;
    OneSetChanged(g, s, s', l, c);
  }

  /** A step that keeps the blocks of every logical block. */
  lemma InPlaceOk(g: Geometry, s: State, s': State, l: int, c: int)
    requires Ok(g, s) && SetStep(g, s, s', l, c) && s'.view.free == s.view.free
    requires s'.table[l].primary == s.table[l].primary && s'.table[l].replacement == s.table[l].replacement
    ensures Ok(g, s') && Reads(g, s, s', c)
  {
    hide LogicalBlock, LogicalPage, Cluster, SetOk, Adds;
    assert OwnedOk(g, s') by {
      hide Counted, FreeOk, SetsOk;
      assert forall k, b :: 0 <= k < |s.table| ==> (Owns(s'.table[k], b) <==> Owns(s.table[k], b));
    }
    assert FreeOk(g, s') by { assert forall b :: b in s.view.free ==> !Owns(s.table[l], b); }
    SetStepOk(g, s, s', l, c);
  }

  /** The first free block becomes the primary or the replacement block of l. */
  ghost predicate Attaches(g: Geometry, s: State, s': State, l: int) {
    && s.view.free != [] && s'.view == s.view.(free := s.view.free[1..]) && 0 <= l < |s.table|
    && |s'.table| == |s.table| && s'.table == s.table[l := s'.table[l]]
    && (forall b :: Owns(s'.table[l], b) <==> Owns(s.table[l], b) || b == s.view.free[0])
    && (s'.table[l].primary != NFTL_POINT_TO_NULL ==> s'.table[l].primary != s'.table[l].replacement)
  }

  lemma AttachFree(g: Geometry, s: State, s': State, l: int)
    requires Ok(g, s) && Attaches(g, s, s', l)
    ensures s.view.free[0] in g.good && 0 <= s.view.free[0] && FreeOk(g, s')
    ensures forall b :: b in s'.view.free <==> b in s.view.free && b != s.view.free[0]
  {
    hide SetsOk, OwnedOk;
    assert s.view.free == [s.view.free[0]] + s'.view.free;
    assert s.view.free[0] in s.view.free;
  }

  lemma AttachOwned(g: Geometry, s: State, s': State, l: int)
    requires OwnedOk(g, s) && Attaches(g, s, s', l) && s.view.free[0] in g.good && 0 <= s.view.free[0]
    requires forall b :: b in s'.view.free <==> b in s.view.free && b != s.view.free[0]
    ensures OwnedOk(g, s')
  {
    var f := s.view.free[0];
    assert f in s.view.free;
    forall b | b in g.good && b !in s'.view.free ensures exists k :: 0 <= k < |s'.table| && Owns(s'.table[k], b) {
      if b == f {
        assert Owns(s'.table[l], b);
      } else {
        var k :| 0 <= k < |s.table| && Owns(s.table[k], b);
        assert Owns(s'.table[k], b);
      }
    }
  }

  function AttachPrimary(s: State, l: int): State
    requires 0 <= l < |s.table| && s.view.free != []
  {
    State(s.view.(free := s.view.free[1..]), s.table[l := s.table[l].(primary := s.view.free[0], curPB := 0)])
  }

  function AttachReplacement(s: State, l: int): State
    requires 0 <= l < |s.table| && s.view.free != []
  {
    State(s.view.(free := s.view.free[1..]), s.table[l := s.table[l].(replacement := s.view.free[0], curRB := 0)])
  }

  lemma AttachPrimaryOk(g: Geometry, s: State, l: int)
    requires Ok(g, s) && 0 <= l < |s.table| && s.view.free != [] && s.table[l].primary == NFTL_POINT_TO_NULL
    ensures Ok(g, AttachPrimary(s, l)) && Reads(g, s, AttachPrimary(s, l), -1)
  {
    hide LogicalBlock, LogicalPage, Cluster;
    var s', f := AttachPrimary(s, l), s.view.free[0];
    assert f in s.view.free;
    assert SetOk(g.maxPage, l, s.table[l], Prim(s, l), Repl(s, l));
    NewPrimarySet(g.maxPage, l, s'.table[l], s.view.mem[f]);
    hide OwnedOk, FreeOk, SetsOk, SetOk, Adds, Counted, Reads;
    AttachFree(g, s, s', l);
    AttachOwned(g, s, s', l);
    SetStepOk(g, s, s', l, -1);
  }

  lemma AttachReplacementOk(g: Geometry, s: State, l: int)
    requires Ok(g, s) && 0 <= l < |s.table| && s.view.free != []
    requires s.table[l].primary != NFTL_POINT_TO_NULL && s.table[l].replacement == NFTL_POINT_TO_NULL
    ensures Ok(g, AttachReplacement(s, l)) && Reads(g, s, AttachReplacement(s, l), -1)
  {
    hide LogicalBlock, LogicalPage, Cluster;
    var s', f := AttachReplacement(s, l), s.view.free[0];
    assert f in s.view.free && Owns(s.table[l], s.table[l].primary);
    assert SetOk(g.maxPage, l, s.table[l], Prim(s, l), Repl(s, l));
    NewReplacementSet(g.maxPage, l, s.table[l], Prim(s, l), s.view.mem[f], f);
    hide OwnedOk, FreeOk, SetsOk, SetOk, Adds, Counted, Reads;
    AttachFree(g, s, s', l);
    AttachOwned(g, s, s', l);
    SetStepOk(g, s, s', l, -1);
  }

  /** NFTLMergeBlocks: both blocks go to the end of the free list and its first block takes over. */
  predicate Mergeable(s: State, l: int) {
    0 <= l < |s.table| && s.table[l].primary != NFTL_POINT_TO_NULL && s.table[l].replacement != NFTL_POINT_TO_NULL
  }

  ghost function Merged(g: Geometry, s: State, l: int): State
    requires Sized(g, s.view) && Mergeable(s, l) && s.view.free != [] && s.view.free[0] in g.good
    requires s.table[l].primary in g.good && s.table[l].replacement in g.good
  {
    var e, v, f := s.table[l], s.view, s.view.free[0];
    var merged, clean := MergedPages(g.maxPage, l, v.mem[e.primary], v.mem[e.replacement]), InitialPages(g.maxPage, false);
    var v1 := BlockUpdated(v, f, merged, CountValid(merged), 0);
    var v2 := BlockUpdated(v1, e.primary, clean, 0, 0);
    var v3 := BlockUpdated(v2, e.replacement, clean, 0, 0);
    State(v3.(free := v.free[1..] + [e.primary, e.replacement]),
          s.table[l := Entry(f, e.curPB, NFTL_POINT_TO_NULL, NFTL_POINT_TO_NULL)])
  }

  lemma MergeFacts(g: Geometry, s: State, l: int)
    requires Ok(g, s) && Mergeable(s, l) && s.view.free != []
    ensures var e, f := s.table[l], s.view.free[0];
            f in g.good && e.primary in g.good && e.replacement in g.good
            && f != e.primary && f != e.replacement && e.primary != e.replacement
            && e.primary !in s.view.free && e.replacement !in s.view.free
            && MergeSource(g.maxPage, l, e.curPB, e.curRB, s.view.mem[e.primary], s.view.mem[e.replacement])
            && Clean(s.view.mem[f]) && s.view.valid[f] == s.view.invalid[f] == 0
  {
    hide LogicalBlock, LogicalPage, Cluster;
    var e, f := s.table[l], s.view.free[0];
    assert f in s.view.free;
    assert Owns(e, e.primary) && Owns(e, e.replacement);
    assert SetOk(g.maxPage, l, e, Prim(s, l), Repl(s, l));
    CountBounds(s.view.mem[f]);
  }

  lemma MergedFree(g: Geometry, s: State, l: int)
    requires Ok(g, s) && Mergeable(s, l) && s.view.free != []
    requires s.view.free[0] in g.good && s.table[l].primary in g.good && s.table[l].replacement in g.good
    ensures Sized(g, Merged(g, s, l).view) && FreeOk(g, Merged(g, s, l))
    ensures forall b :: b in Merged(g, s, l).view.free <==>
              (b in s.view.free && b != s.view.free[0]) || b == s.table[l].primary || b == s.table[l].replacement
  {
    MergeFacts(g, s, l);
    hide SetsOk, Counted, MergeSource, OwnedOk, MergedPages;
    assert s.view.free == [s.view.free[0]] + s.view.free[1..];
  }

  lemma MergedOwned(g: Geometry, s: State, s': State, l: int)
    requires OwnedOk(g, s) && Mergeable(s, l) && s.view.free != [] && s.view.free[0] in g.good && s.view.free[0] >= 0
    requires s.table[l].primary != s.table[l].replacement
    requires |s'.table| == |s.table| && s'.table == s.table[l := Entry(s.view.free[0], s.table[l].curPB, -1, -1)]
    requires forall b :: b in s'.view.free <==>
               (b in s.view.free && b != s.view.free[0]) || b == s.table[l].primary || b == s.table[l].replacement
    ensures OwnedOk(g, s')
  {
    var f := s.view.free[0];
    assert f in s.view.free;
    assert forall b :: b >= 0 ==> (Owns(s'.table[l], b) <==> b == f);
    assert Owns(s.table[l], s.table[l].primary) && Owns(s.table[l], s.table[l].replacement);
    forall b | b in g.good && b !in s'.view.free ensures exists k :: 0 <= k < |s'.table| && Owns(s'.table[k], b) {
      if b == f {
        assert Owns(s'.table[l], b);
      } else {
        var k :| 0 <= k < |s.table| && Owns(s.table[k], b);
        assert Owns(s'.table[k], b);
      }
    }
  }

  lemma MergedEntry(g: Geometry, s: State, l: int)
    requires Sized(g, s.view) && Mergeable(s, l) && s.view.free != [] && s.view.free[0] in g.good
    requires s.table[l].primary in g.good && s.table[l].replacement in g.good
    ensures Merged(g, s, l).table
            == s.table[l := Entry(s.view.free[0], s.table[l].curPB, NFTL_POINT_TO_NULL, NFTL_POINT_TO_NULL)]
  {
  }

  lemma MergedCounted(g: Geometry, v: View, f: int, p: int, r: int, merged: seq<int>)
    requires Counted(g, v) && f in g.good && p in g.good && r in g.good && f != p && f != r && p != r
    requires |merged| == g.maxPage && CountInvalid(merged) == 0
    ensures var clean := InitialPages(g.maxPage, false);
            Counted(g, BlockUpdated(BlockUpdated(BlockUpdated(v, f, merged, CountValid(merged), 0), p, clean, 0, 0), r, clean, 0, 0))
  {
    var clean := InitialPages(g.maxPage, false);
    CountBounds(clean);
    BlockUpdatedCounted(g, v, f, merged, CountValid(merged), 0);
    var v1 := BlockUpdated(v, f, merged, CountValid(merged), 0);
    BlockUpdatedCounted(g, v1, p, clean, 0, 0);
    BlockUpdatedCounted(g, BlockUpdated(v1, p, clean, 0, 0), r, clean, 0, 0);
  }

  lemma MergedElsewhere(g: Geometry, s: State, l: int)
    requires Counted(g, s.view) && |s.table| == g.maxBlock && Mergeable(s, l) && s.view.free != []
    requires s.view.free[0] in g.good && s.table[l].primary in g.good && s.table[l].replacement in g.good
    requires s.view.free[0] != s.table[l].primary && s.view.free[0] != s.table[l].replacement
    requires s.table[l].primary != s.table[l].replacement
    ensures var e, s' := s.table[l], Merged(g, s, l);
            Sized(g, s'.view) && SameElsewhere(g, s, s', l) && Repl(s', l) == []
            && Prim(s', l) == MergedPages(g.maxPage, l, s.view.mem[e.primary], s.view.mem[e.replacement])
  {
    hide MergedPages, Cluster;
  }

  /** A merge loses nothing and gains nothing, and leaves the list one block longer. */
  lemma MergedOk(g: Geometry, s: State, l: int)
    requires Ok(g, s) && Mergeable(s, l) && s.view.free != []
    requires s.view.free[0] in g.good && s.table[l].primary in g.good && s.table[l].replacement in g.good
    ensures Ok(g, Merged(g, s, l)) && Reads(g, s, Merged(g, s, l), -1)
    ensures |Merged(g, s, l).view.free| == |s.view.free| + 1
  {
    hide LogicalBlock, LogicalPage, Cluster, OwnedOk, FreeOk, SetsOk, MergeSource, SetOk, Adds, MergedPages, Reads;
    MergeFacts(g, s, l);
    MergedFree(g, s, l);
    MergedOwned(g, s, Merged(g, s, l), l);
    MergedElsewhere(g, s, l);
    var s', e, f := Merged(g, s, l), s.table[l], s.view.free[0];
    hide SameElsewhere;
    var prim, repl := s.view.mem[e.primary], s.view.mem[e.replacement];
    assert Prim(s, l) == prim && Repl(s, l) == repl;
    MergedSet(g.maxPage, l, e, prim, repl, s'.table[l]);
    MergedCounted(g, s.view, f, e.primary, e.replacement, MergedPages(g.maxPage, l, prim, repl));
    assert Counted(g, s'.view);
    SetStepOk(g, s, s', l, -1);
  }

  // ---------- the cases of a write, on the whole state ----------

  ghost predicate CanStore(g: Geometry, s: State, l: int, c: int, lp: int) {
    && Ok(g, s) && InRange(g, c) && IsCluster(g.maxPage, l, c, lp) && 0 <= lp < g.maxPage
    && 0 <= l < |s.table| && s.table[l].primary in g.good
  }

  lemma CanStoreFacts(g: Geometry, s: State, l: int, c: int, lp: int)
    requires CanStore(g, s, l, c, lp)
    ensures Counted(g, s.view) && |s.table| == g.maxBlock
    ensures s.table[l].primary in g.good && Prim(s, l) == s.view.mem[s.table[l].primary]
    ensures SetOk(g.maxPage, l, s.table[l], Prim(s, l), Repl(s, l))
    ensures s.table[l].replacement != NFTL_POINT_TO_NULL ==>
              s.table[l].replacement in g.good && s.table[l].replacement != s.table[l].primary
              && Repl(s, l) == s.view.mem[s.table[l].replacement] && 0 <= s.table[l].curRB <= g.maxPage
  {
    assert Owns(s.table[l], s.table[l].primary);
    assert s.table[l].replacement != NFTL_POINT_TO_NULL ==> Owns(s.table[l], s.table[l].replacement);
  }

  /** New contents for the two blocks of l. */
  lemma PagesStep(g: Geometry, s: State, s': State, l: int, c: int, lp: int, prim: seq<int>, repl: seq<int>)
    requires CanStore(g, s, l, c, lp) && Counted(g, s'.view) && |s'.table| == |s.table| && s'.view.free == s.view.free
    requires s'.table == s.table[l := s'.table[l]]
    requires s'.table[l].primary == s.table[l].primary && s'.table[l].replacement == s.table[l].replacement
    requires forall b :: 0 <= b < g.maxBlock ==>
               s'.view.mem[b] == if b == s.table[l].primary then prim else if b == s.table[l].replacement then repl else s.view.mem[b]
    requires SetOk(g.maxPage, l, s'.table[l], prim, repl) && Adds(g.maxPage, l, Prim(s, l), Repl(s, l), prim, repl, c)
    ensures Ok(g, s') && Reads(g, s, s', c)
  {
    hide LogicalBlock, LogicalPage, Cluster;
    CanStoreFacts(g, s, l, c, lp);
    assert s.table[l].replacement == NFTL_POINT_TO_NULL ==> repl == [];
    hide SetOk, Adds, SetsOk, OwnedOk, FreeOk;
    InPlaceOk(g, s, s', l, c);
  }

  function StoredInPlace(s: State, l: int, c: int, lp: int): State
    requires 0 <= l < |s.table| && 0 <= s.table[l].primary < |s.view.mem| == |s.view.valid| == |s.view.invalid|
    requires 0 <= lp < |s.view.mem[s.table[l].primary]|
  {
    State(SetPage(s.view, s.table[l].primary, lp, c), s.table[l := s.table[l].(curPB := lp + 1)])
  }

  lemma StoredInPlaceOk(g: Geometry, s: State, l: int, c: int, lp: int)
    requires CanStore(g, s, l, c, lp) && s.view.mem[s.table[l].primary][lp] == FREE_PAGE && s.table[l].curPB <= lp
    ensures Ok(g, StoredInPlace(s, l, c, lp)) && Reads(g, s, StoredInPlace(s, l, c, lp), c)
  {
    hide LogicalBlock, LogicalPage, Cluster, Ok, SetOk, Adds, Reads;
    CanStoreFacts(g, s, l, c, lp);
    CaseInPlace(g.maxPage, l, s.table[l], Prim(s, l), Repl(s, l), c, lp);
    SetPageBlocks(g, s.view, s.table[l].primary, lp, c);
    hide SetPage, Counted;
    PagesStep(g, s, StoredInPlace(s, l, c, lp), l, c, lp, Prim(s, l)[lp := c], Repl(s, l));
  }

  /** Invalidate page (b, p) unless p is -1, then append c to the replacement block. */
  function Relogged(s: State, l: int, b: int, p: int, c: int): State
    requires 0 <= l < |s.table| && |s.view.mem| == |s.view.valid| == |s.view.invalid|
    requires 0 <= b < |s.view.mem| && p < |s.view.mem[b]|
    requires 0 <= s.table[l].replacement < |s.view.mem| && 0 <= s.table[l].curRB < |s.view.mem[s.table[l].replacement]|
  {
    var v := if p < 0 then s.view else SetPage(s.view, b, p, INVALID_PAGE);
    State(SetPage(v, s.table[l].replacement, s.table[l].curRB, c), s.table[l := s.table[l].(curRB := s.table[l].curRB + 1)])
  }

  /** Page by page in whole blocks. */
  lemma ReloggedPages(g: Geometry, s: State, l: int, b: int, p: int, c: int)
    requires Counted(g, s.view) && 0 <= l < |s.table| && HasRoom(g, s, l) && b in g.good && p < g.maxPage
    ensures var r, q, s' := s.table[l].replacement, s.table[l].curRB, Relogged(s, l, b, p, c);
            Counted(g, s'.view) && s'.view.free == s.view.free && s'.table == s.table[l := s.table[l].(curRB := q + 1)]
            && forall x :: 0 <= x < g.maxBlock ==>
                 s'.view.mem[x] == var pages := if x == b then WithoutPage(s.view.mem[x], p) else s.view.mem[x];
                                   if x == r then pages[q := c] else pages
  {
    hide SetPage, CountValid, CountInvalid;
    if 0 <= p { SetPageBlocks(g, s.view, b, p, INVALID_PAGE); }
    var v := if p < 0 then s.view else SetPage(s.view, b, p, INVALID_PAGE);
    SetPageBlocks(g, v, s.table[l].replacement, s.table[l].curRB, c);
  }

  ghost predicate HasRoom(g: Geometry, s: State, l: int) {
    0 <= l < |s.table| && s.table[l].replacement in g.good && 0 <= s.table[l].curRB < g.maxPage
  }

  lemma RelogPrimaryOk(g: Geometry, s: State, l: int, c: int, lp: int)
    requires CanStore(g, s, l, c, lp) && HasRoom(g, s, l) && s.view.mem[s.table[l].primary][lp] == c
    ensures Ok(g, Relogged(s, l, s.table[l].primary, lp, c)) && Reads(g, s, Relogged(s, l, s.table[l].primary, lp, c), c)
  {
    hide LogicalBlock, LogicalPage, Cluster, Ok, SetOk, Adds, Reads;
    CanStoreFacts(g, s, l, c, lp);
    var e := s.table[l];
    CaseFromPrimary(g.maxPage, l, e, Prim(s, l), Repl(s, l), c, lp);
    ReloggedPages(g, s, l, e.primary, lp, c);
    hide Relogged, Counted;
    PagesStep(g, s, Relogged(s, l, e.primary, lp, c), l, c, lp, Prim(s, l)[lp := INVALID_PAGE], Repl(s, l)[e.curRB := c]);
  }

  lemma RelogReplacementOk(g: Geometry, s: State, l: int, c: int, lp: int, i: int)
    requires CanStore(g, s, l, c, lp) && HasRoom(g, s, l) && s.view.mem[s.table[l].primary][lp] != c
    requires if c in s.view.mem[s.table[l].replacement] then 0 <= i < s.table[l].curRB && s.view.mem[s.table[l].replacement][i] == c
             else i == -1 && lp < s.table[l].curPB
    ensures Ok(g, Relogged(s, l, s.table[l].replacement, i, c)) && Reads(g, s, Relogged(s, l, s.table[l].replacement, i, c), c)
  {
    hide LogicalBlock, LogicalPage, Cluster, Ok, SetOk, Adds, Reads;
    CanStoreFacts(g, s, l, c, lp);
    var e := s.table[l];
    CaseFromReplacement(g.maxPage, l, e, Prim(s, l), Repl(s, l), c, lp, i);
    ReloggedPages(g, s, l, e.replacement, i, c);
    hide Relogged, Counted;
    PagesStep(g, s, Relogged(s, l, e.replacement, i, c), l, c, lp, Prim(s, l), WithoutPage(Repl(s, l), i)[e.curRB := c]);
  }

  // ---------- when a write cannot go on ----------

  /** The counters of block b pass the test of the garbage collection. */
  predicate Worth(v: View, b: int, divider: int)
    requires divider != 0
  {
    0 <= b < |v.valid| && b < |v.invalid| && v.invalid[b] > Truncated(v.valid[b], divider)
  }

  /** Logical block k is what the scan on behalf of l stops at. */
  predicate Victim(s: State, k: int, l: int, divider: int)
    requires divider != 0
  {
    Mergeable(s, k) && k != l && (Worth(s.view, s.table[k].primary, divider) || Worth(s.view, s.table[k].replacement, divider))
  }

  /** One of the two blocks of k has an invalid page. */
  predicate Stale(s: State, k: int)
    requires 0 <= k < |s.table|
  {
    INVALID_PAGE in Prim(s, k) || INVALID_PAGE in Repl(s, k)
  }

  lemma WorthNeedsInvalid(g: Geometry, v: View, b: int, divider: int)
    requires Counted(g, v) && b in g.good && (0 < divider || divider + g.maxPage < 0)
    ensures Worth(v, b, divider) ==> INVALID_PAGE in v.mem[b]
    ensures INVALID_PAGE in v.mem[b] && g.maxPage < divider ==> Worth(v, b, divider)
  {
    CountBounds(v.mem[b]);
    if INVALID_PAGE !in v.mem[b] { CountNone(v.mem[b]); }
    SmallQuotient(v.valid[b], divider);
  }

  /** A victim has an invalid page, and once the divider is past MaxPage that is enough. */
  lemma VictimIsStale(g: Geometry, s: State, k: int, l: int, divider: int)
    requires Ok(g, s) && (0 < divider || divider + g.maxPage < 0) && Mergeable(s, k)
    ensures Victim(s, k, l, divider) ==> k != l && Stale(s, k)
    ensures k != l && Stale(s, k) && g.maxPage < divider ==> Victim(s, k, l, divider)
  {
    var e := s.table[k];
    assert Owns(e, e.primary) && Owns(e, e.replacement);
    hide Worth;
    WorthNeedsInvalid(g, s.view, e.primary, divider);
    WorthNeedsInvalid(g, s.view, e.replacement, divider);
  }

  /** No block above the reserve, and in no other logical block that has both blocks an invalid page. */
  ghost predicate NoBlockFor(g: Geometry, s: State, l: int) {
    |s.view.free| == g.reserve && forall k :: 0 <= k < |s.table| && k != l && Mergeable(s, k) ==> !Stale(s, k)
  }

  ghost predicate NeedsBlock(g: Geometry, s: State, c: int)
    requires Ok(g, s) && InRange(g, c)
  {
    var e := s.table[LogicalBlock(g.maxPage, c)];
    e.primary == NFTL_POINT_TO_NULL || (LogicalPage(g.maxPage, c) < e.curPB && e.replacement == NFTL_POINT_TO_NULL)
  }

  ghost predicate Stuck(g: Geometry, s: State, c: int)
    requires Ok(g, s) && InRange(g, c)
  {
    NeedsBlock(g, s, c) && NoBlockFor(g, s, LogicalBlock(g.maxPage, c))
  }

  /** A stuck write finds no victim whatever the divider is. */
  lemma StuckFindsNoVictim(g: Geometry, s: State, c: int)
    requires Ok(g, s) && InRange(g, c) && Stuck(g, s, c)
    ensures forall k, d :: 0 < d || d + g.maxPage < 0 ==> !Victim(s, k, LogicalBlock(g.maxPage, c), d)
  {
    hide LogicalBlock, LogicalPage, Cluster;
    var l := LogicalBlock(g.maxPage, c);
    forall k, d | 0 < d || d + g.maxPage < 0 ensures !Victim(s, k, l, d) {
      if Mergeable(s, k) { VictimIsStale(g, s, k, l, d); }
    }
  }

  // ---------- how many logical blocks fit ----------

  ghost function InUse(s: State): set<int> { set k | 0 <= k < |s.table| && s.table[k].primary != NFTL_POINT_TO_NULL }

  ghost function Pairs(s: State): set<int> { set k | 0 <= k < |s.table| && Mergeable(s, k) }

  /** Every good block is on the list, a primary block or a replacement block. */
  lemma BlocksConserved(g: Geometry, s: State)
    requires Ok(g, s)
    ensures |s.view.free| + |InUse(s)| + |Pairs(s)| == |g.good|
  {
    hide SetOk, Clean, CountValid, CountInvalid;
    OnlyPrimariesHaveReplacements(g, s);
    hide SetsOk, Counted;
    var free := set b | b in s.view.free;
    DistinctSize(s.view.free);
    var prims, repls := Primaries(g, s), Replacements(g, s);
    forall b
      ensures b in g.good <==> b in free || b in prims || b in repls
      ensures b in prims || b in repls ==> b !in free
      ensures b in prims ==> b !in repls
    {
      OwnerOf(g, s, b);
    }
    DisjointCover(g.good, free, prims, repls);
  }

  lemma OnlyPrimariesHaveReplacements(g: Geometry, s: State)
    requires 0 < g.maxPage && SetsOk(g, s)
    ensures forall k :: 0 <= k < |s.table| && s.table[k].primary == NFTL_POINT_TO_NULL ==> s.table[k].replacement == NFTL_POINT_TO_NULL
  {
    hide LogicalBlock, LogicalPage, Cluster, PrimaryOk, ReplacementOk, PairOk;
    forall k | 0 <= k < |s.table| && s.table[k].primary == NFTL_POINT_TO_NULL ensures s.table[k].replacement == NFTL_POINT_TO_NULL {
      assert SetOk(g.maxPage, k, s.table[k], Prim(s, k), Repl(s, k));
    }
  }

  ghost function Primaries(g: Geometry, s: State): (r: set<int>)
    requires OwnedOk(g, s)
    ensures |r| == |InUse(s)| && forall b :: b in r <==> exists k :: k in InUse(s) && s.table[k].primary == b
  {
    var r := set k | k in InUse(s) :: s.table[k].primary;
    assert forall k :: k in InUse(s) ==> Owns(s.table[k], s.table[k].primary);
    SameSize(|s.table|, InUse(s), r, map k | 0 <= k < |s.table| :: s.table[k].primary);
    r
  }

  ghost function Replacements(g: Geometry, s: State): (r: set<int>)
    requires OwnedOk(g, s)
    ensures |r| == |Pairs(s)| && forall b :: b in r <==> exists k :: k in Pairs(s) && s.table[k].replacement == b
  {
    var r := set k | k in Pairs(s) :: s.table[k].replacement;
    assert forall k :: k in Pairs(s) ==> Owns(s.table[k], s.table[k].replacement);
    SameSize(|s.table|, Pairs(s), r, map k | 0 <= k < |s.table| :: s.table[k].replacement);
    r
  }

  lemma DisjointCover(good: set<int>, free: set<int>, prims: set<int>, repls: set<int>)
    requires forall b :: b in good <==> b in free || b in prims || b in repls
    requires forall b :: b in prims || b in repls ==> b !in free
    requires forall b :: b in prims ==> b !in repls
    ensures |good| == |free| + |prims| + |repls|
  {
    var owned := prims + repls;
    assert good == free + owned by { forall b ensures b in good <==> b in free + owned {} }
    assert free * owned == {} by { forall b ensures b !in free * owned {} }
    assert prims * repls == {} by { forall b ensures b !in prims * repls {} }
  }

  lemma OwnerOf(g: Geometry, s: State, b: int)
    requires OwnedOk(g, s) && forall b :: b in s.view.free ==> b in g.good
    requires forall k :: 0 <= k < |s.table| && s.table[k].primary == NFTL_POINT_TO_NULL ==> s.table[k].replacement == NFTL_POINT_TO_NULL
    ensures b in g.good <==> b in s.view.free || b in Primaries(g, s) || b in Replacements(g, s)
    ensures b in Primaries(g, s) || b in Replacements(g, s) ==> b !in s.view.free
    ensures b in Primaries(g, s) ==> b !in Replacements(g, s)
  {
    hide Primaries, Replacements;
    if k :| 0 <= k < |s.table| && Owns(s.table[k], b) {
      assert k in InUse(s);
      assert b == s.table[k].replacement ==> k in Pairs(s);
      assert forall j :: j in InUse(s) && s.table[j].primary == b ==> Owns(s.table[j], b) && j == k;
      assert forall j :: j in Pairs(s) && s.table[j].replacement == b ==> Owns(s.table[j], b) && j == k;
    } else {
      assert forall j :: j in InUse(s) ==> Owns(s.table[j], s.table[j].primary);
      assert forall j :: j in Pairs(s) ==> Owns(s.table[j], s.table[j].replacement);
    }
  }

  /** A write gets stuck only if the logical blocks in use, counted twice, exceed the blocks above the reserve. */
  lemma StuckMeansHalfFull(g: Geometry, s: State, c: int)
    requires Ok(g, s) && InRange(g, c) && Stuck(g, s, c)
    ensures |InUse(s)| + |Pairs(s)| == |g.good| - g.reserve
    ensures 2 * |InUse(s) + {LogicalBlock(g.maxPage, c)}| > |g.good| - g.reserve
  {
    BlocksConserved(g, s);
    hide LogicalPage, Cluster, Ok;
    var l := LogicalBlock(g.maxPage, c);
    assert l !in Pairs(s) && Pairs(s) <= InUse(s);
    if l in InUse(s) {
      assert InUse(s) + {l} == InUse(s) && InUse(s) == (InUse(s) - {l}) + {l} && Pairs(s) <= InUse(s) - {l};
      SubsetSize(Pairs(s), InUse(s) - {l});
    } else {
      SubsetSize(Pairs(s), InUse(s));
    }
  }

  lemma {:induction false} SubsetSize(a: set<int>, b: set<int>)
    requires a <= b
    ensures |a| <= |b|
  {
    if x :| x in a {
      SubsetSize(a - {x}, b - {x});
      assert a == (a - {x}) + {x} && b == (b - {x}) + {x};
    } else {
      assert forall x :: x !in a;
      assert a == {};
    }
  }

  /** The logical blocks of some clusters. */
  ghost function HomeBlocks(m: int, cs: seq<int>): set<int>
    requires 0 < m
  {
    set c | c in cs :: LogicalBlock(m, c)
  }

  lemma HomeBlocksHold(m: int, cs: seq<int>, i: nat)
    requires 0 < m && i < |cs|
    ensures LogicalBlock(m, cs[i]) in HomeBlocks(m, cs)
  {
  }

  /** Room for two blocks for every logical block ever touched is room enough. */
  lemma HalfIsEnough(g: Geometry, s: State, c: int, home: set<int>)
    requires Ok(g, s) && InRange(g, c) && InUse(s) <= home && LogicalBlock(g.maxPage, c) in home
    ensures 2 * |home| <= |g.good| - g.reserve ==> !Stuck(g, s, c)
  {
    hide LogicalBlock, Ok, InUse;
    if Stuck(g, s, c) {
      StuckMeansHalfFull(g, s, c);
      SubsetSize(InUse(s) + {LogicalBlock(g.maxPage, c)}, home);
    }
  }

  // ---------- a trace that gets stuck with room to spare ----------

  const tight: Geometry := Geometry(4, 2, 1, {0, 1, 2, 3})

  function Blank(): State {
    State(View(seq(4, _ => [FREE_PAGE, FREE_PAGE]), [0, 0, 0, 0], [0, 0, 0, 0], [0, 1, 2, 3]),
          seq(4, _ => Entry(NFTL_POINT_TO_NULL, -1, NFTL_POINT_TO_NULL, -1)))
  }

  lemma BlankOk()
    ensures Ok(tight, Blank())
  {
    CountBounds([FREE_PAGE, FREE_PAGE]);
    assert Counted(tight, Blank().view);
  }

  /** Cluster 1 in place on page 1 of logical block 0. */
  function AfterOne(): State { StoredInPlace(AttachPrimary(Blank(), 0), 0, 1, 1) }

  /** Cluster 0 lies below the mark and goes to a replacement block. */
  function AfterZero(): State { Relogged(AttachReplacement(AfterOne(), 0), 0, 1, -1, 0) }

  /** Cluster 3 takes the last block above the reserve. */
  function AfterThree(): State { StoredInPlace(AttachPrimary(AfterZero(), 1), 1, 3, 1) }

  lemma AfterOneOk()
    ensures Ok(tight, AfterOne())
  {
    BlankOk();
    hide Ok, Reads;
    AttachPrimaryOk(tight, Blank(), 0);
    assert IsCluster(2, 0, 1, 1);
    StoredInPlaceOk(tight, AttachPrimary(Blank(), 0), 0, 1, 1);
  }

  lemma AfterZeroOk()
    ensures Ok(tight, AfterZero())
  {
    AfterOneOk();
    hide Ok, Reads;
    AttachReplacementOk(tight, AfterOne(), 0);
    assert IsCluster(2, 0, 0, 0);
    RelogReplacementOk(tight, AttachReplacement(AfterOne(), 0), 0, 0, 0, -1);
  }

  function Halted(): State {
    State(View([[-1, 1], [0, -1], [-1, 3], [-1, -1]], [1, 1, 1, 0], [0, 0, 0, 0], [3]),
          [Entry(0, 2, 1, 1), Entry(2, 2, -1, -1), Entry(-1, -1, -1, -1), Entry(-1, -1, -1, -1)])
  }

  lemma AfterZeroIs()
    ensures AfterZero() == State(View([[-1, 1], [0, -1], [-1, -1], [-1, -1]], [1, 1, 0, 0], [0, 0, 0, 0], [2, 3]),
                                 [Entry(0, 2, 1, 1), Entry(-1, -1, -1, -1), Entry(-1, -1, -1, -1), Entry(-1, -1, -1, -1)])
  {
    var e := Entry(-1, -1, -1, -1);
    var s := AfterOne();
    assert s.view.mem[0] == [-1, 1];
    assert s.view.mem == [[-1, 1], [-1, -1], [-1, -1], [-1, -1]];
    assert s.view.valid == [1, 0, 0, 0] && s.view.invalid == [0, 0, 0, 0] && s.view.free == [1, 2, 3];
    assert s.table == [Entry(0, 2, -1, -1), e, e, e];
    var r := AfterZero();
    assert r.view.mem[1] == [0, -1];
    assert r.view.mem == [[-1, 1], [0, -1], [-1, -1], [-1, -1]];
    assert r.view.valid == [1, 1, 0, 0] && r.view.invalid == [0, 0, 0, 0] && r.view.free == [2, 3];
    assert r.table == [Entry(0, 2, 1, 1), e, e, e];
  }

  lemma AfterThreeOk()
    ensures Ok(tight, AfterThree()) && AfterThree() == Halted()
  {
    AfterZeroOk();
    AfterZeroIs();
    hide Ok, Reads, AfterZero;
    AttachPrimaryOk(tight, AfterZero(), 1);
    assert IsCluster(2, 1, 3, 1);
    StoredInPlaceOk(tight, AttachPrimary(AfterZero(), 1), 1, 3, 1);
    var s, h := AfterThree(), Halted();
    assert s.view.mem[2] == [-1, 3];
    assert s.view.mem == h.view.mem;
    assert s.view.valid == h.view.valid && s.view.invalid == h.view.invalid && s.view.free == h.view.free;
    assert s.table == h.table;
  }

  /**
   Writing clusters 1, 0, 3 and 4 to four blocks of two pages, one of them in reserve: when cluster 4 comes,
   logical block 0 has both blocks but no invalid page, so no divider makes it a victim.
   */
  lemma StuckWithAPair()
    ensures Ok(tight, AfterThree()) && Mergeable(AfterThree(), 0) && InRange(tight, 4) && Stuck(tight, AfterThree(), 4)
    ensures |InUse(AfterThree())| == 2
  {
    AfterThreeOk();
    hide AfterThree, Ok;
    assert LogicalBlock(2, 4) == 2;
    assert forall k :: 0 <= k < 4 && k != 0 ==> !Mergeable(Halted(), k);
    assert !Stale(Halted(), 0);
    assert InUse(Halted()) == {0, 1};
  }

  // ---------- the divider ----------

  /**
   A stuck write scans in vain with each of the 32 values the divider takes before it is zero (DividerOverflows);
   then the test divides by it.
   */
  lemma StuckDividesByZero(g: Geometry, s: State, c: int, n: nat, k: int)
    requires Ok(g, s) && InRange(g, c) && Stuck(g, s, c) && g.maxPage < 0x8000_0000 && n < 32
    ensures Divider(n) != 0 && !Victim(s, k, LogicalBlock(g.maxPage, c), Divider(n))
  {
    hide Divider, Pow2, LogicalBlock, LogicalPage, Cluster, Ok, Victim, Stuck;
    DividerOverflows(n);
    StuckFindsNoVictim(g, s, c);
  }

  // ---------- the translation layer ----------

  lemma ReadsTrans(g: Geometry, s: State, s1: State, s2: State, c: int)
    requires Reads(g, s, s1, -1) && Reads(g, s1, s2, c)
    ensures Reads(g, s, s2, c)
  {
    hide LogicalBlock, LogicalPage, Written;
  }

  /** The clusters that can be read are those of s, and the given ones. */
  ghost predicate ReadsAll(g: Geometry, s: State, s': State, cs: seq<int>) {
    && |s.table| == |s'.table| == g.maxBlock
    && forall x :: InRange(g, x) ==> (Written(g, s', x) <==> Written(g, s, x) || x in cs)
  }

  lemma ReadsNone(g: Geometry, s: State)
    requires |s.table| == g.maxBlock
    ensures ReadsAll(g, s, s, [])
  {
  }

  lemma ReadsNext(g: Geometry, s: State, s1: State, s2: State, cs: seq<int>, c: int)
    requires ReadsAll(g, s, s1, cs) && Reads(g, s1, s2, c)
    ensures ReadsAll(g, s, s2, cs + [c])
  {
    hide LogicalBlock, LogicalPage, Written;
  }

  lemma ReadsSelf(g: Geometry, s: State)
    requires |s.table| == g.maxBlock
    ensures Reads(g, s, s, -1)
  {
  }

  /** A log holds live clusters only below its mark. */
  lemma LogBelowMark(m: int, l: int, cur: int, pages: seq<int>, c: int)
    requires 0 < m && ReplacementOk(m, l, cur, pages) && 0 <= c
    ensures c in pages <==> c in pages[..cur]
  {
    hide LogicalBlock;
    assert pages == pages[..cur] + pages[cur..];
  }

  lemma LogFacts(g: Geometry, s: State, l: int, c: int)
    requires Ok(g, s) && 0 <= l < |s.table| && 0 <= c && s.table[l].replacement != NFTL_POINT_TO_NULL
    ensures s.table[l].replacement in g.good && Repl(s, l) == s.view.mem[s.table[l].replacement]
    ensures 0 <= s.table[l].curRB <= g.maxPage && (c in Repl(s, l) <==> c in Repl(s, l)[..s.table[l].curRB])
  {
    assert Owns(s.table[l], s.table[l].replacement);
    assert SetOk(g.maxPage, l, s.table[l], Prim(s, l), Repl(s, l));
    LogBelowMark(g.maxPage, l, s.table[l].curRB, Repl(s, l), c);
  }

  /** The same logical blocks have a primary block. */
  ghost predicate SameUse(t: seq<Entry>, t': seq<Entry>) {
    |t| == |t'| && forall k :: 0 <= k < |t| ==> (t[k].primary == NFTL_POINT_TO_NULL <==> t'[k].primary == NFTL_POINT_TO_NULL)
  }

  lemma SameUseSelf(t: seq<Entry>)
    ensures SameUse(t, t)
  {
  }

  lemma SameUseTrans(t: seq<Entry>, u: seq<Entry>, v: seq<Entry>)
    requires SameUse(t, u) && SameUse(u, v)
    ensures SameUse(t, v)
  {
  }

  lemma MergedUse(s: State, l: int, f: int, cur: int, t: seq<Entry>)
    requires 0 <= l < |s.table| && s.table[l].primary != NFTL_POINT_TO_NULL && 0 <= f
    requires t == s.table[l := Entry(f, cur, NFTL_POINT_TO_NULL, NFTL_POINT_TO_NULL)]
    ensures SameUse(s.table, t)
  {
  }

  lemma SameUseSame(s: State, s': State)
    requires SameUse(s.table, s'.table)
    ensures InUse(s) == InUse(s')
  {
  }

  lemma VictimInRange(s: State, k: int, l: int, divider: int)
    requires 0 < divider
    ensures Victim(s, k, l, divider) ==> 0 <= k < |s.table| && k != l && Mergeable(s, k)
  {
  }

  lemma OwnedBlocks(g: Geometry, s: State, k: int)
    requires Ok(g, s) && 0 <= k < |s.table|
    ensures s.table[k].primary != NFTL_POINT_TO_NULL ==> 0 <= s.table[k].primary < g.maxBlock
    ensures s.table[k].replacement != NFTL_POINT_TO_NULL ==> 0 <= s.table[k].replacement < g.maxBlock
  {
    if s.table[k].primary != NFTL_POINT_TO_NULL { assert Owns(s.table[k], s.table[k].primary); }
    if s.table[k].replacement != NFTL_POINT_TO_NULL { assert Owns(s.table[k], s.table[k].replacement); }
  }

  lemma MergeTakesFree(g: Geometry, s: State)
    requires Ok(g, s) && s.view.free != []
    ensures 0 <= s.view.free[0]
  {
    FreeFacts(g, s);
  }

  /** With the list at its reserve: a victim rules out being stuck, and with a large divider so does being not stuck. */
  lemma VictimsAndBlocks(g: Geometry, s: State, l: int, divider: int)
    requires Ok(g, s) && |s.view.free| == g.reserve && 0 < divider
    ensures (exists k :: Victim(s, k, l, divider)) ==> !NoBlockFor(g, s, l)
    ensures g.maxPage < divider ==> ((exists k :: Victim(s, k, l, divider)) <==> !NoBlockFor(g, s, l))
  {
    forall k | Mergeable(s, k)
      ensures Victim(s, k, l, divider) ==> k != l && Stale(s, k)
      ensures k != l && Stale(s, k) && g.maxPage < divider ==> Victim(s, k, l, divider)
    {
      VictimIsStale(g, s, k, l, divider);
    }
  }

  class NFTL {
    const flash: FlashMemory
    const table: array<Entry>  // NFTLTable
    var scan: int              // CurrentScanningBlockSetID
    var divider: int           // InvalidPage2ValidPageDivider

    ghost const Repr: set<object> := flash.Repr + {this, table}

    ghost function St(): State
      reads this, table, flash`view
    {
      State(flash.view, table[..])
    }

    ghost predicate Valid()
      reads Repr
    {
      && table !in flash.Repr && this !in flash.Repr && flash.Valid() && table.Length == flash.maxBlock
      && -1 <= scan < flash.maxBlock && 1 <= divider
    }

    ghost predicate Ready()
      reads Repr
    {
      Valid() && Ok(flash.g, St())
    }

    constructor (flash: FlashMemory)
      requires flash.Valid() && Counted(flash.g, flash.view)
      requires forall b :: b in flash.g.good ==> b in flash.view.free && Clean(flash.view.mem[b])
      ensures Ready() && this.flash == flash && fresh(Repr - flash.Repr)
      ensures forall c :: InRange(flash.g, c) ==> !Written(flash.g, St(), c)
    {
      this.flash := flash;
      table := new Entry[flash.maxBlock](_ => Entry(NFTL_POINT_TO_NULL, -1, NFTL_POINT_TO_NULL, -1));
      scan, divider := -1, 1;
    }

    /** Scan the log of l downwards from its mark. */
    method SearchReplacement(l: int, c: int) returns (i: int)
      requires Valid() && Ok(flash.g, St()) && 0 <= l < table.Length && 0 <= c && table[l].replacement != NFTL_POINT_TO_NULL
      ensures table[l].replacement in flash.g.good
      ensures if c in flash.view.mem[table[l].replacement]
              then 0 <= i < table[l].curRB && flash.view.mem[table[l].replacement][i] == c else i == -1
    {
      var r, n := table[l].replacement, table[l].curRB;
      ghost var pages := Repl(St(), l);
      LogFacts(flash.g, St(), l, c);
      hide Ok, Linked;
      i := n - 1;
      while i >= 0
        invariant -1 <= i < n && c !in pages[i + 1..n]
      {
        if flash.mem[r][i] == c { return; }
        i := i - 1;
      }
      assert pages[0..n] == pages[..n];
    }

    /** NFTLReadOneCluster. */
    method ReadOneCluster(c: int) returns (found: bool)
      requires Ready() && InRange(flash.g, c)
      ensures found <==> Written(flash.g, St(), c)
    {
      var l, lp := LogicalBlock(flash.maxPage, c), LogicalPage(flash.maxPage, c);
      ghost var s := St();
      assert SetOk(flash.maxPage, l, s.table[l], Prim(s, l), Repl(s, l));
      assert s.table[l].primary != NFTL_POINT_TO_NULL ==> Owns(s.table[l], s.table[l].primary);
      hide Ok, SetOk;
      if table[l].primary == NFTL_POINT_TO_NULL {
        found := false;
      } else {
        var i := -1;
        if table[l].replacement != NFTL_POINT_TO_NULL {
          i := SearchReplacement(l, c);
        }
        found := i >= 0 || flash.mem[table[l].primary][lp] == c;
      }
    }

    /** While the two blocks p and r of l are copied to block f; the counters of p and r are not exact here. */
    ghost predicate Copying(s0: State, l: int, f: int, i: int, j: int, cur: int)
      reads Repr
      requires Sized(flash.g, s0.view) && 0 <= l < |s0.table|
    {
      var e := s0.table[l];
      && Valid() && f in flash.g.good && e.primary in flash.g.good && e.replacement in flash.g.good
      && f != e.primary && f != e.replacement && e.primary != e.replacement
      && 0 <= i <= flash.maxPage && 0 <= j <= flash.maxPage && table[..] == s0.table
      && CopiedTo(flash.g, s0.view, flash.view, f, e.primary, e.replacement,
                  CopiedUpTo(flash.maxPage, l, s0.view.mem[e.primary], s0.view.mem[e.replacement], i, j))
      && Mark(CopiedUpTo(flash.maxPage, l, s0.view.mem[e.primary], s0.view.mem[e.replacement], i, j), cur)
    }

    /** The loop of NFTLMergeBlocks that moves the live pages to the new block. */
    method CopyLivePages(l: int, f: int, ghost s0: State) returns (cur: int)
      requires Sized(flash.g, s0.view) && 0 <= l < |s0.table| && Copying(s0, l, f, 0, 0, 0)
      requires MergeSource(flash.maxPage, l, s0.table[l].curPB, s0.table[l].curRB,
                           s0.view.mem[s0.table[l].primary], s0.view.mem[s0.table[l].replacement])
      modifies flash.Repr
      ensures Copying(s0, l, f, flash.maxPage, flash.maxPage, cur)
      ensures flash.view.free == old(flash.view.free)
    {
      hide Linked, MergeSource, CopiedUpTo, Mark, Cluster, LogicalPage;
      cur := 0;
      for i := 0 to flash.maxPage
        invariant Copying(s0, l, f, i, i, cur) && flash.view.free == old(flash.view.free)
      {
        cur := CopyPrimary(l, f, i, cur, s0);
        cur := CopyReplacement(l, f, i, cur, s0);
      }
    }

    method CopyPrimary(l: int, f: int, i: int, mark: int, ghost s0: State) returns (cur: int)
      requires Sized(flash.g, s0.view) && 0 <= l < |s0.table| && Copying(s0, l, f, i, i, mark) && i < flash.maxPage
      requires MergeSource(flash.maxPage, l, s0.table[l].curPB, s0.table[l].curRB,
                           s0.view.mem[s0.table[l].primary], s0.view.mem[s0.table[l].replacement])
      modifies flash.Repr
      ensures Copying(s0, l, f, i + 1, i, cur) && flash.view.free == old(flash.view.free)
    {
      hide Linked, MergeSource, CopiedUpTo, Mark, Cluster, LogicalPage;
      cur := mark;
      var p := table[l].primary;
      ghost var prim, repl := s0.view.mem[p], s0.view.mem[table[l].replacement];
      CopyPrimaryPage(flash.maxPage, l, s0.table[l].curPB, s0.table[l].curRB, prim, repl, i);
      var x := flash.mem[p][i];
      if x != INVALID_PAGE && x != FREE_PAGE {
        MarkStep(CopiedUpTo(flash.maxPage, l, prim, repl, i, i), i, x, cur);
        CopiedStep(flash.g, s0.view, flash.view, f, p, table[l].replacement, CopiedUpTo(flash.maxPage, l, prim, repl, i, i), i, x, p);
        flash.Program(f, i, x);
        flash.CountMoved(p);
        if cur <= i { cur := i + 1; }
      }
    }

    method CopyReplacement(l: int, f: int, i: int, mark: int, ghost s0: State) returns (cur: int)
      requires Sized(flash.g, s0.view) && 0 <= l < |s0.table| && 0 <= i < flash.maxPage && Copying(s0, l, f, i + 1, i, mark)
      requires MergeSource(flash.maxPage, l, s0.table[l].curPB, s0.table[l].curRB,
                           s0.view.mem[s0.table[l].primary], s0.view.mem[s0.table[l].replacement])
      modifies flash.Repr
      ensures Copying(s0, l, f, i + 1, i + 1, cur) && flash.view.free == old(flash.view.free)
    {
      hide Linked, MergeSource, CopiedUpTo, Mark, Cluster, LogicalPage;
      cur := mark;
      var r := table[l].replacement;
      ghost var prim, repl := s0.view.mem[table[l].primary], s0.view.mem[r];
      CopyReplacementPage(flash.maxPage, l, s0.table[l].curPB, s0.table[l].curRB, prim, repl, i);
      var x := flash.mem[r][i];
      if x != INVALID_PAGE && x != FREE_PAGE {
        var p := LogicalPage(flash.maxPage, x);
        MarkStep(CopiedUpTo(flash.maxPage, l, prim, repl, i + 1, i), p, x, cur);
        CopiedStep(flash.g, s0.view, flash.view, f, table[l].primary, r, CopiedUpTo(flash.maxPage, l, prim, repl, i + 1, i), p, x, r);
        flash.Program(f, p, x);
        flash.CountMoved(r);
        if cur <= p { cur := p + 1; }
      }
    }

    /**
     NFTLMergeBlocks: both blocks go to the end of the free list before they are emptied. The block fetched
     next is the old first one, so it is clean and neither of the two.
     */
    method MergeBlocks(l: int)
      requires Ready() && Mergeable(St(), l)
      modifies flash.Repr, table
      ensures Ready() && Reads(flash.g, old(St()), St(), -1)
      ensures |flash.view.free| == |old(flash.view).free| + 1
      ensures SameUse(old(table[..]), table[..])
      ensures table[..] == old(table[..])[l := Entry(old(flash.view).free[0], old(table[l]).curPB, -1, -1)]
    {
      ghost var s := St();
      FreeFacts(flash.g, s);
      MergeFacts(flash.g, s, l);
      MergedOk(flash.g, s, l);
      hide Ok, MergeSource, Reads, Linked, Mark, CopiedUpTo, MergedPages, CopiedTo, Clean, Mergeable, CountValid;
      var f := Exchange(l);
      var cur := CopyLivePages(l, f, s);
      MergeEnd(flash.g, s, l, flash.view, cur);
      hide Merged;
      Reclaim(l, f, cur);
      MergedEntry(flash.g, s, l);
      MergedUse(s, l, f, cur, table[..]);
    }

    /** Clean up the two emptied blocks and update the table. */
    method Reclaim(l: int, f: int, cur: int)
      requires Valid() && 0 <= l < table.Length && table[l].primary in flash.g.good && table[l].replacement in flash.g.good
      modifies flash.Repr, table
      ensures Valid() && table[..] == old(table[..])[l := Entry(f, cur, NFTL_POINT_TO_NULL, NFTL_POINT_TO_NULL)]
      ensures var e, clean := old(table[l]), InitialPages(flash.maxPage, false);
              flash.view == BlockUpdated(BlockUpdated(old(flash.view), e.primary, clean, 0, 0), e.replacement, clean, 0, 0)
    {
      hide Linked;
      flash.EraseBlock(table[l].primary);
      flash.EraseBlock(table[l].replacement);
      table[l] := Entry(f, cur, NFTL_POINT_TO_NULL, NFTL_POINT_TO_NULL);
    }

    method Rotate(p: int, r: int) returns (f: int)
      requires flash.Valid() && p in flash.g.good && r in flash.g.good && p != r
      requires p !in flash.view.free && r !in flash.view.free
      requires flash.view.free != [] && flash.view.free[0] in flash.g.good
      requires flash.view.valid[flash.view.free[0]] == flash.view.invalid[flash.view.free[0]] == 0
      modifies flash.Repr
      ensures flash.Valid() && f == old(flash.view).free[0]
      ensures flash.view == old(flash.view).(free := old(flash.view).free[1..] + [p, r])
    {
      hide Linked;
      ghost var v := flash.view;
      flash.PutFreeBlock(p);
      flash.PutFreeBlock(r);
      assert flash.view.free == v.free + [p] + [r];
      assert flash.view.free[0] == v.free[0];
      f := flash.GetFreeBlock();
      assert flash.view.free == v.free[1..] + [p, r];
    }

    /** Put both blocks of l on the free list and take its first block. */
    method Exchange(l: int) returns (f: int)
      requires Ready() && Mergeable(St(), l)
      modifies flash.Repr
      ensures table[..] == old(table[..]) && f == old(flash.view).free[0]
      ensures Sized(flash.g, old(flash.view)) && Copying(old(St()), l, f, 0, 0, 0)
      ensures flash.view.free == old(flash.view).free[1..] + [table[l].primary, table[l].replacement]
    {
      ghost var s := St();
      MergeFacts(flash.g, s, l);
      hide Ok, MergeSource, Linked, Mark, CopiedUpTo, CopiedTo, Clean, CountValid;
      var e := table[l];
      f := Rotate(e.primary, e.replacement);
      CopyStart(flash.g, s, l, flash.view);
    }

    /** The counters of k and the null marks tell a victim from the rest. */
    lemma HitIsVictim(k: int, l: int)
      requires Ready() && 0 <= k < table.Length
      ensures table[k].primary != NFTL_POINT_TO_NULL ==> 0 <= table[k].primary < flash.maxBlock
      ensures table[k].replacement != NFTL_POINT_TO_NULL ==> 0 <= table[k].replacement < flash.maxBlock
      ensures Victim(St(), k, l, divider) <==>
                table[k].primary != NFTL_POINT_TO_NULL && table[k].replacement != NFTL_POINT_TO_NULL && k != l
                && (flash.invalidPageCnt[table[k].primary] > flash.validPageCnt[table[k].primary] / divider
                    || flash.invalidPageCnt[table[k].replacement] > flash.validPageCnt[table[k].replacement] / divider)
    {
      OwnedBlocks(flash.g, St(), k);
      hide Ok;
    }

    /** One turn of the scan: look at every logical block once, starting after the last one looked at. */
    method FindVictim(l: int) returns (found: bool)
      requires Ready()
      modifies `scan
      ensures Ready() && St() == old(St())
      ensures found ==> 0 <= scan && Victim(St(), scan, l, divider)
      ensures !found ==> forall k :: !Victim(St(), k, l, divider)
    {
      hide Linked, Ok, Victim;
      ghost var start := scan;
      for i := 0 to flash.maxBlock
        invariant -1 <= scan < flash.maxBlock && Ready()
        invariant if i == 0 then scan == start else 0 <= scan && Dist(start, scan, flash.maxBlock) == i - 1
        invariant forall k :: 0 <= k < flash.maxBlock && Dist(start, k, flash.maxBlock) < i ==> !Victim(St(), k, l, divider)
      {
        NextAround(scan, flash.maxBlock);
        scan := (scan + 1) % flash.maxBlock;
        HitIsVictim(scan, l);
        var e := table[scan];
        if e.primary != NFTL_POINT_TO_NULL && e.replacement != NFTL_POINT_TO_NULL && scan != l
           && (flash.invalidPageCnt[e.primary] > flash.validPageCnt[e.primary] / divider
               || flash.invalidPageCnt[e.replacement] > flash.validPageCnt[e.replacement] / divider)
        {
          return true;
        }
      }
      forall k ensures !Victim(St(), k, l, divider) { VictimInRange(St(), k, l, divider); }
      return false;
    }

    /** NFTLGarbageCollection: merge the blocks of a victim, or double the divider if the scan finds none. */
    method GarbageCollection(l: int) returns (merged: bool)
      requires Ready() && 0 <= l < table.Length
      modifies Repr
      ensures Ready() && Reads(flash.g, old(St()), St(), -1) && SameUse(old(table[..]), table[..]) && table[l] == old(table[l])
      ensures merged <==> exists k :: Victim(old(St()), k, l, old(divider))
      ensures merged ==> |flash.view.free| == |old(flash.view).free| + 1 && divider == old(divider)
      ensures !merged ==> St() == old(St()) && divider == 2 * old(divider)
    {
      ghost var s := St();
      ReadsSelf(flash.g, s);
      hide Ok, Reads, Linked, Victim;
      merged := FindVictim(l);
      if merged {
        VictimInRange(s, scan, l, divider);
        MergeTakesFree(flash.g, s);
        MergeBlocks(scan);
        assert table[l] == s.table[l];
      } else {
        divider := divider * 2;
      }
    }

    /**
     The turns of NFTLGarbageCollection while the list is at its reserve. It gives up after a fruitless scan
     with a divider past MaxPage: from there the original only doubles the divider.
     */
    method CollectOneBlock(l: int) returns (merged: bool)
      requires Ready() && 0 <= l < table.Length && |flash.view.free| == flash.reserve
      modifies Repr
      ensures Ready() && Reads(flash.g, old(St()), St(), -1) && SameUse(old(table[..]), table[..]) && table[l] == old(table[l])
      ensures merged <==> !NoBlockFor(flash.g, old(St()), l)
      ensures if merged then |flash.view.free| > flash.reserve else St() == old(St())
      ensures merged ==> divider <= 2 * flash.maxPage || divider == old(divider)
    {
      ghost var s := St();
      hide Ok, Reads, Linked, Victim, NoBlockFor;
      while true
        invariant Ready() && St() == s
        invariant divider <= 2 * flash.maxPage || divider == old(divider)
        decreases if divider > flash.maxPage then 0 else flash.maxPage + 1 - divider
      {
        var last := divider > flash.maxPage;
        VictimsAndBlocks(flash.g, s, l, divider);
        merged := GarbageCollection(l);
        if merged || last { return; }
      }
    }

    /** FreeBlock = GetFreeBlock(False). */
    method TakeBlock() returns (b: int)
      requires Ready()
      modifies flash.Repr
      ensures Valid() && table[..] == old(table[..]) && scan == old(scan) && divider == old(divider)
      ensures b == -1 <==> |old(St()).view.free| == flash.reserve
      ensures if b == -1 then St() == old(St())
              else old(St()).view.free != [] && b == old(St()).view.free[0]
                   && flash.view == old(St()).view.(free := old(St()).view.free[1..])
    {
      FreeFacts(flash.g, St());
      hide Ok, Linked;
      b := flash.GetFreeBlock();
    }

    /** The loop `while((FreeBlock=GetFreeBlock(False)) == -1) NFTLGarbageCollection(l)`; -1 where it cannot end well. */
    method FetchBlock(l: int) returns (b: int, ghost s: State)
      requires Ready() && 0 <= l < table.Length
      modifies Repr
      ensures Valid() && Ok(flash.g, s) && Reads(flash.g, old(St()), s, -1) && SameUse(old(table[..]), s.table)
      ensures |s.table| == table.Length && table[..] == s.table && table[l] == old(table[l])
      ensures b == -1 <==> NoBlockFor(flash.g, old(St()), l)
      ensures b == -1 ==> s == old(St())
      ensures if b == -1 then flash.view == s.view
              else s.view.free != [] && b == s.view.free[0] && flash.view == s.view.(free := s.view.free[1..])
      ensures b != -1 ==> divider <= 2 * flash.maxPage || divider == old(divider)
    {
      s := St();
      ReadsSelf(flash.g, s);
      BlockAboveReserve(flash.g, s, l);
      hide Ok, Reads, Linked, NoBlockFor;
      b := TakeBlock();
      if b == -1 {
        var merged := CollectOneBlock(l);
        if merged {
          s := St();
          b := TakeBlock();
        }
      }
    }

    /** Give logical block l a primary block. */
    method AddPrimary(l: int) returns (done: bool)
      requires Ready() && 0 <= l < table.Length && table[l].primary == NFTL_POINT_TO_NULL
      modifies Repr
      ensures Ready() && Reads(flash.g, old(St()), St(), -1)
      ensures done <==> !NoBlockFor(flash.g, old(St()), l)
      ensures !done ==> St() == old(St())
      ensures InUse(St()) <= old(InUse(St())) + {l}
      ensures done ==> table[l].primary != NFTL_POINT_TO_NULL && table[l].curPB == 0
    {
      hide Ok, Reads, Linked;
      ghost var s0 := St();
      var b, s := FetchBlock(l);
      done := b != -1;
      if done {
        AttachPrimaryOk(flash.g, s, l);
        ReadsTrans(flash.g, s0, s, AttachPrimary(s, l), -1);
        table[l] := table[l].(primary := b, curPB := 0);
        assert St() == AttachPrimary(s, l);
        SameUseSame(s0, s);
      }
    }

    method AddReplacement(l: int) returns (done: bool)
      requires Ready() && 0 <= l < table.Length
      requires table[l].primary != NFTL_POINT_TO_NULL && table[l].replacement == NFTL_POINT_TO_NULL
      modifies Repr
      ensures Ready() && Reads(flash.g, old(St()), St(), -1)
      ensures done <==> !NoBlockFor(flash.g, old(St()), l)
      ensures !done ==> St() == old(St())
      ensures table[l].primary == old(table[l]).primary && table[l].curPB == old(table[l]).curPB
      ensures SameUse(old(table[..]), table[..])
      ensures done ==> table[l].replacement != NFTL_POINT_TO_NULL && table[l].curRB == 0
    {
      hide Ok, Reads, Linked;
      ghost var s0 := St();
      var b, s := FetchBlock(l);
      done := b != -1;
      if done {
        AttachReplacementOk(flash.g, s, l);
        ReadsTrans(flash.g, s0, s, AttachReplacement(s, l), -1);
        table[l] := table[l].(replacement := b, curRB := 0);
        assert St() == AttachReplacement(s, l);
      }
    }

    /** The loop that ends with a free page in the replacement block of l, merging it first if it is full. */
    method MakeRoom(l: int) returns (done: bool)
      requires Ready() && 0 <= l < table.Length && table[l].primary != NFTL_POINT_TO_NULL
      modifies Repr
      ensures Ready() && Reads(flash.g, old(St()), St(), -1)
      ensures done <==> !(old(table[l]).replacement == NFTL_POINT_TO_NULL && NoBlockFor(flash.g, old(St()), l))
      ensures !done ==> St() == old(St())
      ensures table[l].primary != NFTL_POINT_TO_NULL && table[l].curPB == old(table[l]).curPB
      ensures SameUse(old(table[..]), table[..])
      ensures done ==> table[l].replacement != NFTL_POINT_TO_NULL && table[l].curRB < flash.maxPage
    {
      ghost var s0 := St();
      ReadsSelf(flash.g, s0);
      SameUseSelf(s0.table);
      hide Ok, Reads, Linked, NoBlockFor, SameUse;
      ghost var merged := false;
      while true
        invariant Ready() && Reads(flash.g, s0, St(), -1) && SameUse(old(table[..]), table[..])
        invariant table[l].primary != NFTL_POINT_TO_NULL && table[l].curPB == old(table[l]).curPB
        invariant if merged then table[l].replacement == NFTL_POINT_TO_NULL && !NoBlockFor(flash.g, St(), l)
                  && old(table[l]).replacement != NFTL_POINT_TO_NULL
                  else St() == s0
        decreases !merged
      {
        if table[l].replacement == NFTL_POINT_TO_NULL {
          ghost var s1 := St();
          done := AddReplacement(l);
          ReadsTrans(flash.g, s0, s1, St(), -1);
          SameUseTrans(s0.table, s1.table, table[..]);
          if !done { return; }
        }
        ghost var s2 := St();
        MarkInRange(flash.g, s2, l);
        if table[l].curRB >= flash.maxPage {
          assert table[l].curRB == flash.maxPage;
          MergeBlocks(l);
          SameUseTrans(s0.table, s2.table, table[..]);
          BlockAboveReserve(flash.g, St(), l);
          merged := true;
        } else {
          return true;
        }
      }
    }

    /** NFTLWriteOneCluster; completed is false where the original would wait for a free block forever. */
    method WriteOneCluster(c: int) returns (completed: bool)
      requires Ready() && InRange(flash.g, c)
      modifies Repr
      ensures Ready()
      ensures completed <==> !Stuck(flash.g, old(St()), c)
      ensures Reads(flash.g, old(St()), St(), if completed then c else -1)
      ensures !completed ==> St() == old(St())
      ensures InUse(St()) <= old(InUse(St())) + {LogicalBlock(flash.maxPage, c)}
    {
      ghost var s0 := St();
      ReadsSelf(flash.g, s0);
      Homes(flash.maxPage);
      hide Ok, Reads, Linked, NoBlockFor, LogicalBlock, LogicalPage, InUse, SameUse;
      var l, lp := LogicalBlock(flash.maxPage, c), LogicalPage(flash.maxPage, c);
      if table[l].primary == NFTL_POINT_TO_NULL {
        completed := AddPrimary(l);
        if !completed { return; }
      }
      ghost var s1 := St();
      MarkInRange(flash.g, s1, l);
      FreeAboveMark(flash.g, s1, l, c, lp);
      if flash.mem[table[l].primary][lp] == FREE_PAGE && table[l].curPB <= lp {
        StoreInPrimary(l, c, lp);
        ReadsTrans(flash.g, s0, s1, St(), c);
        SameUseSame(s1, St());
        completed := true;
      } else {
        completed := Append(l, c, lp);
        ReadsTrans(flash.g, s0, s1, St(), if completed then c else -1);
      }
    }

    /** The part of NFTLWriteOneCluster after case 1 has been ruled out. */
    method Append(l: int, c: int, lp: int) returns (completed: bool)
      requires Ready() && CanStore(flash.g, St(), l, c, lp) && lp < table[l].curPB && table[l].primary != NFTL_POINT_TO_NULL
      modifies Repr
      ensures Ready()
      ensures completed <==> !(old(table[l]).replacement == NFTL_POINT_TO_NULL && NoBlockFor(flash.g, old(St()), l))
      ensures Reads(flash.g, old(St()), St(), if completed then c else -1)
      ensures !completed ==> St() == old(St())
      ensures InUse(St()) == old(InUse(St()))
    {
      hide Ok, Reads, Linked, NoBlockFor, LogicalBlock, LogicalPage, InUse, SameUse;
      ghost var s1 := St();
      completed := MakeRoom(l);
      ghost var s2 := St();
      SameUseSame(s1, s2);
      if completed {
        StoreInReplacement(l, c, lp);
        ReadsTrans(flash.g, s1, s2, St(), c);
        SameUseSame(s2, St());
      }
    }

    lemma ReadyTable()
      requires Ready()
      ensures |St().table| == flash.g.maxBlock && Ok(flash.g, St())
      ensures 0 < flash.maxPage == flash.g.maxPage && flash.reserve == flash.g.reserve
    {
    }

    /** The clusters of a trace written one after the other, up to the first that gets stuck. */
    method WriteTrace(clusters: seq<int>) returns (done: nat)
      requires Ready() && forall i :: 0 <= i < |clusters| ==> InRange(flash.g, clusters[i])
      modifies Repr
      ensures Ready() && done <= |clusters|
      ensures ReadsAll(flash.g, old(St()), St(), clusters[..done])
      ensures done < |clusters| ==> Stuck(flash.g, St(), clusters[done])
      ensures 2 * |old(InUse(St())) + HomeBlocks(flash.maxPage, clusters)| <= |flash.g.good| - flash.reserve ==> done == |clusters|
    {
      hide *;
      ghost var s0 := St();
      ReadyTable();
      ReadsNone(flash.g, s0);
      ghost var home := InUse(s0) + HomeBlocks(flash.maxPage, clusters);
      done := 0;
      while done < |clusters|
        invariant Ready() && done <= |clusters| && ReadsAll(flash.g, s0, St(), clusters[..done])
        invariant InUse(St()) <= home
      {
        ghost var s1 := St();
        ReadyTable();
        HomeBlocksHold(flash.maxPage, clusters, done);
        HalfIsEnough(flash.g, s1, clusters[done], home);
        var completed := WriteOneCluster(clusters[done]);
        if !completed { return; }
        ReadsNext(flash.g, s0, s1, St(), clusters[..done], clusters[done]);
        assert clusters[..done] + [clusters[done]] == clusters[..done + 1];
        done := done + 1;
      }
    }

    /** Case 1 of NFTLWriteOneCluster. */
    method StoreInPrimary(l: int, c: int, lp: int)
      requires Ready() && CanStore(flash.g, St(), l, c, lp)
      requires flash.view.mem[table[l].primary][lp] == FREE_PAGE && table[l].curPB <= lp
      modifies Repr
      ensures Ready() && Reads(flash.g, old(St()), St(), c) && SameUse(old(table[..]), table[..])
    {
      hide Ok, Reads, Linked, LogicalBlock, LogicalPage;
      ghost var s := St();
      StoredInPlaceOk(flash.g, s, l, c, lp);
      flash.Program(table[l].primary, lp, c);
      table[l] := table[l].(curPB := lp + 1);
      assert St() == StoredInPlace(s, l, c, lp);
    }

    /** Cases 2, 3 and 4 of NFTLWriteOneCluster. */
    method StoreInReplacement(l: int, c: int, lp: int)
      requires Ready() && InRange(flash.g, c) && IsCluster(flash.maxPage, l, c, lp) && l < table.Length && 0 <= lp < flash.maxPage
      requires table[l].primary != NFTL_POINT_TO_NULL && table[l].replacement != NFTL_POINT_TO_NULL
      requires table[l].curRB < flash.maxPage && lp < table[l].curPB
      modifies Repr
      ensures Ready() && Reads(flash.g, old(St()), St(), c) && SameUse(old(table[..]), table[..])
    {
      hide Ok, Reads, Linked, LogicalBlock, LogicalPage, SetOk;
      ghost var s := St();
      MarkInRange(flash.g, s, l);
      CanStoreFacts(flash.g, s, l, c, lp);
      CasesCover(flash.maxPage, l, s.table[l], Prim(s, l), Repl(s, l), c, lp);
      var e := table[l];
      var x := flash.mem[e.primary][lp];
      if x == c {
        RelogPrimaryOk(flash.g, s, l, c, lp);
        Relog(l, e.primary, lp, c);
      } else if x == INVALID_PAGE {
        var i := SearchReplacement(l, c);
        assert i >= 0;
        RelogReplacementOk(flash.g, s, l, c, lp, i);
        Relog(l, e.replacement, i, c);
      } else {
        assert x == FREE_PAGE && e.curPB > lp;
        var i := SearchReplacement(l, c);
        RelogReplacementOk(flash.g, s, l, c, lp, i);
        Relog(l, e.replacement, i, c);
      }
    }

    /** Invalidate the old page (b, p), if p is not -1, and append c to the replacement block. */
    method Relog(l: int, b: int, p: int, c: int)
      requires Valid() && 0 <= l < table.Length && HasRoom(flash.g, St(), l) && 0 <= c && b in flash.g.good && -1 <= p < flash.maxPage
      requires p >= 0 ==> flash.view.mem[b][p] >= 0
      requires flash.view.mem[table[l].replacement][table[l].curRB] == FREE_PAGE
      modifies Repr
      ensures Valid() && St() == Relogged(old(St()), l, b, p, c)
    {
      hide Linked;
      if p >= 0 {
        flash.Invalidate(b, p);
      }
      flash.Program(table[l].replacement, table[l].curRB, c);
      table[l] := table[l].(curRB := table[l].curRB + 1);
    }
  }

  lemma FreeFacts(g: Geometry, s: State)
    requires Ok(g, s) && s.view.free != []
    ensures s.view.free[0] in g.good && 0 <= s.view.free[0] && s.view.valid[s.view.free[0]] == s.view.invalid[s.view.free[0]] == 0
  {
    assert s.view.free[0] in s.view.free;
    CountBounds(s.view.mem[s.view.free[0]]);
  }

  lemma BlockAboveReserve(g: Geometry, s: State, l: int)
    ensures |s.view.free| > g.reserve ==> !NoBlockFor(g, s, l)
  {
  }

  lemma MarkInRange(g: Geometry, s: State, l: int)
    requires Ok(g, s) && 0 <= l < |s.table| && s.table[l].primary != NFTL_POINT_TO_NULL
    ensures s.table[l].primary in g.good && Prim(s, l) == s.view.mem[s.table[l].primary]
    ensures 0 <= s.table[l].curPB <= g.maxPage
    ensures s.table[l].replacement != NFTL_POINT_TO_NULL ==>
              s.table[l].replacement in g.good && 0 <= s.table[l].curRB <= g.maxPage
              && forall q :: s.table[l].curRB <= q < g.maxPage ==> s.view.mem[s.table[l].replacement][q] == FREE_PAGE
  {
    assert Owns(s.table[l], s.table[l].primary);
    assert s.table[l].replacement != NFTL_POINT_TO_NULL ==> Owns(s.table[l], s.table[l].replacement);
    assert SetOk(g.maxPage, l, s.table[l], Prim(s, l), Repl(s, l));
  }

  /** The test of case 1 fails exactly below the mark. */
  lemma FreeAboveMark(g: Geometry, s: State, l: int, c: int, lp: int)
    requires Ok(g, s) && InRange(g, c) && IsCluster(g.maxPage, l, c, lp) && 0 <= lp < g.maxPage
    requires 0 <= l < |s.table| && s.table[l].primary != NFTL_POINT_TO_NULL
    ensures CanStore(g, s, l, c, lp)
    ensures s.table[l].curPB <= lp ==> s.view.mem[s.table[l].primary][lp] == FREE_PAGE
  {
    hide LogicalBlock, LogicalPage;
    MarkInRange(g, s, l);
    CanStoreFacts(g, s, l, c, lp);
    CasesCover(g.maxPage, l, s.table[l], Prim(s, l), Repl(s, l), c, lp);
  }

  lemma CopyStart(g: Geometry, s: State, l: int, v: View)
    requires Sized(g, s.view) && Mergeable(s, l) && s.view.free != []
    requires var e, f := s.table[l], s.view.free[0];
             f in g.good && e.primary in g.good && e.replacement in g.good
             && Clean(s.view.mem[f]) && s.view.valid[f] == s.view.invalid[f] == 0
             && v == s.view.(free := v.free)
    ensures var e, f := s.table[l], s.view.free[0];
            var start := CopiedUpTo(g.maxPage, l, s.view.mem[e.primary], s.view.mem[e.replacement], 0, 0);
            CopiedTo(g, s.view, v, f, e.primary, e.replacement, start) && Mark(start, 0)
  {
    var e, f := s.table[l], s.view.free[0];
    CountBounds(s.view.mem[f]);
    assert CopiedUpTo(g.maxPage, l, s.view.mem[e.primary], s.view.mem[e.replacement], 0, 0) == s.view.mem[f];
    assert s.view.mem[f := s.view.mem[f]] == s.view.mem;
  }

  lemma MergeEnd(g: Geometry, s: State, l: int, v: View, cur: int)
    requires Sized(g, s.view) && Mergeable(s, l) && s.view.free != []
    requires var e, f := s.table[l], s.view.free[0];
             f in g.good && e.primary in g.good && e.replacement in g.good
             && f != e.primary && f != e.replacement && e.primary != e.replacement
             && MergeSource(g.maxPage, l, e.curPB, e.curRB, s.view.mem[e.primary], s.view.mem[e.replacement])
             && var merged := CopiedUpTo(g.maxPage, l, s.view.mem[e.primary], s.view.mem[e.replacement], g.maxPage, g.maxPage);
             CopiedTo(g, s.view, v, f, e.primary, e.replacement, merged) && Mark(merged, cur)
             && v.free == s.view.free[1..] + [e.primary, e.replacement]
    ensures cur == s.table[l].curPB
    ensures var e, clean := s.table[l], InitialPages(g.maxPage, false);
            BlockUpdated(BlockUpdated(v, e.primary, clean, 0, 0), e.replacement, clean, 0, 0) == Merged(g, s, l).view
  {
    hide MergeSource, LogicalBlock, LogicalPage, Cluster;
    var e, f := s.table[l], s.view.free[0];
    var merged := MergedPages(g.maxPage, l, s.view.mem[e.primary], s.view.mem[e.replacement]);
    MergedSet(g.maxPage, l, e, s.view.mem[e.primary], s.view.mem[e.replacement], Entry(f, e.curPB, -1, -1));
    MarkUnique(merged, cur, e.curPB);
    hide SetOk, Adds, CopiedUpTo;
    MergedView(g, s.view, v, f, e.primary, e.replacement, merged);
  }

  lemma MergedView(g: Geometry, v0: View, v: View, f: int, p: int, r: int, pages: seq<int>)
    requires Sized(g, v0) && f in g.good && p in g.good && r in g.good && f != p && f != r && p != r
    requires CopiedTo(g, v0, v, f, p, r, pages)
    ensures var clean := InitialPages(g.maxPage, false);
            BlockUpdated(BlockUpdated(v, p, clean, 0, 0), r, clean, 0, 0)
            == BlockUpdated(BlockUpdated(BlockUpdated(v0, f, pages, CountValid(pages), 0), p, clean, 0, 0), r, clean, 0, 0).(free := v.free)
  {
    hide CountValid;
    var clean := InitialPages(g.maxPage, false);
    var a := BlockUpdated(BlockUpdated(v, p, clean, 0, 0), r, clean, 0, 0);
    var b := BlockUpdated(BlockUpdated(BlockUpdated(v0, f, pages, CountValid(pages), 0), p, clean, 0, 0), r, clean, 0, 0);
    assert a.mem == b.mem;
    assert a.valid == b.valid;
    assert a.invalid == b.invalid;
  }

  /** cur is one past the last page in use. */
  ghost predicate Mark(pages: seq<int>, cur: int) {
    && 0 <= cur <= |pages| && (forall p :: cur <= p < |pages| ==> pages[p] == FREE_PAGE)
    && (0 < cur ==> pages[cur - 1] != FREE_PAGE)
  }

  lemma MarkStep(pages: seq<int>, p: int, x: int, cur: int)
    requires Mark(pages, cur) && 0 <= p < |pages| && x != FREE_PAGE
    ensures Mark(pages[p := x], if cur <= p then p + 1 else cur)
  {
  }

  lemma MarkUnique(pages: seq<int>, a: int, b: int)
    requires Mark(pages, a) && Mark(pages, b)
    ensures a == b
  {
    assert 0 < a ==> pages[a - 1] != FREE_PAGE;
    assert 0 < b ==> pages[b - 1] != FREE_PAGE;
  }

  /** Block f holds the given pages, counted exactly; of the other blocks only the counters of p and r changed. */
  ghost predicate CopiedTo(g: Geometry, v0: View, v: View, f: int, p: int, r: int, pages: seq<int>)
    requires Sized(g, v0) && f in g.good
  {
    && Sized(g, v) && |pages| == g.maxPage && v.mem == v0.mem[f := pages]
    && v.valid[f] == CountValid(pages) && v.invalid[f] == 0
    && (forall b :: 0 <= b < g.maxBlock && b != f && b != p && b != r ==> v.valid[b] == v0.valid[b] && v.invalid[b] == v0.invalid[b])
  }

  function Moved(v: View, f: int, q: int, x: int, source: int): View
    requires |v.mem| == |v.valid| == |v.invalid| && 0 <= f < |v.mem| && 0 <= q < |v.mem[f]| && 0 <= source < |v.mem|
  {
    var v1 := SetPage(v, f, q, x);
    BlockUpdated(v1, source, v1.mem[source], v1.valid[source] - 1, v1.invalid[source] + 1)
  }

  lemma CopiedStep(g: Geometry, v0: View, v: View, f: int, p: int, r: int, pages: seq<int>, q: int, x: int, source: int)
    requires Sized(g, v0) && f in g.good && CopiedTo(g, v0, v, f, p, r, pages) && f != p && f != r
    requires p in g.good && r in g.good && (source == p || source == r)
    requires 0 <= q < g.maxPage && pages[q] == FREE_PAGE && 0 <= x
    ensures CopiedTo(g, v0, Moved(v, f, q, x, source), f, p, r, pages[q := x])
  {
    CountUpdate(pages, q, x);
    assert v.mem[f] == pages;
  }
}
