/** skiplist.h: one writer that publishes nodes link by link, and any number of readers that take no lock. */
module SkipList {
  import opened Keys

  const MAX_HEIGHT: nat := 12

  /** Node 0 is head_; NULL is -1. */
  const HEAD: int := 0
  const NULL: int := -1

  /** A key as the comparator sees it. */
  type Key = UserKey

  /** Shared memory: the key and the next_ array of every node, and max_height_. */
  datatype Mem = Mem(keys: seq<Key>, next: seq<seq<int>>, maxHeight: nat)

  /** Level k as the list of nodes that it links, without the head. */
  type Chain = seq<int>

  ghost predicate WfMem(m: Mem) {
    && 0 < |m.next| == |m.keys| && |m.next[HEAD]| == MAX_HEIGHT && 1 <= m.maxHeight <= MAX_HEIGHT
    && (forall n :: 0 <= n < |m.next| ==> 1 <= |m.next[n]| <= MAX_HEIGHT)
  }

  /** What follows position i of a chain. */
  function At(c: Chain, i: nat): int { if i < |c| then c[i] else NULL }

  ghost predicate Follows(m: Mem, k: nat, c: Chain, i: nat)
    requires i < |c| && 0 <= c[i] < |m.next| && k < |m.next[c[i]]|
  {
    m.next[c[i]][k] == At(c, i + 1)
  }

  /** Following level k from the head gives the chain, in increasing key order. */
  ghost predicate ChainOk(m: Mem, k: nat, c: Chain)
    requires WfMem(m) && k < MAX_HEIGHT
  {
    && (forall i :: 0 <= i < |c| ==> 0 < c[i] < |m.next| && k < |m.next[c[i]]|)
    && m.next[HEAD][k] == At(c, 0)
    && (forall i :: 0 <= i < |c| ==> Follows(m, k, c, i))
    && (forall i, j :: 0 <= i < j < |c| ==> m.keys[c[i]] < m.keys[c[j]])
  }

  /** Every level is a sorted sublist of the one below it. */
  ghost predicate Linked(m: Mem, chains: seq<Chain>) {
    && WfMem(m) && |chains| == MAX_HEIGHT
    && (forall k :: 0 <= k < MAX_HEIGHT ==> ChainOk(m, k, chains[k]))
    && (forall j, k, x :: 0 <= j < k < MAX_HEIGHT && x in chains[k] ==> x in chains[j])
    && (forall k :: m.maxHeight <= k < MAX_HEIGHT ==> chains[k] == [])
  }

  /** A place to search from: the head, or a node of the level with a smaller key. */
  ghost predicate SearchPoint(m: Mem, c: Chain, x: int, key: Key)
    requires WfMem(m) && forall i :: 0 <= i < |c| ==> 0 < c[i] < |m.next|
  {
    x == HEAD || (x in c && m.keys[x] < key)
  }

  /** The first p nodes of the chain have smaller keys, the others do not. */
  ghost predicate SplitAt(m: Mem, c: Chain, key: Key, p: nat)
    requires WfMem(m) && forall i :: 0 <= i < |c| ==> 0 < c[i] < |m.next|
  {
    p <= |c| && (forall i :: 0 <= i < p ==> m.keys[c[i]] < key) && forall i :: p <= i < |c| ==> key <= m.keys[c[i]]
  }

  /** The node before position p. */
  function PrevOf(c: Chain, p: nat): int
    requires p <= |c|
  {
    if p == 0 then HEAD else c[p - 1]
  }

  /** n is the first node of the chain whose key is not less than the given one. */
  ghost predicate Successor(m: Mem, c: Chain, key: Key, n: int)
    requires WfMem(m) && forall i :: 0 <= i < |c| ==> 0 < c[i] < |m.next|
  {
    exists p :: SplitAt(m, c, key, p) && n == At(c, p)
  }

  /** x is the last node of the chain whose key is less than the given one, or the head. */
  ghost predicate Predecessor(m: Mem, c: Chain, key: Key, x: int)
    requires WfMem(m) && forall i :: 0 <= i < |c| ==> 0 < c[i] < |m.next|
  {
    exists p :: SplitAt(m, c, key, p) && x == PrevOf(c, p)
  }

  /** Position after a node to search from. */
  lemma PositionOf(m: Mem, k: nat, c: Chain, x: int, key: Key) returns (p: nat)
    requires WfMem(m) && k < MAX_HEIGHT && ChainOk(m, k, c) && SearchPoint(m, c, x, key)
    ensures p <= |c| && x == PrevOf(c, p) && (forall i :: 0 <= i < p ==> m.keys[c[i]] < key)
    ensures x < |m.next| && k < |m.next[x]| && m.next[x][k] == At(c, p)
  {
    if x == HEAD {
      p := 0;
    } else {
      var i :| 0 <= i < |c| && c[i] == x;
      p := i + 1;
      assert Follows(m, k, c, i);
      forall j | 0 <= j < p ensures m.keys[c[j]] < key { assert j == i || m.keys[c[j]] < m.keys[c[i]]; }
    }
  }

  /** One load of a search at level k: either a node to go on from, or the successor and predecessor of the key. */
  lemma OneLoad(m: Mem, k: nat, c: Chain, x: int, key: Key)
    requires WfMem(m) && k < MAX_HEIGHT && ChainOk(m, k, c) && SearchPoint(m, c, x, key)
    ensures 0 <= x < |m.next| && k < |m.next[x]|
    ensures var n := m.next[x][k];
            if n != NULL && 0 < n < |m.keys| && m.keys[n] < key then SearchPoint(m, c, n, key)
            else Successor(m, c, key, n) && Predecessor(m, c, key, x)
    ensures m.next[x][k] == NULL || 0 < m.next[x][k] < |m.keys|
  {
    var p := PositionOf(m, k, c, x, key);
    var n := m.next[x][k];
    if !(p < |c| && m.keys[n] < key) {
      forall i | p <= i < |c| ensures key <= m.keys[c[i]] { assert i == p || m.keys[c[p]] < m.keys[c[i]]; }
      assert SplitAt(m, c, key, p);
    }
  }

  // ---------- readers ----------

  datatype Search = GreaterOrEqual | LessThan

  /** FindGreaterOrEqual(key, NULL) or FindLessThan(key) in progress, or its result. */
  datatype Reader = Finding(what: Search, key: Key, x: int, level: nat) | Found(what: Search, key: Key, result: int)

  /** KeyIsAfterNode. */
  predicate KeyIsAfterNode(m: Mem, key: Key, n: int) { 0 <= n < |m.keys| && n != NULL && m.keys[n] < key }

  /** One turn of the search loop: one load, then local moves. */
  function ReaderStep(m: Mem, r: Reader): Reader
    requires r.Finding? && 0 <= r.x < |m.next| && r.level < |m.next[r.x]|
  {
    var n := m.next[r.x][r.level];
    if KeyIsAfterNode(m, r.key, n) then r.(x := n)
    else if r.level == 0 then Found(r.what, r.key, if r.what.GreaterOrEqual? then n else r.x)
    else r.(level := r.level - 1)
  }

  ghost predicate ReaderOk(m: Mem, chains: seq<Chain>, r: Reader)
    requires Linked(m, chains)
  {
    r.Finding? ==> r.level < MAX_HEIGHT && ChainOk(m, r.level, chains[r.level]) && SearchPoint(m, chains[r.level], r.x, r.key)
  }

  /**
   A reader's step is safe whatever the writer is doing, and when it ends the search the result is the true
   successor (predecessor) of its key in the list as it is at the instant of that load.
   */
  lemma ReaderStepOk(m: Mem, chains: seq<Chain>, r: Reader)
    requires Linked(m, chains) && ReaderOk(m, chains, r) && r.Finding?
    ensures 0 <= r.x < |m.next| && r.level < |m.next[r.x]| && ReaderOk(m, chains, ReaderStep(m, r))
    ensures ChainOk(m, 0, chains[0])
    ensures match ReaderStep(m, r)
            case Finding(_, _, _, _) => true
            case Found(GreaterOrEqual, key, n) => key == r.key && Successor(m, chains[0], key, n)
            case Found(LessThan, key, x) => key == r.key && Predecessor(m, chains[0], key, x)
  {
    OneLoad(m, r.level, chains[r.level], r.x, r.key);
    assert r.level > 0 ==> ChainOk(m, r.level - 1, chains[r.level - 1]);
  }

  // ---------- the writer ----------

  /** Between its stores: linking node x, with prev, at level i; own tells whether its own link at i is set. */
  datatype Writer = Idle | Linking(x: int, prev: seq<int>, i: nat, own: bool)

  /** key goes into chain c at position p, after prev. */
  ghost predicate Gap(m: Mem, c: Chain, key: Key, p: nat, prev: int)
    requires WfMem(m) && forall i :: 0 <= i < |c| ==> 0 < c[i] < |m.next|
  {
    && SplitAt(m, c, key, p) && prev == PrevOf(c, p) && (forall i :: 0 <= i < |c| ==> m.keys[c[i]] != key)
  }

  ghost predicate GapAt(m: Mem, k: nat, c: Chain, key: Key, prev: int)
    requires WfMem(m) && k < MAX_HEIGHT
  {
    ChainOk(m, k, c) && exists p :: Gap(m, c, key, p, prev)
  }

  ghost predicate WriterOk(m: Mem, chains: seq<Chain>, w: Writer)
    requires Linked(m, chains)
  {
    w.Linking? ==>
      && 0 < w.x < |m.next| && w.i < |m.next[w.x]| == |w.prev|
      && (forall k :: 0 <= k < w.i ==> w.x in chains[k])
      && (forall k :: w.i <= k < |w.prev| ==> w.x !in chains[k] && GapAt(m, k, chains[k], m.keys[w.x], w.prev[k]))
      && (forall k :: |w.prev| <= k < MAX_HEIGHT ==> w.x !in chains[k])
      && 0 <= w.prev[w.i] < |m.next| && w.i < |m.next[w.prev[w.i]]|
      && (w.own ==> m.next[w.x][w.i] == m.next[w.prev[w.i]][w.i])
  }

  /** The store to max_height_, and a new node that nobody can reach yet; its links hold anything. */
  function NewNode(m: Mem, key: Key, links: seq<int>): Mem {
    Mem(m.keys + [key], m.next + [links], if |links| > m.maxHeight then |links| else m.maxHeight)
  }

  /** x->NoBarrier_SetNext(i, prev[i]->NoBarrier_Next(i)). */
  function SetOwn(m: Mem, w: Writer): Mem
    requires w.Linking? && 0 <= w.x < |m.next| && w.i < |m.next[w.x]| && w.i < |w.prev|
    requires 0 <= w.prev[w.i] < |m.next| && w.i < |m.next[w.prev[w.i]]|
  {
    m.(next := m.next[w.x := m.next[w.x][w.i := m.next[w.prev[w.i]][w.i]]])
  }

  /** prev[i]->SetNext(i, x). */
  function Publish(m: Mem, w: Writer): Mem
    requires w.Linking? && 0 <= w.x < |m.next| && w.i < |w.prev|
    requires 0 <= w.prev[w.i] < |m.next| && w.i < |m.next[w.prev[w.i]]|
  {
    m.(next := m.next[w.prev[w.i] := m.next[w.prev[w.i]][w.i := w.x]])
  }

  function Inserted(c: Chain, p: nat, x: int): (d: Chain)
    requires p <= |c|
    ensures |d| == |c| + 1
    ensures forall i :: 0 <= i < |d| ==> d[i] == if i < p then c[i] else if i == p then x else c[i - 1]
  {
    c[..p] + [x] + c[p..]
  }

  lemma ChainNodes(m: Mem, chains: seq<Chain>, k: nat, x: int)
    requires Linked(m, chains) && k < MAX_HEIGHT && x in chains[k]
    ensures 0 < x < |m.next| && k < |m.next[x]|
  {
    assert ChainOk(m, k, chains[k]);
  }

  /** A chain in memory that agrees on its keys and its links. */
  lemma SameChain(m: Mem, m': Mem, k: nat, c: Chain)
    requires WfMem(m) && WfMem(m') && k < MAX_HEIGHT && ChainOk(m, k, c) && m.keys <= m'.keys
    requires forall n :: 0 <= n < |m.next| && (n == HEAD || n in c) && k < |m.next[n]| ==> k < |m'.next[n]| && m'.next[n][k] == m.next[n][k]
    ensures ChainOk(m', k, c)
  {
    forall i: nat | i < |c| ensures 0 < c[i] < |m'.next| && k < |m'.next[c[i]]| && Follows(m', k, c, i) {
      assert Follows(m, k, c, i) && c[i] in c;
    }
  }

  lemma NewNodeOk(m: Mem, chains: seq<Chain>, key: Key, links: seq<int>)
    requires Linked(m, chains) && 1 <= |links| <= MAX_HEIGHT
    ensures Linked(NewNode(m, key, links), chains)
    ensures forall k :: 0 <= k < MAX_HEIGHT ==> |m.next| !in chains[k]
  {
    var m' := NewNode(m, key, links);
    forall k | 0 <= k < MAX_HEIGHT ensures ChainOk(m', k, chains[k]) && |m.next| !in chains[k] {
      SameChain(m, m', k, chains[k]);
    }
  }

  /** The gap for a key stays where it is when other nodes are added or linked. */
  lemma GapKept(m: Mem, m': Mem, k: nat, c: Chain, key: Key, prev: int)
    requires WfMem(m) && WfMem(m') && k < MAX_HEIGHT && GapAt(m, k, c, key, prev) && ChainOk(m', k, c) && m.keys <= m'.keys
    ensures GapAt(m', k, c, key, prev)
  {
    var p :| Gap(m, c, key, p, prev);
    assert Gap(m', c, key, p, prev);
  }

  /** prev can be read and written at its level. */
  lemma PrevNode(m: Mem, k: nat, c: Chain, key: Key, prev: int)
    requires WfMem(m) && k < MAX_HEIGHT && GapAt(m, k, c, key, prev)
    ensures 0 <= prev < |m.next| && k < |m.next[prev]| && (prev == HEAD || prev in c)
  {
    var p :| Gap(m, c, key, p, prev);
    assert p > 0 ==> c[p - 1] in c;
  }

  lemma BeginOk(m: Mem, chains: seq<Chain>, key: Key, links: seq<int>, prev: seq<int>)
    requires Linked(m, chains) && 1 <= |links| == |prev| <= MAX_HEIGHT
    requires forall k :: 0 <= k < |prev| ==> GapAt(m, k, chains[k], key, prev[k])
    ensures Linked(NewNode(m, key, links), chains)
    ensures WriterOk(NewNode(m, key, links), chains, Linking(|m.next|, prev, 0, false))
  {
    var m' := NewNode(m, key, links);
    NewNodeOk(m, chains, key, links);
    forall k | 0 <= k < |prev| ensures GapAt(m', k, chains[k], m'.keys[|m.next|], prev[k]) {
      assert ChainOk(m', k, chains[k]);
      GapKept(m, m', k, chains[k], key, prev[k]);
    }
    PrevNode(m', 0, chains[0], key, prev[0]);
  }

  lemma SetOwnOk(m: Mem, chains: seq<Chain>, w: Writer)
    requires Linked(m, chains) && WriterOk(m, chains, w) && w.Linking?
    ensures Linked(SetOwn(m, w), chains) && WriterOk(SetOwn(m, w), chains, w.(own := true))
  {
    var m' := SetOwn(m, w);
    assert GapAt(m, w.i, chains[w.i], m.keys[w.x], w.prev[w.i]);
    PrevNode(m, w.i, chains[w.i], m.keys[w.x], w.prev[w.i]);
    assert w.x != w.prev[w.i];
    forall k | 0 <= k < MAX_HEIGHT ensures ChainOk(m', k, chains[k]) {
      assert ChainOk(m, k, chains[k]);
      SameChain(m, m', k, chains[k]);
    }
    forall k | w.i <= k < |w.prev| ensures GapAt(m', k, chains[k], m'.keys[w.x], w.prev[k]) {
      GapKept(m, m', k, chains[k], m.keys[w.x], w.prev[k]);
    }
  }

  /** The chain of the published level gains the node at its place. */
  lemma PublishedChain(m: Mem, m': Mem, k: nat, c: Chain, x: int, prev: int, p: nat)
    requires WfMem(m) && WfMem(m') && k < MAX_HEIGHT && ChainOk(m, k, c) && 0 < x < |m.next| && x !in c && k < |m.next[x]|
    requires Gap(m, c, m.keys[x], p, prev) && m.next[x][k] == At(c, p)
    requires m'.keys == m.keys && |m'.next| == |m.next| && 0 <= prev < |m.next| && k < |m.next[prev]| && prev != x
    requires m'.next == m.next[prev := m.next[prev][k := x]]
    ensures ChainOk(m', k, Inserted(c, p, x))
  {
    var d := Inserted(c, p, x);
    hide Inserted;
    forall i: nat | i < |d| ensures 0 < d[i] < |m'.next| && k < |m'.next[d[i]]| { }
    forall i: nat | i < |d| ensures Follows(m', k, d, i) {
      PublishedLink(m, m', k, c, x, prev, p, d, i);
    }
    forall i, j | 0 <= i < j < |d| ensures m'.keys[d[i]] < m'.keys[d[j]] { }
  }

  lemma PublishedLink(m: Mem, m': Mem, k: nat, c: Chain, x: int, prev: int, p: nat, d: Chain, i: nat)
    requires WfMem(m) && WfMem(m') && k < MAX_HEIGHT && ChainOk(m, k, c) && 0 < x < |m.next| && x !in c && k < |m.next[x]|
    requires p <= |c| && prev == PrevOf(c, p) && m.next[x][k] == At(c, p) && d == Inserted(c, p, x) && i < |d|
    requires m'.keys == m.keys && 0 <= prev < |m.next| && k < |m.next[prev]| && prev != x
    requires m'.next == m.next[prev := m.next[prev][k := x]]
    requires 0 < d[i] < |m'.next| && k < |m'.next[d[i]]|
    ensures Follows(m', k, d, i)
  {
    hide Inserted;
    if i < p {
      assert Follows(m, k, c, i);
      assert i < p - 1 ==> m.keys[c[i]] < m.keys[c[p - 1]];
    } else if i > p {
      assert Follows(m, k, c, i - 1);
      assert p > 0 ==> m.keys[c[p - 1]] < m.keys[c[i - 1]];
    }
  }

  /** The writer after publishing at one level. */
  function Advanced(w: Writer): Writer
    requires w.Linking?
  {
    if w.i + 1 < |w.prev| then Linking(w.x, w.prev, w.i + 1, false) else Idle
  }

  lemma PublishOk(m: Mem, chains: seq<Chain>, w: Writer, p: nat)
    requires Linked(m, chains) && WriterOk(m, chains, w) && w.Linking? && w.own && |m.next[w.x]| <= m.maxHeight
    requires ChainOk(m, w.i, chains[w.i]) && Gap(m, chains[w.i], m.keys[w.x], p, w.prev[w.i])
    ensures Linked(Publish(m, w), chains[w.i := Inserted(chains[w.i], p, w.x)])
    ensures WriterOk(Publish(m, w), chains[w.i := Inserted(chains[w.i], p, w.x)], Advanced(w))
  {
    var i, c, x, prev := w.i, chains[w.i], w.x, w.prev[w.i];
    assert GapAt(m, i, c, m.keys[x], prev);
    PrevNode(m, i, c, m.keys[x], prev);
    var m' := Publish(m, w);
    assert p > 0 ==> Follows(m, i, c, p - 1);
    PublishedChain(m, m', i, c, x, prev, p);
    hide ChainOk, Inserted;
    PublishedLinked(m, m', chains, w, p);
    PublishedWriter(m, m', chains, w, p);
  }

  lemma InsertedMembers(c: Chain, p: nat, x: int)
    requires p <= |c|
    ensures forall y :: y in Inserted(c, p, x) <==> y in c || y == x
  {
    assert c == c[..p] + c[p..];
  }

  lemma PublishedLinked(m: Mem, m': Mem, chains: seq<Chain>, w: Writer, p: nat)
    requires Linked(m, chains) && WriterOk(m, chains, w) && w.Linking? && |m.next[w.x]| <= m.maxHeight && p <= |chains[w.i]|
    requires m' == Publish(m, w) && WfMem(m') && ChainOk(m', w.i, Inserted(chains[w.i], p, w.x))
    ensures Linked(m', chains[w.i := Inserted(chains[w.i], p, w.x)])
  {
    var chains' := chains[w.i := Inserted(chains[w.i], p, w.x)];
    InsertedMembers(chains[w.i], p, w.x);
    hide Inserted;
    forall k | 0 <= k < MAX_HEIGHT ensures ChainOk(m', k, chains'[k]) {
      if k != w.i {
        assert ChainOk(m, k, chains[k]);
        SameChain(m, m', k, chains[k]);
      }
    }
    hide ChainOk, GapAt;
    forall j, k, y | 0 <= j < k < MAX_HEIGHT && y in chains'[k] ensures y in chains'[j] {
      if k == w.i && y == w.x {
        assert w.x in chains[j];
      } else if k == w.i {
        assert y in chains[k];
      }
    }
  }

  lemma PublishedWriter(m: Mem, m': Mem, chains: seq<Chain>, w: Writer, p: nat)
    requires Linked(m, chains) && WriterOk(m, chains, w) && w.Linking? && p <= |chains[w.i]| && m' == Publish(m, w)
    requires Linked(m', chains[w.i := Inserted(chains[w.i], p, w.x)])
    ensures WriterOk(m', chains[w.i := Inserted(chains[w.i], p, w.x)], Advanced(w))
  {
    var chains' := chains[w.i := Inserted(chains[w.i], p, w.x)];
    InsertedMembers(chains[w.i], p, w.x);
    hide Inserted;
    hide ChainOk, GapAt, Gap;
    forall k | w.i < k < |w.prev| ensures GapAt(m', k, chains'[k], m'.keys[w.x], w.prev[k]) {
      assert ChainOk(m', k, chains'[k]);
      GapKept(m, m', k, chains[k], m.keys[w.x], w.prev[k]);
    }
    if w.i + 1 < |w.prev| {
      PrevNode(m', w.i + 1, chains'[w.i + 1], m'.keys[w.x], w.prev[w.i + 1]);
    }
  }

  // ---------- the list on its own ----------

  class List {
    var m: Mem
    ghost var chains: seq<Chain>

    constructor ()
      ensures Linked(m, chains) && chains[0] == []
    {
      m, chains := EmptyMem(), seq(MAX_HEIGHT, _ => []);
      new;
      forall k | 0 <= k < MAX_HEIGHT ensures ChainOk(m, k, chains[k]) { }
    }

    /** FindGreaterOrEqual(key, prev): the successor on level 0, and the predecessor on every level in use. */
    method FindGreaterOrEqual(key: Key) returns (n: int, prev: seq<int>)
      requires Linked(m, chains)
      ensures |prev| == m.maxHeight && ChainOk(m, 0, chains[0]) && Successor(m, chains[0], key, n)
      ensures forall k :: 0 <= k < |prev| ==> ChainOk(m, k, chains[k]) && Predecessor(m, chains[k], key, prev[k])
    {
      var x, level := HEAD, m.maxHeight - 1;
      prev := seq(m.maxHeight, _ => HEAD);
      ghost var p: nat := 0;
      while true
        invariant 0 <= level < m.maxHeight && |prev| == m.maxHeight && ChainOk(m, level, chains[level]) && SearchPoint(m, chains[level], x, key)
        invariant forall k :: level < k < m.maxHeight ==> ChainOk(m, k, chains[k]) && Predecessor(m, chains[k], key, prev[k])
        invariant p <= |chains[level]| && x == PrevOf(chains[level], p)
        decreases level, |chains[level]| - p
      {
        OneLoad(m, level, chains[level], x, key);
        n := m.next[x][level];
        NextPosition(m, level, chains[level], x, p);
        if KeyIsAfterNode(m, key, n) {
          x := n;
          p := p + 1;
        } else {
          prev := prev[level := x];
          if level == 0 { return; }
          level := level - 1;
          assert ChainOk(m, level, chains[level]);
          p := PositionOf(m, level, chains[level], x, key);
        }
      }
    }

    /** FindLast: the last node of level 0, or the head. */
    method FindLast() returns (x: int)
      requires Linked(m, chains)
      ensures x == PrevOf(chains[0], |chains[0]|)
    {
      var level := m.maxHeight - 1;
      x := HEAD;
      ghost var p: nat := 0;
      while true
        invariant 0 <= level < m.maxHeight && ChainOk(m, level, chains[level])
        invariant p <= |chains[level]| && x == PrevOf(chains[level], p)
        decreases level, |chains[level]| - p
      {
        NextPosition(m, level, chains[level], x, p);
        var n := m.next[x][level];
        if n == NULL {
          if level == 0 { return; }
          p := LowerPosition(m, chains, level, x, p);
          level := level - 1;
        } else {
          x := n;
          p := p + 1;
        }
      }
    }

    /** The search at the start of Insert, with the head as predecessor above the levels in use. */
    method FindPrev(key: Key, height: nat) returns (prev: seq<int>, ghost p: nat)
      requires Linked(m, chains) && 1 <= height <= MAX_HEIGHT
      requires forall x :: x in chains[0] ==> 0 < x < |m.keys| && m.keys[x] != key
      ensures |prev| == height && (forall k :: 0 <= k < height ==> GapAt(m, k, chains[k], key, prev[k]))
      ensures ChainOk(m, 0, chains[0]) && Gap(m, chains[0], key, p, prev[0])
    {
      var _, found := FindGreaterOrEqual(key);
      prev := seq(height, k requires 0 <= k < height => if k < |found| then found[k] else HEAD);
      PrevIsGap(m, chains, key, prev);
      assert GapAt(m, 0, chains[0], key, prev[0]);
      p :| Gap(m, chains[0], key, p, prev[0]);
    }

    /** Insert, given the height drawn by RandomHeight: the key enters level 0 at its place. */
    method Insert(key: Key, height: nat) returns (ghost p: nat)
      requires Linked(m, chains) && 1 <= height <= MAX_HEIGHT
      requires forall x :: x in chains[0] ==> 0 < x < |m.keys| && m.keys[x] != key
      modifies this
      ensures Linked(m, chains) && m.keys == old(m.keys) + [key]
      ensures ChainOk(old(m), 0, old(chains)[0]) && SplitAt(old(m), old(chains)[0], key, p)
      ensures chains[0] == Inserted(old(chains)[0], p, |old(m.keys)|)
    {
      var prev;
      prev, p := FindPrev(key, height);
      var links := seq(height, _ => NULL);
      BeginOk(m, chains, key, links, prev);
      BeginLinkable(m, chains, key, links, prev, p);
      hide Linked, WriterOk, Inserted, Publish, SetOwn, Gap, GapAt, ChainOk;
      var w := Linking(|m.next|, prev, 0, false);
      m := NewNode(m, key, links);
      LinkLevels(w, p);
    }

    /** The loop of Insert over the levels of the new node. */
    method LinkLevels(w0: Writer, ghost p: nat)
      requires Linked(m, chains) && w0.Linking? && WriterOk(m, chains, w0) && !w0.own && Linkable(m, w0) && w0.i == 0
      requires ChainOk(m, 0, chains[0]) && Gap(m, chains[0], m.keys[w0.x], p, w0.prev[0])
      modifies this
      ensures Linked(m, chains) && m.keys == old(m.keys) && chains[0] == Inserted(old(chains)[0], p, w0.x)
    {
      hide Linked, WriterOk, Inserted, Publish, SetOwn, Gap, ChainOk;
      var w := LinkLevel(w0, p);
      while w.Linking?
        invariant Linked(m, chains) && WriterOk(m, chains, w) && (w.Linking? ==> 0 < w.i && !w.own && Linkable(m, w))
        invariant m.keys == old(m.keys) && 0 < |chains| == |old(chains)|
        invariant p <= |old(chains)[0]| && chains[0] == Inserted(old(chains)[0], p, w0.x)
        decreases if w.Linking? then |w.prev| - w.i else 0
      {
        ghost var q := FindGap(m, chains, w);
        w := LinkLevel(w, q);
      }
    }

    /** One turn of the loop in Insert: two stores. */
    method LinkLevel(w: Writer, ghost p: nat) returns (w': Writer)
      requires Linked(m, chains) && WriterOk(m, chains, w) && w.Linking? && !w.own && Linkable(m, w)
      requires ChainOk(m, w.i, chains[w.i]) && Gap(m, chains[w.i], m.keys[w.x], p, w.prev[w.i])
      modifies this
      ensures Linked(m, chains) && w' == Advanced(w) && WriterOk(m, chains, w') && (w'.Linking? ==> Linkable(m, w'))
      ensures m.keys == old(m.keys) && |chains| == |old(chains)|
      ensures w.i < |old(chains)| && p <= |old(chains)[w.i]| && chains == old(chains)[w.i := Inserted(old(chains)[w.i], p, w.x)]
    {
      SetOwnOk(m, chains, w);
      GapAfterOwn(m, chains, w, p);
      w' := w.(own := true);
      m := SetOwn(m, w);
      PublishOk(m, chains, w', p);
      LinkableNext(m, chains[w.i := Inserted(chains[w.i], p, w.x)], w');
      chains := chains[w.i := Inserted(chains[w.i], p, w.x)];
      m := Publish(m, w');
      w' := Advanced(w');
    }
  }

  /** What the stores of one level touch. */
  ghost predicate Linkable(m: Mem, w: Writer) {
    && w.Linking? && 0 <= w.x < |m.next| && w.i < |m.next[w.x]| <= m.maxHeight && w.i < |w.prev|
    && 0 <= w.prev[w.i] < |m.next| && w.i < |m.next[w.prev[w.i]]|
  }

  lemma BeginLinkable(m: Mem, chains: seq<Chain>, key: Key, links: seq<int>, prev: seq<int>, p: nat)
    requires Linked(m, chains) && 1 <= |links| == |prev| <= MAX_HEIGHT && ChainOk(m, 0, chains[0]) && Gap(m, chains[0], key, p, prev[0])
    requires Linked(NewNode(m, key, links), chains)
    ensures var m', w := NewNode(m, key, links), Linking(|m.next|, prev, 0, false);
            Linkable(m', w) && ChainOk(m', 0, chains[0]) && Gap(m', chains[0], m'.keys[w.x], p, prev[0])
    ensures SplitAt(m, chains[0], key, p)
  {
    assert GapAt(m, 0, chains[0], key, prev[0]);
    PrevNode(m, 0, chains[0], key, prev[0]);
  }

  lemma NextPosition(m: Mem, k: nat, c: Chain, x: int, p: nat)
    requires WfMem(m) && k < MAX_HEIGHT && ChainOk(m, k, c) && p <= |c| && x == PrevOf(c, p)
    ensures 0 <= x < |m.next| && k < |m.next[x]| && m.next[x][k] == At(c, p) && (p < |c| ==> 0 < c[p] < |m.keys|)
  {
    assert p > 0 ==> Follows(m, k, c, p - 1);
  }

  lemma LowerPosition(m: Mem, chains: seq<Chain>, k: nat, x: int, p: nat) returns (q: nat)
    requires Linked(m, chains) && 0 < k < MAX_HEIGHT && p <= |chains[k]| && x == PrevOf(chains[k], p)
    ensures ChainOk(m, k - 1, chains[k - 1]) && q <= |chains[k - 1]| && x == PrevOf(chains[k - 1], q)
  {
    assert ChainOk(m, k - 1, chains[k - 1]);
    if x == HEAD {
      q := 0;
    } else {
      assert x in chains[k];
      var i :| 0 <= i < |chains[k - 1]| && chains[k - 1][i] == x;
      q := i + 1;
    }
  }

  /** The predecessors that the search found, with the head above the levels in use, bound a gap for a new key. */
  lemma PrevIsGap(m: Mem, chains: seq<Chain>, key: Key, prev: seq<int>)
    requires Linked(m, chains) && |prev| <= MAX_HEIGHT && (forall x :: x in chains[0] ==> 0 < x < |m.keys| && m.keys[x] != key)
    requires forall k :: 0 <= k < |prev| && k < m.maxHeight ==> ChainOk(m, k, chains[k]) && Predecessor(m, chains[k], key, prev[k])
    requires forall k :: m.maxHeight <= k < |prev| ==> prev[k] == HEAD
    ensures forall k :: 0 <= k < |prev| ==> GapAt(m, k, chains[k], key, prev[k])
  {
    forall k | 0 <= k < |prev| ensures GapAt(m, k, chains[k], key, prev[k]) {
      var c := chains[k];
      assert ChainOk(m, k, c);
      var p: nat := 0;
      if k < m.maxHeight {
        p :| SplitAt(m, c, key, p) && prev[k] == PrevOf(c, p);
      }
      forall i | 0 <= i < |c| ensures m.keys[c[i]] != key { assert c[i] in chains[k] && c[i] in chains[0]; }
      assert Gap(m, c, key, p, prev[k]);
    }
  }

  lemma FindGap(m: Mem, chains: seq<Chain>, w: Writer) returns (p: nat)
    requires Linked(m, chains) && WriterOk(m, chains, w) && w.Linking?
    ensures w.i < MAX_HEIGHT && ChainOk(m, w.i, chains[w.i]) && Gap(m, chains[w.i], m.keys[w.x], p, w.prev[w.i])
  {
    assert GapAt(m, w.i, chains[w.i], m.keys[w.x], w.prev[w.i]);
    p :| Gap(m, chains[w.i], m.keys[w.x], p, w.prev[w.i]);
  }

  lemma GapAfterOwn(m: Mem, chains: seq<Chain>, w: Writer, p: nat)
    requires Linked(m, chains) && WriterOk(m, chains, w) && w.Linking? && Linkable(m, w) && Linked(SetOwn(m, w), chains)
    requires ChainOk(m, w.i, chains[w.i]) && Gap(m, chains[w.i], m.keys[w.x], p, w.prev[w.i])
    ensures ChainOk(SetOwn(m, w), w.i, chains[w.i]) && Gap(SetOwn(m, w), chains[w.i], m.keys[w.x], p, w.prev[w.i])
    ensures Linkable(SetOwn(m, w), w)
  {
  }

  /** After the second store the writer is ready for the next level. */
  lemma LinkableNext(m: Mem, chains: seq<Chain>, w: Writer)
    requires Linkable(m, w) && Linked(Publish(m, w), chains) && WriterOk(Publish(m, w), chains, Advanced(w))
    ensures Advanced(w).Linking? ==> Linkable(Publish(m, w), Advanced(w))
  {
  }

  // ---------- one writer and many readers ----------

  datatype Sys = Sys(m: Mem, chains: seq<Chain>, w: Writer, readers: seq<Reader>)

  ghost predicate Inv(s: Sys) {
    && Linked(s.m, s.chains) && WriterOk(s.m, s.chains, s.w)
    && (s.w.Linking? ==> |s.m.next[s.w.x]| <= s.m.maxHeight)
    && (forall j :: 0 <= j < |s.readers| ==> ReaderOk(s.m, s.chains, s.readers[j]))
  }

  function EmptyMem(): Mem { Mem([0.0], [seq(MAX_HEIGHT, _ => NULL)], 1) }

  ghost predicate Init(s: Sys) { s == Sys(EmptyMem(), seq(MAX_HEIGHT, _ => []), Idle, []) }

  /** Insert has found prev for a key that is not in the list, and drawn the height of its node. */
  ghost predicate BeginInsert(s: Sys, s': Sys, key: Key, links: seq<int>, prev: seq<int>) {
    && WfMem(s.m) && |s.chains| == MAX_HEIGHT && s.w.Idle? && 1 <= |links| == |prev| <= MAX_HEIGHT
    && (forall k :: 0 <= k < |prev| ==> GapAt(s.m, k, s.chains[k], key, prev[k]))
    && s' == s.(m := NewNode(s.m, key, links), w := Linking(|s.m.next|, prev, 0, false))
  }

  ghost predicate WriterAtNode(s: Sys) {
    && s.w.Linking? && 0 <= s.w.x < |s.m.next| && s.w.i < |s.m.next[s.w.x]| && s.w.i < |s.w.prev|
    && 0 <= s.w.prev[s.w.i] < |s.m.next| && s.w.i < |s.m.next[s.w.prev[s.w.i]]|
  }

  ghost predicate StoreOwn(s: Sys, s': Sys) {
    WriterAtNode(s) && !s.w.own && s' == s.(m := SetOwn(s.m, s.w), w := s.w.(own := true))
  }

  ghost predicate StorePrev(s: Sys, s': Sys) {
    && WriterAtNode(s) && s.w.own && s.w.i < |s.chains| && WfMem(s.m) && s.w.i < MAX_HEIGHT && ChainOk(s.m, s.w.i, s.chains[s.w.i])
    && exists p :: Gap(s.m, s.chains[s.w.i], s.m.keys[s.w.x], p, s.w.prev[s.w.i])
                   && s' == s.(m := Publish(s.m, s.w), w := Advanced(s.w),
                               chains := s.chains[s.w.i := Inserted(s.chains[s.w.i], p, s.w.x)])
  }

  ghost predicate StartSearch(s: Sys, s': Sys, what: Search, key: Key) {
    1 <= s.m.maxHeight && s' == s.(readers := s.readers + [Finding(what, key, HEAD, s.m.maxHeight - 1)])
  }

  ghost predicate Load(s: Sys, s': Sys, j: nat) {
    && j < |s.readers| && s.readers[j].Finding? && 0 <= s.readers[j].x < |s.m.next|
    && s.readers[j].level < |s.m.next[s.readers[j].x]|
    && s' == s.(readers := s.readers[j := ReaderStep(s.m, s.readers[j])])
  }

  ghost predicate Next(s: Sys, s': Sys) {
    || (exists key, links, prev :: BeginInsert(s, s', key, links, prev)) || StoreOwn(s, s') || StorePrev(s, s')
    || (exists what, key :: StartSearch(s, s', what, key)) || (exists j :: Load(s, s', j))
  }

  /** Nodes stay where they are, so a reader's place stays a place to search from. */
  lemma ReadersKept(m: Mem, chains: seq<Chain>, m': Mem, chains': seq<Chain>, r: Reader)
    requires Linked(m, chains) && Linked(m', chains') && m.keys <= m'.keys && ReaderOk(m, chains, r)
    requires forall k, x :: 0 <= k < MAX_HEIGHT && x in chains[k] ==> x in chains'[k]
    ensures ReaderOk(m', chains', r)
  {
    if r.Finding? && r.x != HEAD {
      ChainNodes(m, chains, r.level, r.x);
    }
    assert r.Finding? ==> ChainOk(m', r.level, chains'[r.level]);
  }

  lemma BeginInv(s: Sys, s': Sys, key: Key, links: seq<int>, prev: seq<int>)
    requires Inv(s) && BeginInsert(s, s', key, links, prev)
    ensures Inv(s')
  {
    BeginOk(s.m, s.chains, key, links, prev);
    hide Linked, WriterOk;
    forall j | 0 <= j < |s.readers| ensures ReaderOk(s'.m, s'.chains, s'.readers[j]) {
      ReadersKept(s.m, s.chains, s'.m, s'.chains, s.readers[j]);
    }
  }

  lemma StoreOwnInv(s: Sys, s': Sys)
    requires Inv(s) && StoreOwn(s, s')
    ensures Inv(s')
  {
    SetOwnOk(s.m, s.chains, s.w);
    hide Linked, WriterOk;
    forall j | 0 <= j < |s.readers| ensures ReaderOk(s'.m, s'.chains, s'.readers[j]) {
      ReadersKept(s.m, s.chains, s'.m, s'.chains, s.readers[j]);
    }
  }

  lemma StorePrevInv(s: Sys, s': Sys)
    requires Inv(s) && StorePrev(s, s')
    ensures Inv(s')
  {
    var p :| Gap(s.m, s.chains[s.w.i], s.m.keys[s.w.x], p, s.w.prev[s.w.i])
             && s'.chains == s.chains[s.w.i := Inserted(s.chains[s.w.i], p, s.w.x)] && s'.m == Publish(s.m, s.w);
    PublishOk(s.m, s.chains, s.w, p);
    InsertedMembers(s.chains[s.w.i], p, s.w.x);
    hide WriterOk, Inserted;
    forall k, x | 0 <= k < MAX_HEIGHT && x in s.chains[k] ensures x in s'.chains[k] { }
    hide Linked;
    forall j | 0 <= j < |s.readers| ensures ReaderOk(s'.m, s'.chains, s'.readers[j]) {
      ReadersKept(s.m, s.chains, s'.m, s'.chains, s.readers[j]);
    }
  }

  lemma StartSearchInv(s: Sys, s': Sys, what: Search, key: Key)
    requires Inv(s) && StartSearch(s, s', what, key)
    ensures Inv(s')
  {
    hide WriterOk;
    assert ChainOk(s.m, s.m.maxHeight - 1, s.chains[s.m.maxHeight - 1]);
  }

  lemma LoadInv(s: Sys, s': Sys, j: nat)
    requires Inv(s) && Load(s, s', j)
    ensures Inv(s')
  {
    hide WriterOk;
    ReaderStepOk(s.m, s.chains, s.readers[j]);
  }

  lemma NextInv(s: Sys, s': Sys)
    requires Inv(s) && Next(s, s')
    ensures Inv(s')
  {
    hide Inv;
    if key, links, prev :| BeginInsert(s, s', key, links, prev) {
      BeginInv(s, s', key, links, prev);
    } else if StoreOwn(s, s') {
      StoreOwnInv(s, s');
    } else if StorePrev(s, s') {
      StorePrevInv(s, s');
    } else if what, key :| StartSearch(s, s', what, key) {
      StartSearchInv(s, s', what, key);
    } else {
      var j: nat :| Load(s, s', j);
      LoadInv(s, s', j);
    }
  }

  ghost predicate Run(states: seq<Sys>) {
    0 < |states| && Init(states[0]) && forall i :: 0 <= i < |states| - 1 ==> Next(states[i], states[i + 1])
  }

  lemma InitInv(s: Sys)
    requires Init(s)
    ensures Inv(s)
  {
    forall k | 0 <= k < MAX_HEIGHT ensures ChainOk(s.m, k, s.chains[k]) { }
  }

  lemma {:induction false} RunInv(states: seq<Sys>, n: nat)
    requires Run(states) && n < |states|
    ensures Inv(states[n])
  {
    hide Inv, Next;
    if n == 0 {
      InitInv(states[0]);
    } else {
      RunInv(states, n - 1);
      NextInv(states[n - 1], states[n]);
    }
  }

  /**
   In every interleaving: the load that ends a search yields the true successor (or predecessor) of its key in the
   list as it is at that instant, and every level is a sorted sublist of level 0.
   */
  lemma EverySearchIsRight(states: seq<Sys>, n: nat, j: nat)
    requires Run(states) && n + 1 < |states| && Load(states[n], states[n + 1], j)
    ensures var s, r := states[n], states[n + 1].readers[j];
            Linked(s.m, s.chains) && ChainOk(s.m, 0, s.chains[0])
            && (r.Found? ==> if r.what.GreaterOrEqual? then Successor(s.m, s.chains[0], r.key, r.result)
                             else Predecessor(s.m, s.chains[0], r.key, r.result))
  {
    RunInv(states, n);
    ReaderStepOk(states[n].m, states[n].chains, states[n].readers[j]);
  }
}
