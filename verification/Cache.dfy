/** cache.cc: one shard of the LRU cache, with its hash table and its reference counts. */
module Cache {
  import opened Keys

  // ---------- HandleTable ----------

  /** What the table sees of an LRUHandle. */
  datatype Node = Node(key: Bytes, hash: nat, id: nat) {
    function Slot(): (Bytes, nat) { (key, hash) }
  }

  ghost predicate Distinct(b: seq<Node>) { forall i, j :: 0 <= i < j < |b| ==> b[i].Slot() != b[j].Slot() }

  /** A bucket holds nodes of its remainder, each slot once, as the map says. */
  ghost predicate BucketOk(b: seq<Node>, r: nat, length: nat, m: map<(Bytes, nat), nat>)
    requires 0 < length
  {
    Distinct(b) && forall n :: n in b ==> n.hash % length == r && n.Slot() in m && m[n.Slot()] == n.id
  }

  ghost predicate TableOk(list: seq<seq<Node>>, m: map<(Bytes, nat), nat>) {
    && 0 < |list|
    && (forall r :: 0 <= r < |list| ==> BucketOk(list[r], r, |list|, m))
    && (forall s :: s in m ==> Node(s.0, s.1, m[s]) in list[s.1 % |list|])
  }

  class HandleTable {
    var elems: nat
    var list: seq<seq<Node>>
    ghost var m: map<(Bytes, nat), nat>

    ghost predicate Valid()
      reads this
    {
      TableOk(list, m) && elems == |m|
    }

    constructor ()
      ensures Valid() && m == map[]
    {
      elems, list, m := 0, [[], [], [], []], map[];
    }

    /** The place of the entry in its bucket, or the end of the bucket. */
    method FindPointer(key: Bytes, hash: nat) returns (b: nat, i: nat)
      requires Valid()
      ensures b == hash % |list| < |list| && i <= |list[b]|
      ensures i < |list[b]| <==> (key, hash) in m
      ensures i < |list[b]| ==> list[b][i] == Node(key, hash, m[(key, hash)])
    {
      b, i := hash % |list|, 0;
      assert (key, hash) in m ==> Node(key, hash, m[(key, hash)]) in list[b];
      while i < |list[b]| && (list[b][i].hash != hash || list[b][i].key != key)
        invariant i <= |list[b]| && forall j :: 0 <= j < i ==> list[b][j].Slot() != (key, hash)
      {
        i := i + 1;
      }
      assert BucketOk(list[b], b, |list|, m);
      if i < |list[b]| {
        assert list[b][i] in list[b];
      }
    }

    method Lookup(key: Bytes, hash: nat) returns (r: Option<nat>)
      requires Valid()
      ensures r == if (key, hash) in m then Some(m[(key, hash)]) else None
    {
      var b, i := FindPointer(key, hash);
      r := if i < |list[b]| then Some(list[b][i].id) else None;
    }

    /** The entry takes the place of one with the same key, or goes to the end of its bucket. */
    method Insert(n: Node) returns (old_: Option<nat>)
      requires Valid()
      modifies this
      ensures Valid() && m == old(m)[n.Slot() := n.id]
      ensures old_ == if n.Slot() in old(m) then Some(old(m)[n.Slot()]) else None
      ensures |list| == old(|list|) || elems <= |list|
    {
      var b, i := FindPointer(n.key, n.hash);
      if i < |list[b]| {
        old_ := Some(list[b][i].id);
        ReplacedOk(list, m, b, i, n);
        list := list[b := list[b][i := n]];
        m := m[n.Slot() := n.id];
      } else {
        old_ := None;
        AppendedOk(list, m, b, n);
        list := list[b := list[b] + [n]];
        m := m[n.Slot() := n.id];
        elems := elems + 1;
        if elems > |list| { Resize(); }
      }
    }

    method Remove(key: Bytes, hash: nat) returns (r: Option<nat>)
      requires Valid()
      modifies this
      ensures Valid() && m == old(m) - {(key, hash)}
      ensures r == if (key, hash) in old(m) then Some(old(m)[(key, hash)]) else None
    {
      var b, i := FindPointer(key, hash);
      r := None;
      if i < |list[b]| {
        r := Some(list[b][i].id);
        RemovedOk(list, m, b, i);
        list := list[b := list[b][..i] + list[b][i + 1..]];
        elems := elems - 1;
        m := m - {(key, hash)};
      }
    }

    /** Every entry moves to the front of its new bucket; lookups see no difference. */
    method Resize()
      requires Valid()
      modifies `list
      ensures Valid() && elems <= |list|
    {
      var newLength := 4;
      while newLength < elems
        invariant 0 < newLength
        decreases elems - newLength
      {
        newLength := newLength * 2;
      }
      list := Rehashed(list, newLength, m);
    }
  }

  method Rehashed(list: seq<seq<Node>>, newLength: nat, ghost m: map<(Bytes, nat), nat>) returns (newList: seq<seq<Node>>)
    requires TableOk(list, m) && 0 < newLength
    ensures |newList| == newLength && TableOk(newList, m)
  {
    newList := seq(newLength, _ => []);
    assert Moved(list, newList, 0, 0, m);
    hide Moved, TableOk;
    for i := 0 to |list|
      invariant |newList| == newLength && Moved(list, newList, i, 0, m)
    {
      for j := 0 to |list[i]|
        invariant |newList| == newLength && Moved(list, newList, i, j, m)
      {
        var h := list[i][j];
        var r := h.hash % newLength;
        MovedOne(list, newList, i, j, m);
        newList := newList[r := [h] + newList[r]];
      }
      MovedBucket(list, newList, i, m);
    }
    MovedAll(list, newList, m);
  }

  lemma ReplacedOk(list: seq<seq<Node>>, m: map<(Bytes, nat), nat>, b: nat, i: nat, n: Node)
    requires TableOk(list, m) && b < |list| && i < |list[b]| && list[b][i].Slot() == n.Slot() && b == n.hash % |list|
    ensures TableOk(list[b := list[b][i := n]], m[n.Slot() := n.id])
  {
    var l', m' := list[b := list[b][i := n]], m[n.Slot() := n.id];
    forall r | 0 <= r < |list| ensures BucketOk(l'[r], r, |list|, m') {
      assert BucketOk(list[r], r, |list|, m);
      forall x: Node | x in l'[r] ensures x.hash % |list| == r && x.Slot() in m' && m'[x.Slot()] == x.id {
        var j :| 0 <= j < |l'[r]| && l'[r][j] == x;
        assert list[r][j] in list[r];
        assert r == b && j != i ==> list[b][j].Slot() != n.Slot();
      }
    }
    forall s | s in m' ensures Node(s.0, s.1, m'[s]) in l'[s.1 % |list|] {
      if s == n.Slot() {
        assert l'[b][i] == n;
      } else {
        var x := Node(s.0, s.1, m[s]);
        assert x in list[s.1 % |list|];
        var j :| 0 <= j < |list[s.1 % |list|]| && list[s.1 % |list|][j] == x;
        assert l'[s.1 % |list|][j] == x;
      }
    }
  }

  lemma AppendedOk(list: seq<seq<Node>>, m: map<(Bytes, nat), nat>, b: nat, n: Node)
    requires TableOk(list, m) && b < |list| && b == n.hash % |list| && n.Slot() !in m
    ensures TableOk(list[b := list[b] + [n]], m[n.Slot() := n.id])
  {
    var l', m' := list[b := list[b] + [n]], m[n.Slot() := n.id];
    forall r | 0 <= r < |list| ensures BucketOk(l'[r], r, |list|, m') {
      assert BucketOk(list[r], r, |list|, m);
      assert forall j :: 0 <= j < |list[r]| ==> list[r][j] in list[r];
    }
    forall s | s in m' ensures Node(s.0, s.1, m'[s]) in l'[s.1 % |list|] {
      assert s != n.Slot() ==> Node(s.0, s.1, m[s]) in list[s.1 % |list|];
    }
  }

  lemma DistinctWithout(b: seq<Node>, i: nat)
    requires Distinct(b) && i < |b|
    ensures var rest := b[..i] + b[i + 1..];
            Distinct(rest) && (forall x :: x in rest ==> x in b && x.Slot() != b[i].Slot()) && forall x :: x in b && x != b[i] ==> x in rest
  {
    var rest := b[..i] + b[i + 1..];
    assert b == b[..i] + [b[i]] + b[i + 1..];
    assert forall j :: 0 <= j < |rest| ==> rest[j] == b[if j < i then j else j + 1];
  }

  lemma RemovedOk(list: seq<seq<Node>>, m: map<(Bytes, nat), nat>, b: nat, i: nat)
    requires TableOk(list, m) && b < |list| && i < |list[b]|
    ensures TableOk(list[b := list[b][..i] + list[b][i + 1..]], m - {list[b][i].Slot()})
  {
    var n, old_ := list[b][i], list[b];
    assert BucketOk(old_, b, |list|, m) && n in old_;
    DistinctWithout(old_, i);
    var rest := old_[..i] + old_[i + 1..];
    var l', m' := list[b := rest], m - {n.Slot()};
    hide Distinct;
    forall r | 0 <= r < |list| ensures BucketOk(l'[r], r, |list|, m') {
      assert BucketOk(list[r], r, |list|, m);
    }
    forall s | s in m' ensures Node(s.0, s.1, m'[s]) in l'[s.1 % |list|] {
      assert Node(s.0, s.1, m[s]) in list[s.1 % |list|];
    }
  }

  /** Entry h stands before position (i, j) of the old table. */
  ghost predicate Passed(list: seq<seq<Node>>, i: nat, j: nat, h: Node)
    requires i <= |list| && (i < |list| ==> j <= |list[i]|)
  {
    (exists r :: 0 <= r < i && h in list[r]) || (i < |list| && h in list[i][..j])
  }

  ghost predicate Moved(list: seq<seq<Node>>, newList: seq<seq<Node>>, i: nat, j: nat, m: map<(Bytes, nat), nat>) {
    && TableOk(list, m) && 0 < |newList| && i <= |list| && (i < |list| ==> j <= |list[i]|)
    && (forall r :: 0 <= r < |newList| ==> BucketOk(newList[r], r, |newList|, m))
    && (forall h: Node :: h in newList[h.hash % |newList|] <==> Passed(list, i, j, h))
  }

  lemma MovedOne(list: seq<seq<Node>>, newList: seq<seq<Node>>, i: nat, j: nat, m: map<(Bytes, nat), nat>)
    requires Moved(list, newList, i, j, m) && i < |list| && j < |list[i]|
    ensures var h := list[i][j]; var r := h.hash % |newList|; Moved(list, newList[r := [h] + newList[r]], i, j + 1, m)
  {
    var h := list[i][j];
    var r := h.hash % |newList|;
    var bucket := [h] + newList[r];
    var l' := newList[r := bucket];
    assert BucketOk(list[i], i, |list|, m) && h in list[i] && list[i][..j + 1] == list[i][..j] + [h];
    assert BucketOk(newList[r], r, |newList|, m);
    forall x | x in newList[r] ensures x.Slot() != h.Slot() {
      assert x.hash % |newList| == r && Passed(list, i, j, x);
      if x in list[i][..j] {
        var k :| 0 <= k < j && list[i][k] == x;
      } else {
        var k :| 0 <= k < i && x in list[k];
        assert BucketOk(list[k], k, |list|, m);
      }
    }
    forall k | 0 <= k < |l'| ensures BucketOk(l'[k], k, |l'|, m) {
      assert BucketOk(newList[k], k, |newList|, m);
      assert forall x :: x in bucket ==> x == h || x in newList[r];
    }
    forall x: Node ensures x in l'[x.hash % |l'|] <==> Passed(list, i, j + 1, x) {
      assert x in newList[x.hash % |newList|] <==> Passed(list, i, j, x);
    }
  }

  lemma MovedBucket(list: seq<seq<Node>>, newList: seq<seq<Node>>, i: nat, m: map<(Bytes, nat), nat>)
    requires i < |list| && Moved(list, newList, i, |list[i]|, m)
    ensures Moved(list, newList, i + 1, 0, m)
  {
    assert list[i][..|list[i]|] == list[i];
    forall h ensures Passed(list, i, |list[i]|, h) <==> Passed(list, i + 1, 0, h) {}
  }

  lemma MovedAll(list: seq<seq<Node>>, newList: seq<seq<Node>>, m: map<(Bytes, nat), nat>)
    requires Moved(list, newList, |list|, 0, m)
    ensures TableOk(newList, m)
  {
    forall s | s in m ensures Node(s.0, s.1, m[s]) in newList[s.1 % |newList|] {
      var h := Node(s.0, s.1, m[s]);
      assert h in list[s.1 % |list|];
      assert Passed(list, |list|, 0, h);
      assert h in newList[h.hash % |newList|];
    }
  }

  // ---------- LRUCache as a value ----------

  datatype Handle = Handle(key: Bytes, hash: nat, value: int, charge: nat, refs: nat, inCache: bool) {
    function Slot(): (Bytes, nat) { (key, hash) }
  }

  /**
   handles: the entries not yet freed; lru: those only the cache refers to, oldest first; inUse: cached ones that clients
   refer to; m: the table. held and freed record the references of clients and the calls of deleters.
   */
  datatype State = State(handles: map<nat, Handle>, lru: seq<nat>, inUse: set<nat>, nextId: nat, usage: int,
                         m: map<(Bytes, nat), nat>, held: multiset<nat>, freed: seq<nat>)

  predicate Cached(s: State, id: nat) { id in s.handles && s.handles[id].inCache }

  /** The charges of the cached entries numbered below n. */
  function Charges(handles: map<nat, Handle>, n: nat): int {
    if n == 0 then 0
    else Charges(handles, n - 1) + if n - 1 in handles && handles[n - 1].inCache then handles[n - 1].charge else 0
  }

  ghost predicate CountsOk(s: State) {
    && (forall id :: id in s.handles ==> id < s.nextId && 0 < s.handles[id].refs == s.held[id] + if s.handles[id].inCache then 1 else 0)
    && (forall id :: id in s.held ==> id in s.handles)
  }

  ghost predicate MapOk(s: State) {
    && (forall id :: Cached(s, id) ==> s.handles[id].Slot() in s.m && s.m[s.handles[id].Slot()] == id)
    && (forall k :: k in s.m ==> Cached(s, s.m[k]) && s.handles[s.m[k]].Slot() == k)
  }

  ghost predicate Once(ids: seq<nat>) { forall i, j :: 0 <= i < j < |ids| ==> ids[i] != ids[j] }

  ghost predicate ListsOk(s: State) {
    && Once(s.lru) && (forall id :: id in s.lru <==> Cached(s, id) && s.handles[id].refs == 1)
    && (forall id :: id in s.inUse <==> Cached(s, id) && s.handles[id].refs >= 2)
  }

  ghost predicate FreedOk(s: State) { Once(s.freed) && forall id: nat :: id in s.freed <==> id < s.nextId && id !in s.handles }

  ghost predicate Inv(s: State) {
    CountsOk(s) && MapOk(s) && ListsOk(s) && FreedOk(s) && s.usage == Charges(s.handles, s.nextId)
  }

  /** An entry is freed exactly when neither the cache nor a client refers to it any more. */
  lemma FreedWhenUnused(s: State, id: nat)
    requires Inv(s) && id < s.nextId
    ensures id in s.freed <==> !Cached(s, id) && id !in s.held
    ensures multiset(s.freed)[id] <= 1
  {
    OnceCount(s.freed, id);
  }

  lemma {:induction false} OnceCount(ids: seq<nat>, id: nat)
    requires Once(ids)
    ensures multiset(ids)[id] <= 1
  {
    if ids != [] {
      var n := |ids| - 1;
      assert ids == ids[..n] + [ids[n]];
      OnceCount(ids[..n], id);
      assert id == ids[n] ==> id !in ids[..n];
    }
  }

  // ---------- its operations ----------

  function Without(ids: seq<nat>, id: nat): seq<nat> {
    if ids == [] then [] else if ids[0] == id then ids[1..] else [ids[0]] + Without(ids[1..], id)
  }

  lemma {:induction false} WithoutOk(ids: seq<nat>, id: nat)
    requires Once(ids)
    ensures Once(Without(ids, id)) && forall x :: x in Without(ids, id) <==> x in ids && x != id
  {
    if ids != [] {
      WithoutOk(ids[1..], id);
      assert ids == [ids[0]] + ids[1..];
      assert ids[0] !in ids[1..];
    }
  }

  lemma WithoutFirst(ids: seq<nat>)
    requires ids != []
    ensures Without(ids, ids[0]) == ids[1..]
  {
  }

  /** Ref, for a client. */
  function Ref(s: State, id: nat): State
    requires id in s.handles
  {
    var h := s.handles[id];
    var moves := h.refs == 1 && h.inCache;
    s.(handles := s.handles[id := h.(refs := h.refs + 1)], lru := if moves then Without(s.lru, id) else s.lru,
       inUse := if moves then s.inUse + {id} else s.inUse, held := s.held + multiset{id})
  }

  /** Unref: the last reference frees the entry; an entry only the cache refers to becomes the newest of the LRU list. */
  function Unref(s: State, id: nat): State
    requires id in s.handles && 0 < s.handles[id].refs
  {
    var h := s.handles[id];
    if h.refs == 1 then s.(handles := s.handles - {id}, freed := s.freed + [id])
    else
      var moves := h.inCache && h.refs == 2;
      s.(handles := s.handles[id := h.(refs := h.refs - 1)], inUse := if moves then s.inUse - {id} else s.inUse,
         lru := if moves then s.lru + [id] else s.lru)
  }

  function Released(s: State, id: nat): State
    requires id in s.handles && 0 < s.handles[id].refs
  {
    Unref(s.(held := s.held - multiset{id}), id)
  }

  /** FinishErase, except for its Unref: the entry leaves the lists and its charge the usage. */
  function Dropped(s: State, id: nat): State
    requires id in s.handles
  {
    var h := s.handles[id];
    s.(m := s.m - {h.Slot()}, lru := Without(s.lru, id), inUse := s.inUse - {id},
       handles := s.handles[id := h.(inCache := false)], usage := s.usage - h.charge)
  }

  function Erased(s: State, id: nat): State
    requires id in s.handles && 0 < s.handles[id].refs
  {
    Unref(Dropped(s, id), id)
  }

  function Added(s: State, h: Handle, cached: bool): State {
    var id := s.nextId;
    var s1 := s.(handles := s.handles[id := h.(refs := if cached then 2 else 1, inCache := cached)], nextId := id + 1, held := s.held + multiset{id});
    if cached then s1.(inUse := s.inUse + {id}, usage := s.usage + h.charge, m := s.m[h.Slot() := id]) else s1
  }

  lemma {:induction false} ChargesSame(a: map<nat, Handle>, b: map<nat, Handle>, n: nat)
    requires forall id :: 0 <= id < n ==> ((id in a && a[id].inCache) <==> (id in b && b[id].inCache))
    requires forall id :: 0 <= id < n && id in a && id in b && a[id].inCache ==> a[id].charge == b[id].charge
    ensures Charges(a, n) == Charges(b, n)
  {
    if n > 0 { ChargesSame(a, b, n - 1); }
  }

  lemma {:induction false} ChargesLess(a: map<nat, Handle>, b: map<nat, Handle>, n: nat, id: nat)
    requires id < n && id in a && a[id].inCache && !(id in b && b[id].inCache)
    requires forall x :: x != id ==> (x in a <==> x in b) && (x in a ==> a[x] == b[x])
    ensures Charges(b, n) == Charges(a, n) - a[id].charge
  {
    if id < n - 1 {
      ChargesLess(a, b, n - 1, id);
    } else {
      ChargesSame(a, b, n - 1);
    }
  }

  lemma RefCounts(s: State, id: nat)
    requires CountsOk(s) && id in s.handles
    ensures CountsOk(Ref(s, id))
  {
  }

  lemma RefMap(s: State, id: nat)
    requires MapOk(s) && id in s.handles
    ensures MapOk(Ref(s, id))
  {
    assert forall x :: Cached(Ref(s, id), x) <==> Cached(s, x);
  }

  lemma RefLists(s: State, id: nat)
    requires ListsOk(s) && id in s.handles && 0 < s.handles[id].refs
    ensures ListsOk(Ref(s, id))
  {
    WithoutOk(s.lru, id);
    hide Once;
  }

  lemma RefInv(s: State, id: nat)
    requires Inv(s) && id in s.handles
    ensures Inv(Ref(s, id))
  {
    assert 0 < s.handles[id].refs;
    hide CountsOk, MapOk, ListsOk, Charges, Once;
    RefCounts(s, id);
    RefMap(s, id);
    RefLists(s, id);
    ChargesSame(s.handles, Ref(s, id).handles, s.nextId);
  }

  lemma ReleaseCounts(s: State, id: nat)
    requires CountsOk(s) && id in s.held
    ensures id in s.handles && 0 < s.handles[id].refs && CountsOk(Released(s, id)) && (s.handles[id].inCache ==> 2 <= s.handles[id].refs)
    ensures forall x :: Cached(Released(s, id), x) <==> Cached(s, x)
  {
    var held := s.held - multiset{id};
    assert forall x :: held[x] == s.held[x] - if x == id then 1 else 0;
  }

  lemma ReleaseMap(s: State, id: nat)
    requires MapOk(s) && id in s.handles && 0 < s.handles[id].refs && forall x :: Cached(Released(s, id), x) <==> Cached(s, x)
    ensures MapOk(Released(s, id))
  {
  }

  lemma ReleaseLists(s: State, id: nat)
    requires ListsOk(s) && id in s.handles && 0 < s.handles[id].refs && (s.handles[id].inCache ==> 2 <= s.handles[id].refs)
    ensures ListsOk(Released(s, id))
  {
    OnceAppend(s.lru, id);
    hide Once;
  }

  lemma OnceAppend(ids: seq<nat>, id: nat)
    requires Once(ids)
    ensures id !in ids ==> Once(ids + [id])
  {
  }

  lemma UnrefFreed(s: State, id: nat)
    requires FreedOk(s) && id in s.handles && 0 < s.handles[id].refs && id < s.nextId
    ensures FreedOk(Unref(s, id))
  {
    OnceAppend(s.freed, id);
    hide Once;
  }

  lemma ReleaseInv(s: State, id: nat)
    requires Inv(s) && id in s.held
    ensures id in s.handles && 0 < s.handles[id].refs && Inv(Released(s, id))
  {
    hide CountsOk, MapOk, ListsOk, Charges, FreedOk, Released;
    ReleaseCounts(s, id);
    ReleaseMap(s, id);
    ReleaseLists(s, id);
    ReleaseFreed(s, id);
    ChargesSame(s.handles, Released(s, id).handles, s.nextId);
  }

  lemma ReleaseFreed(s: State, id: nat)
    requires CountsOk(s) && FreedOk(s) && id in s.handles && 0 < s.handles[id].refs && (s.handles[id].inCache ==> 2 <= s.handles[id].refs)
    ensures FreedOk(Released(s, id))
    ensures forall x :: (x in s.handles && s.handles[x].inCache) <==> (x in Released(s, id).handles && Released(s, id).handles[x].inCache)
    ensures var s' := Released(s, id); s'.usage == s.usage && s'.nextId == s.nextId
    ensures forall x :: x in s.handles && x in Released(s, id).handles ==> Released(s, id).handles[x].charge == s.handles[x].charge
  {
    UnrefFreed(s.(held := s.held - multiset{id}), id);
    hide FreedOk;
  }

  lemma EraseCounts(s: State, id: nat)
    requires CountsOk(s) && Cached(s, id)
    ensures 0 < s.handles[id].refs && id < s.nextId && CountsOk(Erased(s, id))
  {
  }

  lemma ErasedCached(s: State, id: nat)
    requires Cached(s, id) && 0 < s.handles[id].refs
    ensures forall x :: Cached(Erased(s, id), x) <==> Cached(s, x) && x != id
    ensures forall x :: x != id ==> (x in Erased(s, id).handles <==> x in s.handles)
    ensures forall x :: x != id && x in s.handles ==> Erased(s, id).handles[x] == s.handles[x]
    ensures Erased(s, id).m == s.m - {s.handles[id].Slot()} && Erased(s, id).usage == s.usage - s.handles[id].charge
    ensures Erased(s, id).lru == Without(s.lru, id) && Erased(s, id).inUse == s.inUse - {id}
    ensures Erased(s, id).nextId == s.nextId && Erased(s, id).held == s.held
  {
  }

  lemma EraseMap(s: State, id: nat)
    requires MapOk(s) && Cached(s, id) && 0 < s.handles[id].refs
    ensures MapOk(Erased(s, id))
  {
    ErasedCached(s, id);
    hide Erased;
  }

  lemma EraseLists(s: State, id: nat)
    requires ListsOk(s) && Cached(s, id) && 0 < s.handles[id].refs
    ensures ListsOk(Erased(s, id))
  {
    ErasedCached(s, id);
    WithoutOk(s.lru, id);
    hide Erased, Once, Without;
  }

  lemma EraseInv(s: State, id: nat)
    requires Inv(s) && Cached(s, id)
    ensures 0 < s.handles[id].refs && Inv(Erased(s, id))
  {
    hide Charges, MapOk, ListsOk, CountsOk;
    EraseCounts(s, id);
    EraseMap(s, id);
    EraseLists(s, id);
    ErasedCached(s, id);
    UnrefFreed(Dropped(s, id), id);
    hide FreedOk, Erased;
    ChargesLess(s.handles, Erased(s, id).handles, s.nextId, id);
  }

  lemma AddCounts(s: State, h: Handle, cached: bool)
    requires CountsOk(s)
    ensures s.nextId !in s.handles && CountsOk(Added(s, h, cached))
    ensures forall x :: Cached(Added(s, h, cached), x) <==> Cached(s, x) || (cached && x == s.nextId)
  {
    assert s.nextId !in s.handles && s.nextId !in s.held;
  }

  lemma AddMap(s: State, h: Handle, cached: bool)
    requires MapOk(s) && s.nextId !in s.handles && (cached ==> h.Slot() !in s.m)
    requires forall x :: Cached(Added(s, h, cached), x) <==> Cached(s, x) || (cached && x == s.nextId)
    ensures MapOk(Added(s, h, cached))
  {
  }

  lemma AddLists(s: State, h: Handle, cached: bool)
    requires ListsOk(s) && FreedOk(s) && s.nextId !in s.handles
    ensures ListsOk(Added(s, h, cached)) && FreedOk(Added(s, h, cached))
  {
    hide Once;
  }

  lemma AddCharges(s: State, h: Handle, cached: bool)
    requires s.nextId !in s.handles
    ensures Charges(Added(s, h, cached).handles, s.nextId + 1) == Charges(s.handles, s.nextId) + if cached then h.charge else 0
  {
    var s' := Added(s, h, cached);
    ChargesSame(s.handles, s'.handles, s.nextId);
  }

  lemma AddInv(s: State, h: Handle, cached: bool)
    requires Inv(s) && (cached ==> h.Slot() !in s.m)
    ensures Inv(Added(s, h, cached))
  {
    hide CountsOk, MapOk, ListsOk, FreedOk, Charges;
    AddCounts(s, h, cached);
    AddMap(s, h, cached);
    AddLists(s, h, cached);
    AddCharges(s, h, cached);
  }

  /** The loop of Insert: the oldest entries that nobody uses go until the rest fits. */
  function Evicted(s: State, capacity: int): State
    decreases |s.lru|
  {
    if s.usage > capacity && s.lru != [] && Alive(s, s.lru[0]) then Evicted(Erased(s, s.lru[0]), capacity) else s
  }

  predicate Alive(s: State, id: nat) { id in s.handles && 0 < s.handles[id].refs }

  lemma OldestIsErased(s: State)
    requires Inv(s) && s.lru != []
    ensures Cached(s, s.lru[0]) && Alive(s, s.lru[0]) && Inv(Erased(s, s.lru[0]))
    ensures Erased(s, s.lru[0]).lru == s.lru[1..] && Erased(s, s.lru[0]).held == s.held
  {
    var id := s.lru[0];
    assert id in s.lru;
    EraseInv(s, id);
    ErasedCached(s, id);
    hide Inv, Erased;
    WithoutFirst(s.lru);
  }

  /** The cache fits its capacity again, unless clients hold everything that is left; what went was the oldest part of the list. */
  lemma {:induction false} EvictedFits(s: State, capacity: int)
    requires Inv(s)
    ensures var s' := Evicted(s, capacity);
            Inv(s') && (s'.usage <= capacity || s'.lru == []) && s'.held == s.held
            && |s'.lru| <= |s.lru| && s'.lru == s.lru[|s.lru| - |s'.lru|..]
    decreases |s.lru|
  {
    hide Inv, Erased;
    if s.usage > capacity && s.lru != [] {
      OldestIsErased(s);
      EvictedFits(Erased(s, s.lru[0]), capacity);
    }
  }

  /** Insert up to its loop, and with it. */
  function Cleared(s: State, h: Handle, capacity: nat): State {
    if 0 < capacity && h.Slot() in s.m && Alive(s, s.m[h.Slot()]) then Erased(s, s.m[h.Slot()]) else s
  }

  function Inserted(s: State, h: Handle, capacity: nat): State {
    Evicted(Added(Cleared(s, h, capacity), h, 0 < capacity), capacity)
  }

  lemma InsertedInv(s: State, h: Handle, capacity: nat)
    requires Inv(s)
    ensures h.Slot() in s.m ==> Alive(s, s.m[h.Slot()])
    ensures Inv(Added(Cleared(s, h, capacity), h, 0 < capacity))
  {
    if h.Slot() in s.m {
      EraseInv(s, s.m[h.Slot()]);
    }
    AddInv(Cleared(s, h, capacity), h, 0 < capacity);
  }

  // ---------- the cache ----------

  class LRUCache {
    const capacity: nat
    const table: HandleTable
    var handles: map<nat, Handle>  // the allocated LRUHandles
    var lru: seq<nat>
    var inUse: set<nat>
    var nextId: nat
    var usage: int
    ghost var held: multiset<nat>
    ghost var freed: seq<nat>

    ghost function St(): State
      reads this, table
    {
      State(handles, lru, inUse, nextId, usage, table.m, held, freed)
    }

    ghost predicate Valid()
      reads this, table
    {
      table.Valid() && Inv(St())
    }

    constructor (capacity: nat)
      ensures Valid() && Initial(St()) && fresh(table) && this.capacity == capacity
    {
      this.capacity := capacity;
      table := new HandleTable();
      handles, lru, inUse, nextId, usage, held, freed := map[], [], {}, 0, 0, multiset{}, [];
      new;
      InitialInv(St());
      hide Inv, HandleTable.Valid;
    }

    method UnrefEntry(id: nat)
      requires id in handles && 0 < handles[id].refs
      modifies this
      ensures St() == Unref(old(St()), id)
    {
      var h := handles[id];
      if h.refs == 1 {
        handles := handles - {id};
        freed := freed + [id];
      } else {
        handles := handles[id := h.(refs := h.refs - 1)];
        if h.inCache && h.refs == 2 {
          inUse := inUse - {id};
          lru := lru + [id];
        }
      }
    }

    /** The entry has already left the table. */
    method FinishErase(id: nat)
      requires id in handles && 0 < handles[id].refs
      modifies this
      ensures St() == Unref(Dropped(old(St()), id).(m := table.m), id)
    {
      var h := handles[id];
      lru := Without(lru, id);
      inUse := inUse - {id};
      handles := handles[id := h.(inCache := false)];
      usage := usage - h.charge;
      UnrefEntry(id);
    }

    method Lookup(key: Bytes, hash: nat) returns (r: Option<nat>)
      requires Valid()
      modifies this
      ensures Valid() && r == (if (key, hash) in old(table.m) then Some(old(table.m)[(key, hash)]) else None)
      ensures r.Some? ==> r.value in old(handles) && St() == Ref(old(St()), r.value)
      ensures r.None? ==> St() == old(St())
    {
      hide HandleTable.Valid, Inv;
      r := table.Lookup(key, hash);
      if r.Some? {
        var id := r.value;
        InTable(St(), (key, hash));
        RefInv(St(), id);
        var h := handles[id];
        if h.refs == 1 && h.inCache {
          lru := Without(lru, id);
          inUse := inUse + {id};
        }
        handles := handles[id := h.(refs := h.refs + 1)];
        held := held + multiset{id};
      }
    }

    method Release(id: nat)
      requires Valid() && id in held
      modifies this
      ensures Valid() && id in old(handles) && 0 < old(handles)[id].refs && St() == Released(old(St()), id)
    {
      hide HandleTable.Valid, Inv;
      ReleaseInv(St(), id);
      held := held - multiset{id};
      UnrefEntry(id);
    }

    method Erase(key: Bytes, hash: nat)
      requires Valid()
      modifies this, table
      ensures Valid()
      ensures (key, hash) in old(table.m) ==> var id := old(table.m)[(key, hash)];
                id in old(handles) && 0 < old(handles)[id].refs && St() == Erased(old(St()), id)
      ensures (key, hash) !in old(table.m) ==> St() == old(St())
    {
      hide HandleTable.Valid, Inv;
      var s := St();
      if (key, hash) in table.m {
        InTable(s, (key, hash));
        EraseInv(s, table.m[(key, hash)]);
      }
      var r := table.Remove(key, hash);
      if r.Some? {
        FinishErase(r.value);
        assert St() == Erased(s, r.value);
      } else {
        assert table.m == s.m;
      }
    }

    method EvictOldest()
      requires Valid() && lru != []
      modifies this, table
      ensures Valid() && lru == old(lru)[1..]
      ensures old(lru[0]) in old(handles) && 0 < old(handles)[old(lru[0])].refs && St() == Erased(old(St()), old(lru[0]))
    {
      hide HandleTable.Valid, Inv, Erased;
      OldestIsErased(St());
      OldestInTable(St());
      var h := handles[lru[0]];
      Erase(h.key, h.hash);
    }

    method Evict(limit: int)
      requires Valid()
      modifies this, table
      ensures Valid() && St() == Evicted(old(St()), limit)
    {
      hide HandleTable.Valid, Inv, Erased;
      while usage > limit && lru != []
        invariant Valid() && Evicted(St(), limit) == Evicted(old(St()), limit)
        decreases |lru|
      {
        EvictOldest();
      }
    }

    method Prune()
      requires Valid()
      modifies this, table
      ensures Valid() && St() == Evicted(old(St()), -1)
    {
      Evict(-1);
    }

    method Insert(key: Bytes, hash: nat, value: int, charge: nat) returns (id: nat)
      requires Valid()
      modifies this, table
      ensures Valid() && id == old(nextId)
      ensures St() == Inserted(old(St()), Handle(key, hash, value, charge, 0, false), capacity)
      ensures usage <= capacity || lru == []
    {
      hide HandleTable.Valid, Inv, Erased, Evicted;
      ghost var s, h := St(), Handle(key, hash, value, charge, 0, false);
      InsertedInv(s, h, capacity);
      id := nextId;
      AddEntry(key, hash, value, charge);
      EvictedFits(St(), capacity);
      Evict(capacity);
    }

    /** Insert up to its loop: an entry with the same key is dropped after the new one has taken its place in the table. */
    method AddEntry(key: Bytes, hash: nat, value: int, charge: nat)
      requires Valid()
      modifies this, table
      ensures Valid()
      ensures var s, h := old(St()), Handle(key, hash, value, charge, 0, false);
              St() == Added(Cleared(s, h, capacity), h, 0 < capacity)
    {
      hide HandleTable.Valid, Inv, Unref, Dropped, Erased, Cached, Added;
      ghost var s, h0 := St(), Handle(key, hash, value, charge, 0, false);
      InsertedInv(s, h0, capacity);
      var old_ := Allocate(key, hash, value, charge);
      if old_.Some? {
        ReplacedIsErased(s, h0, St());
        FinishErase(old_.value);
      }
    }

    /** The new entry, in the table and the in-use list unless nothing is to be cached. */
    method Allocate(key: Bytes, hash: nat, value: int, charge: nat) returns (old_: Option<nat>)
      requires table.Valid()
      modifies this, table
      ensures table.Valid() && St() == Added(old(St()), Handle(key, hash, value, charge, 0, false), 0 < capacity)
      ensures old_ == if 0 < capacity && (key, hash) in old(table.m) then Some(old(table.m)[(key, hash)]) else None
    {
      hide HandleTable.Valid;
      var id := nextId;
      nextId := nextId + 1;
      handles := handles[id := Handle(key, hash, value, charge, if capacity > 0 then 2 else 1, capacity > 0)];
      held := held + multiset{id};
      old_ := None;
      if capacity > 0 {
        inUse := inUse + {id};
        usage := usage + charge;
        old_ := table.Insert(Node(key, hash, id));
      }
    }
  }

  lemma InitialInv(s: State)
    requires Initial(s)
    ensures Inv(s)
  {
    assert CountsOk(s);
    assert MapOk(s);
    assert ListsOk(s);
    assert FreedOk(s);
  }

  /** Dropping the replaced entry after the new one is in place is erasing it first. */
  lemma ReplacedIsErased(s: State, h: Handle, mid: State)
    requires Inv(s) && h.Slot() in s.m && mid == Added(s, h, true)
    ensures var id := s.m[h.Slot()];
            id in s.handles && id in mid.handles && 0 < mid.handles[id].refs == s.handles[id].refs
            && Unref(Dropped(mid, id).(m := mid.m), id) == Added(Erased(s, id), h, true)
  {
    InTable(s, h.Slot());
    var id := s.m[h.Slot()];
    NewIdUnused(s);
    EraseInv(s, id);
    hide Inv, Without, Cached;
    ReplacedParts(s, h, id);
  }

  lemma ReplacedParts(s: State, h: Handle, id: nat)
    requires id in s.handles && 0 < s.handles[id].refs && s.nextId !in s.handles && id != s.nextId && s.handles[id].Slot() == h.Slot()
    ensures var mid := Added(s, h, true);
            id in mid.handles && 0 < mid.handles[id].refs == s.handles[id].refs
            && Unref(Dropped(mid, id).(m := mid.m), id) == Added(Erased(s, id), h, true)
  {
    hide Without;
    var mid, old_, n := Added(s, h, true), s.handles[id], h.(refs := 2, inCache := true);
    var gone := old_.(inCache := false);
    assert s.inUse + {s.nextId} - {id} == s.inUse - {id} + {s.nextId};
    assert (s.m - {h.Slot()})[h.Slot() := s.nextId] == s.m[h.Slot() := s.nextId];
    MapsCommute(s.handles, s.nextId, n, id, gone);
    MapsCommute(s.handles, s.nextId, n, id, gone.(refs := old_.refs - if old_.refs == 1 then 0 else 1));
    if old_.refs != 1 { Overwritten(mid.handles, s.handles, id, gone, gone.(refs := old_.refs - 1)); }
    Overwritten(mid.handles, s.handles, id, gone, gone);
  }

  lemma MapsCommute(m: map<nat, Handle>, k: nat, v: Handle, id: nat, w: Handle)
    requires k != id
    ensures m[k := v][id := w] == m[id := w][k := v]
    ensures m[k := v][id := w] - {id} == (m[id := w] - {id})[k := v]
  {
  }

  lemma Overwritten(a: map<nat, Handle>, b: map<nat, Handle>, id: nat, v: Handle, w: Handle)
    ensures a[id := v][id := w] == a[id := w] && b[id := v][id := w] == b[id := w]
  {
  }

  lemma InTable(s: State, k: (Bytes, nat))
    requires Inv(s) && k in s.m
    ensures Cached(s, s.m[k]) && s.handles[s.m[k]].Slot() == k
  {
  }

  lemma OldestInTable(s: State)
    requires Inv(s) && s.lru != []
    ensures s.lru[0] in s.handles && s.handles[s.lru[0]].Slot() in s.m && s.m[s.handles[s.lru[0]].Slot()] == s.lru[0]
  {
    assert s.lru[0] in s.lru;
  }

  lemma NewIdUnused(s: State)
    requires Inv(s)
    ensures s.nextId !in s.handles && s.nextId !in s.lru && s.nextId !in s.inUse
  {
  }

  // ---------- runs ----------

  ghost predicate Next(s: State, s': State, capacity: nat) {
    || (exists h :: s' == Inserted(s, h, capacity))
    || (exists k :: k in s.m && s.m[k] in s.handles && s' == Ref(s, s.m[k]))
    || (exists id :: id in s.held && Alive(s, id) && s' == Released(s, id))
    || (exists k :: k in s.m && Alive(s, s.m[k]) && s' == Erased(s, s.m[k]))
    || s' == Evicted(s, -1)
  }

  ghost predicate Initial(s: State) { s == State(map[], [], {}, 0, 0, map[], multiset{}, []) }

  lemma NextInv(s: State, s': State, capacity: nat)
    requires Inv(s) && Next(s, s', capacity)
    ensures Inv(s')
  {
    hide Inv, Erased, Evicted, Released, Ref, Added, Cleared;
    if h :| s' == Inserted(s, h, capacity) {
      InsertedInv(s, h, capacity);
      EvictedFits(Added(Cleared(s, h, capacity), h, 0 < capacity), capacity);
    } else if k :| k in s.m && s.m[k] in s.handles && s' == Ref(s, s.m[k]) {
      RefInv(s, s.m[k]);
    } else if id :| id in s.held && Alive(s, id) && s' == Released(s, id) {
      ReleaseInv(s, id);
    } else if k :| k in s.m && Alive(s, s.m[k]) && s' == Erased(s, s.m[k]) {
      InTable(s, k);
      EraseInv(s, s.m[k]);
    } else {
      EvictedFits(s, -1);
    }
  }

  ghost predicate Run(states: seq<State>, capacity: nat) {
    && 0 < |states| && Initial(states[0])
    && forall i :: 0 <= i < |states| - 1 ==> Next(states[i], states[i + 1], capacity)
  }

  lemma {:induction false} RunInv(states: seq<State>, capacity: nat, n: nat)
    requires Run(states, capacity) && n < |states|
    ensures Inv(states[n])
  {
    hide Inv, Next;
    if n == 0 {
      InitialInv(states[0]);
    } else {
      RunInv(states, capacity, n - 1);
      assert Next(states[n - 1], states[n - 1 + 1], capacity);
      NextInv(states[n - 1], states[n], capacity);
    }
  }
}
