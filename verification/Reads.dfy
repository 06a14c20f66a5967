/** Version::Get and DBImpl::Get: stop at the first hit, from the newest source down. */
module Reads {
  import opened Keys
  import opened Tables
  import opened Overlaps
  import opened Picking
  import opened DropRule
  import opened LsmStates
  import opened LsmProofs

  /** A lookup: seek to (u, s) and take the entry there if it belongs to u. */
  function SeekGet(es: seq<Entry>, u: UserKey, s: SeqNum): Option<Entry> {
    var i := SeekIndex(es, IKey(u, s, Value));
    if i < |es| && es[i].ukey == u then Some(es[i]) else None
  }

  /** On a sorted list, seeking to (u, s) finds what the linear scan for the newest visible entry finds. */
  lemma {:induction false} SeekGetIsScan(es: seq<Entry>, u: UserKey, s: SeqNum)
    requires Sorted(es)
    ensures SeekGet(es, u, s) == Newest(es, u, s)
  {
    if es != [] {
      var k := IKey(u, s, Value);
      if Before(es[0].Key(), k) {
        SeekGetIsScan(es[1..], u, s);
      } else if es[0].ukey != u {
        NewestIsLargest(es, u, s);
        forall e | e in es ensures e.ukey != u {
          var i :| 0 <= i < |es| && es[i] == e;
          assert i == 0 || Before(es[0].Key(), es[i].Key());
        }
      }
    }
  }

  ghost predicate NewestInVersion(v: Levels, u: UserKey, s: nat, r: Option<Entry>) {
    match r
    case Some(e) => InVersion(v, e) && e.ukey == u && e.sn <= s
                    && (forall x :: InVersion(v, x) && x.ukey == u && x.sn <= s ==> x.sn <= e.sn)
    case None => forall x :: InVersion(v, x) && x.ukey == u ==> s < x.sn
  }

  /** Nothing of u in f is visible at s. */
  ghost predicate Misses(f: File, u: UserKey, s: nat) {
    forall x :: x in f.entries && x.ukey == u ==> s < x.sn
  }

  function InsertAt(r: seq<File>, p: nat, f: File): (r': seq<File>)
    requires p <= |r|
    ensures forall g :: g in r' <==> g in r || g == f
    ensures |r'| == |r| + 1
    ensures forall i :: 0 <= i < |r'| ==> r'[i] == if i < p then r[i] else if i == p then f else r[i - 1]
  {
    assert r == r[..p] + r[p..];
    r[..p] + [f] + r[p..]
  }

  /** std::sort with NewestFirst. */
  method SortNewestFirst(fs: seq<File>) returns (r: seq<File>)
    ensures forall f :: f in r <==> f in fs
    ensures forall i, j :: 0 <= i < j < |r| ==> r[i].number >= r[j].number
  {
    r := [];
    for n := 0 to |fs|
      invariant forall f :: f in r <==> f in fs[..n]
      invariant forall i, j :: 0 <= i < j < |r| ==> r[i].number >= r[j].number
    {
      var p := 0;
      while p < |r| && r[p].number >= fs[n].number
        invariant 0 <= p <= |r|
        invariant forall i :: 0 <= i < p ==> r[i].number >= fs[n].number
      {
        p := p + 1;
      }
      r := InsertAt(r, p, fs[n]);
    }
    assert fs[..|fs|] == fs;
  }

  method FilesCovering(files: seq<File>, u: UserKey) returns (tmp: seq<File>)
    ensures forall f :: f in tmp <==> f in files && f.Lo() <= u <= f.Hi()
  {
    tmp := [];
    for i := 0 to |files|
      invariant forall f :: f in tmp <==> f in files[..i] && f.Lo() <= u <= f.Hi()
    {
      if files[i].Lo() <= u <= files[i].Hi() {
        tmp := tmp + [files[i]];
      }
    }
    assert files[..|files|] == files;
  }

  lemma NotCovering(f: File, u: UserKey, s: nat)
    requires WfFile(f) && !(f.Lo() <= u <= f.Hi())
    ensures Misses(f, u, s)
  {
    forall x | x in f.entries ensures x.ukey != u { FileCovers(f, x); }
  }

  ghost predicate ByAge(files: seq<File>) {
    forall f, g :: f in files && g in files && f != g ==> f.number != g.number && (f.number > g.number ==> Newer(f, g))
  }

  /** e is what the linear scan of f finds, and every newer file of the level shows nothing of u. */
  lemma NewestFileWins(files: seq<File>, f: File, u: UserKey, s: nat, e: Entry)
    requires ByAge(files) && f in files && e in f.entries && e.ukey == u
    requires forall x :: x in f.entries && x.ukey == u && x.sn <= s ==> x.sn <= e.sn
    requires forall g :: g in files && g.number > f.number ==> Misses(g, u, s)
    ensures forall g, x :: g in files && x in g.entries && x.ukey == u && x.sn <= s ==> x.sn <= e.sn
  {
    forall g, x | g in files && x in g.entries && x.ukey == u && x.sn <= s ensures x.sn <= e.sn {
      assert g != f && g.number < f.number ==> Newer(f, g);
    }
  }

  // ---------- the lookup as a function ----------

  /** Level 0: the hit in the file with the greatest number. */
  function Level0Hit(files: seq<File>, u: UserKey, s: nat): Option<(nat, Entry)> {
    if files == [] then None
    else
      var f, rest := files[|files| - 1], Level0Hit(files[..|files| - 1], u, s);
      match Newest(f.entries, u, s)
      case None => rest
      case Some(e) => if rest.None? || rest.value.0 < f.number then Some((f.number, e)) else rest
  }

  /** A deeper level: the hit in the first file that has one. */
  function LevelHit(files: seq<File>, u: UserKey, s: nat): Option<Entry> {
    if files == [] then None
    else if Newest(files[0].entries, u, s).Some? then Newest(files[0].entries, u, s)
    else LevelHit(files[1..], u, s)
  }

  function HitAt(v: Levels, u: UserKey, s: nat, level: nat): Option<Entry>
    requires level < |v|
  {
    if level == 0 then (match Level0Hit(v[0], u, s) case None => None case Some(h) => Some(h.1)) else LevelHit(v[level], u, s)
  }

  /** The first hit from this level down. */
  function VersionHit(v: Levels, u: UserKey, s: nat, level: nat): Option<Entry>
    decreases |v| - level
  {
    if level >= |v| then None
    else if HitAt(v, u, s, level).Some? then HitAt(v, u, s, level)
    else VersionHit(v, u, s, level + 1)
  }

  /** The first hit in the memtable, the immutable memtable and the version. */
  function Hit(d: Db, u: UserKey): Option<Entry> {
    var s := d.lastSequence;
    if Newest(d.mem, u, s).Some? then Newest(d.mem, u, s)
    else if d.imm.Some? && Newest(d.imm.value, u, s).Some? then Newest(d.imm.value, u, s)
    else VersionHit(d.levels, u, s, 0)
  }

  /** What a read of u returns. */
  function GetOf(d: Db, u: UserKey): Option<Bytes> { Seen(Hit(d, u)) }

  lemma {:induction false} Level0HitFile(files: seq<File>, u: UserKey, s: nat)
    ensures match Level0Hit(files, u, s)
            case None => forall f :: f in files ==> Newest(f.entries, u, s).None?
            case Some(h) => (exists f :: f in files && f.number == h.0 && Newest(f.entries, u, s) == Some(h.1))
                            && forall f :: f in files && Newest(f.entries, u, s).Some? ==> f.number <= h.0
  {
    if files != [] {
      var rest, last := files[..|files| - 1], files[|files| - 1];
      Level0HitFile(rest, u, s);
      assert files == rest + [last];
      assert Level0Hit(rest, u, s).Some? ==> exists f :: f in rest && f.number == Level0Hit(rest, u, s).value.0
                                                         && Newest(f.entries, u, s) == Some(Level0Hit(rest, u, s).value.1);
    }
  }

  /** What a level knows of its hit. */
  ghost predicate NewestInFiles(files: seq<File>, u: UserKey, s: nat, r: Option<Entry>) {
    match r
    case None => forall f :: f in files ==> Misses(f, u, s)
    case Some(e) => (exists f :: f in files && e in f.entries) && e.ukey == u && e.sn <= s
                    && forall f, x :: f in files && x in f.entries && x.ukey == u && x.sn <= s ==> x.sn <= e.sn
  }

  lemma MissIsNone(f: File, u: UserKey, s: nat)
    requires WfFile(f)
    ensures Misses(f, u, s) <==> Newest(f.entries, u, s).None?
  {
    NewestIsLargest(f.entries, u, s);
  }

  lemma Level0HitIsNewest(files: seq<File>, u: UserKey, s: nat)
    requires (forall f :: f in files ==> WfFile(f)) && ByAge(files)
    ensures NewestInFiles(files, u, s, match Level0Hit(files, u, s) case None => None case Some(h) => Some(h.1))
  {
    Level0HitFile(files, u, s);
    forall f | f in files ensures Misses(f, u, s) <==> Newest(f.entries, u, s).None? { MissIsNone(f, u, s); }
    hide Misses;
    if Level0Hit(files, u, s).Some? {
      var n, e := Level0Hit(files, u, s).value.0, Level0Hit(files, u, s).value.1;
      var f :| f in files && f.number == n && Newest(f.entries, u, s) == Some(e);
      NewestIsLargest(f.entries, u, s);
      NewestFileWins(files, f, u, s, e);
    }
  }

  lemma {:induction false} LevelHitIsNewest(files: seq<File>, u: UserKey, s: nat)
    requires (forall f :: f in files ==> WfFile(f)) && LaidOut(files)
    ensures NewestInFiles(files, u, s, LevelHit(files, u, s))
  {
    if files != [] {
      var f, rest := files[0], files[1..];
      assert files == [f] + rest;
      assert f in files;
      LevelHitIsNewest(rest, u, s);
      NewestIsLargest(f.entries, u, s);
      if Newest(f.entries, u, s).Some? {
        FileCovers(f, Newest(f.entries, u, s).value);
        forall g, x | g in rest && x in g.entries ensures x.ukey != u {
          assert g in files;
          FileCovers(g, x);
        }
      }
    }
  }

  lemma HitAtIsNewest(v: Levels, u: UserKey, s: nat, level: nat)
    requires VersionInv(v) && level < |v|
    ensures NewestInFiles(v[level], u, s, HitAt(v, u, s, level))
  {
    if level == 0 {
      Level0HitIsNewest(v[0], u, s);
    } else {
      LevelIsLaidOut(v, level);
      LevelHitIsNewest(v[level], u, s);
    }
  }

  /** The first hit from the top down is the newest visible entry of the version. */
  lemma {:induction false} VersionHitIsNewest(v: Levels, u: UserKey, s: nat, level: nat)
    requires VersionInv(v) && level <= |v|
    requires forall k, f :: 0 <= k < level && f in v[k] ==> Misses(f, u, s)
    ensures NewestInVersion(v, u, s, VersionHit(v, u, s, level))
    decreases |v| - level
  {
    if level < |v| {
      HitAtIsNewest(v, u, s, level);
      if HitAt(v, u, s, level).Some? {
        FirstHitIsNewest(v, u, s, level, HitAt(v, u, s, level).value);
      } else {
        VersionHitIsNewest(v, u, s, level + 1);
      }
    } else {
      forall x | InVersion(v, x) && x.ukey == u ensures s < x.sn {
        var k, f :| 0 <= k < |v| && f in v[k] && x in f.entries;
        assert Misses(f, u, s);
      }
    }
  }

  // ---------- the searches ----------

  /** The hit in the newest file that has one. */
  lemma Level0HitIs(files: seq<File>, u: UserKey, s: nat, f: File)
    requires ByAge(files) && f in files && Newest(f.entries, u, s).Some?
    requires forall g :: g in files && g.number > f.number ==> Newest(g.entries, u, s).None?
    ensures Level0Hit(files, u, s) == Some((f.number, Newest(f.entries, u, s).value))
  {
    Level0HitFile(files, u, s);
  }

  /** The level-0 files that cover u, searched from the newest to the oldest. */
  method SearchLevel0(files: seq<File>, u: UserKey, s: SeqNum) returns (r: Option<Entry>)
    requires (forall f :: f in files ==> WfFile(f)) && ByAge(files)
    ensures r == match Level0Hit(files, u, s) case None => None case Some(h) => Some(h.1)
  {
    var tmp := FilesCovering(files, u);
    forall f | f in files && f !in tmp ensures Newest(f.entries, u, s).None? {
      NotCovering(f, u, s);
      MissIsNone(f, u, s);
    }
    var order := SortNewestFirst(tmp);
    for i := 0 to |order|
      invariant forall j :: 0 <= j < i ==> Newest(order[j].entries, u, s).None?
    {
      var f := order[i];
      assert f in order && f in files;
      r := SeekGet(f.entries, u, s);
      SeekGetIsScan(f.entries, u, s);
      if r.Some? {
        forall g | g in files && g.number > f.number ensures Newest(g.entries, u, s).None? {
          if g in tmp {
            assert g in order;
            var j :| 0 <= j < |order| && order[j] == g;
          }
        }
        Level0HitIs(files, u, s, f);
        return;
      }
    }
    assert forall f :: f in tmp ==> f in order;
    Level0HitFile(files, u, s);
    r := None;
  }

  /** With every other file empty of u, the first hit is that of file index, if it has one. */
  lemma {:induction false} LevelHitIs(files: seq<File>, u: UserKey, s: nat, index: nat)
    requires forall i :: 0 <= i < |files| && i != index ==> Newest(files[i].entries, u, s).None?
    ensures LevelHit(files, u, s) == if index < |files| then Newest(files[index].entries, u, s) else None
  {
    if files != [] {
      if index == 0 {
        LevelHitIs(files[1..], u, s, |files|);
      } else {
        LevelHitIs(files[1..], u, s, index - 1);
      }
    }
  }

  /** Below level 0 the only file that can hold u is found by binary search. */
  method SearchLevel(files: seq<File>, u: UserKey, s: SeqNum) returns (r: Option<Entry>)
    requires forall f :: f in files ==> WfFile(f)
    requires LaidOut(files)
    ensures r == LevelHit(files, u, s)
  {
    var ikey := IKey(u, s, Value);
    var index := FindFile(files, ikey);
    forall i | 0 <= i < |files| && i != index ensures Newest(files[i].entries, u, s).None? {
      forall x | x in files[i].entries && x.ukey == u ensures s < x.sn {
        OtherFileMisses(files, u, s, index, i, x);
      }
      MissIsNone(files[i], u, s);
    }
    LevelHitIs(files, u, s, index);
    r := None;
    if index < |files| {
      var f := files[index];
      assert f in files;
      if u < f.Lo() {
        NotCovering(f, u, s);
        MissIsNone(f, u, s);
      } else {
        r := SeekGet(f.entries, u, s);
        SeekGetIsScan(f.entries, u, s);
      }
    }
  }

  lemma OtherFileMisses(files: seq<File>, u: UserKey, s: SeqNum, index: nat, i: nat, x: Entry)
    requires LaidOut(files) && i < |files| && i != index && WfFile(files[i])
    requires forall j :: 0 <= j < index && j < |files| ==> Before(files[j].largest, IKey(u, s, Value))
    requires forall j :: index <= j < |files| ==> !Before(files[j].largest, IKey(u, s, Value))
    requires x in files[i].entries && x.ukey == u
    ensures s < x.sn
  {
    var f := files[i];
    FileCovers(f, x);
    var p :| 0 <= p < |f.entries| && f.entries[p] == x;
    assert p == |f.entries| - 1 || Before(x.Key(), f.largest);
    assert index < |files| ==> u <= files[index].Hi();
  }

  /** Version::Get. */
  method VersionGet(v: Levels, u: UserKey, s: SeqNum) returns (r: Option<Entry>)
    requires VersionInv(v)
    ensures r == VersionHit(v, u, s, 0) && NewestInVersion(v, u, s, r)
  {
    VersionHitIsNewest(v, u, s, 0);
    r := None;
    for level := 0 to NUM_LEVELS
      invariant r == None && VersionHit(v, u, s, 0) == VersionHit(v, u, s, level)
    {
      if level == 0 {
        r := SearchLevel0(v[0], u, s);
      } else {
        LevelIsLaidOut(v, level);
        r := SearchLevel(v[level], u, s);
      }
      if r.Some? { return; }
    }
  }

  /** Upper levels show nothing and deeper levels hold only older entries. */
  lemma FirstHitIsNewest(v: Levels, u: UserKey, s: nat, level: nat, e: Entry)
    requires VersionInv(v) && level < |v| && e.ukey == u && e.sn <= s
    requires forall k, f :: 0 <= k < level && f in v[k] ==> Misses(f, u, s)
    requires exists f :: f in v[level] && e in f.entries
    requires forall f, x :: f in v[level] && x in f.entries && x.ukey == u && x.sn <= s ==> x.sn <= e.sn
    ensures NewestInVersion(v, u, s, Some(e))
  {
    var f :| f in v[level] && e in f.entries;
    forall x | InVersion(v, x) && x.ukey == u && x.sn <= s ensures x.sn <= e.sn {
      var k, g :| 0 <= k < |v| && g in v[k] && x in g.entries;
      assert k < level ==> Misses(g, u, s);
      assert k > level ==> Newer(f, g);
    }
  }

  /** DBImpl::Get: the memtable, then the immutable memtable, then the current version. */
  method Get(mem: seq<Entry>, imm: Option<seq<Entry>>, levels: Levels, snapshot: SeqNum, u: UserKey, ghost d: Db)
    returns (value: Option<Bytes>)
    requires Inv(d) && mem == d.mem && imm == d.imm && levels == d.levels && snapshot == d.lastSequence
    ensures value == GetOf(d, u) && ReadsLastWrite(d, u)
  {
    var r := SeekGet(mem, u, snapshot);
    SeekGetIsScan(mem, u, snapshot);
    if r.None? && imm.Some? {
      r := SeekGet(imm.value, u, snapshot);
      SeekGetIsScan(imm.value, u, snapshot);
    }
    if r.None? {
      r := VersionGet(levels, u, snapshot);
    }
    value := Seen(r);
    GetIsLastWrite(d, u);
  }

  /** A read of u returns the value of the last write to u, or nothing if that is a deletion or there is none. */
  ghost predicate ReadsLastWrite(d: Db, u: UserKey) {
    && (forall h :: IsLatest(d.history, h) && h.ukey == u ==> GetOf(d, u) == if h.kind.Value? then Some(h.value) else None)
    && ((forall h :: h in d.history ==> h.ukey != u) ==> GetOf(d, u) == None)
  }

  /** The entry found first is the newest stored entry of u. */
  ghost predicate NewestStored(d: Db, u: UserKey, r: Option<Entry>) {
    match r
    case Some(e) => Stored(d, e) && e.ukey == u && forall x :: Stored(d, x) && x.ukey == u ==> x.sn <= e.sn
    case None => forall x :: Stored(d, x) ==> x.ukey != u
  }

  lemma FoundIsLatest(d: Db, u: UserKey, r: Option<Entry>)
    requires Inv(d) && NewestStored(d, u, r)
    ensures forall h :: IsLatest(d.history, h) && h.ukey == u ==>
              Seen(r) == if h.kind.Value? then Some(h.value) else None
    ensures (forall h :: h in d.history ==> h.ukey != u) ==> Seen(r) == None
  {
    forall h | IsLatest(d.history, h) && h.ukey == u
      ensures Seen(r) == if h.kind.Value? then Some(h.value) else None
    {
      if Stored(d, h) {
        assert r.Some? && r.value in Entries(d.history) && h in Entries(d.history);
      }
    }
  }

  lemma HitIsNewestStored(d: Db, u: UserKey)
    requires Inv(d)
    ensures NewestStored(d, u, Hit(d, u))
  {
    var s := d.lastSequence;
    NewestIsLargest(d.mem, u, s);
    if d.imm.Some? { NewestIsLargest(d.imm.value, u, s); }
    VersionHitIsNewest(d.levels, u, s, 0);
    assert forall x :: Stored(d, x) ==> x.sn <= s;
    hide VersionHit, VersionInv;
  }

  /** In every state that meets the invariant a read returns the last write. */
  lemma GetIsLastWrite(d: Db, u: UserKey)
    requires Inv(d)
    ensures ReadsLastWrite(d, u)
  {
    HitIsNewestStored(d, u);
    FoundIsLatest(d, u, Hit(d, u));
  }

  /** In every state of every run, reopenings included, a read returns the last write. */
  lemma EveryRunReadsLastWrite(states: seq<Db>, n: nat, u: UserKey)
    requires Run(states) && n < |states|
    ensures ReadsLastWrite(states[n], u)
  {
    RunInv(states, n);
    GetIsLastWrite(states[n], u);
  }
}
