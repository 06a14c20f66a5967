/** Table files and versions as the level structure sees them: sorted lists of entries. */
module Tables {
  import opened Keys

  const NUM_LEVELS: nat := 7

  datatype Entry = Entry(ukey: UserKey, sn: SeqNum, kind: Kind, value: Bytes) {
    function Key(): IKey { IKey(ukey, sn, kind) }
  }

  /** FileMetaData together with the contents of the table it describes. */
  datatype File = File(number: nat, size: nat, smallest: IKey, largest: IKey, entries: seq<Entry>) {
    function Lo(): UserKey { smallest.ukey }
    function Hi(): UserKey { largest.ukey }
  }

  type Levels = seq<seq<File>>

  ghost predicate Sorted(es: seq<Entry>) {
    forall i, j :: 0 <= i < j < |es| ==> Before(es[i].Key(), es[j].Key())
  }

  ghost predicate WfFile(f: File) {
    && 0 < |f.entries|
    && Sorted(f.entries)
    && f.smallest == f.entries[0].Key()
    && f.largest == f.entries[|f.entries| - 1].Key()
  }

  lemma FileCovers(f: File, e: Entry)
    requires WfFile(f) && e in f.entries
    ensures f.Lo() <= e.ukey <= f.Hi()
  {
    var i :| 0 <= i < |f.entries| && f.entries[i] == e;
    assert i == 0 || Before(f.entries[0].Key(), e.Key());
    assert i == |f.entries| - 1 || Before(e.Key(), f.entries[|f.entries| - 1].Key());
  }

  /** The linear scan: the first entry of u in table order that snapshot s can see. */
  function Newest(es: seq<Entry>, u: UserKey, s: nat): Option<Entry> {
    if es == [] then None
    else if es[0].ukey == u && es[0].sn <= s then Some(es[0])
    else Newest(es[1..], u, s)
  }

  /** In a sorted table the linear scan finds the visible entry with the largest sequence number. */
  lemma {:induction false} NewestIsLargest(es: seq<Entry>, u: UserKey, s: nat)
    requires Sorted(es)
    ensures var r := Newest(es, u, s);
            match r
            case Some(e) => e in es && e.ukey == u && e.sn <= s
                            && (forall x :: x in es && x.ukey == u && x.sn <= s ==> x.sn <= e.sn)
            case None => forall x :: x in es && x.ukey == u ==> s < x.sn
  {
    if es != [] {
      NewestIsLargest(es[1..], u, s);
      forall x | x in es && x.ukey == u && x.sn <= s && es[0].ukey == u && es[0].sn <= s
        ensures x.sn <= es[0].sn
      {
        var i :| 0 <= i < |es| && es[i] == x;
        assert i == 0 || Before(es[0].Key(), es[i].Key());
      }
      assert forall x :: x in es <==> x == es[0] || x in es[1..];
    }
  }

  /** Position of the first entry at or after k, where an iterator's Seek lands. */
  function SeekIndex(es: seq<Entry>, k: IKey): (i: nat)
    ensures i <= |es|
    ensures forall j :: 0 <= j < i ==> Before(es[j].Key(), k)
    ensures i < |es| ==> !Before(es[i].Key(), k)
  {
    if es == [] || !Before(es[0].Key(), k) then 0
    else
      var i := SeekIndex(es[1..], k);
      assert forall j :: 0 < j <= i ==> es[j] == es[1..][j - 1];
      1 + i
  }

  /** Every entry of a that shares its user key with an entry of b is the newer of the two. */
  ghost predicate NewerEntries(a: seq<Entry>, b: seq<Entry>) {
    forall e, x :: e in a && x in b && e.ukey == x.ukey ==> e.sn > x.sn
  }

  ghost predicate Newer(f: File, g: File) { NewerEntries(f.entries, g.entries) }

  predicate DisjointFiles(f: File, g: File) { f.Hi() < g.Lo() || g.Hi() < f.Lo() }

  lemma DisjointIsNewer(f: File, g: File)
    requires WfFile(f) && WfFile(g) && DisjointFiles(f, g)
    ensures Newer(f, g) && Newer(g, f)
  {
    forall e, x | e in f.entries && x in g.entries ensures e.ukey != x.ukey {
      FileCovers(f, e);
      FileCovers(g, x);
    }
  }

  /** BySmallestKey: order within a level. */
  predicate FileBefore(f: File, g: File) {
    Before(f.smallest, g.smallest) || (f.smallest == g.smallest && f.number < g.number)
  }

  ghost predicate SortedFiles(fs: seq<File>) {
    forall i, j :: 0 <= i < j < |fs| ==> FileBefore(fs[i], fs[j])
  }

  ghost predicate Shape(v: Levels) {
    && |v| == NUM_LEVELS
    && (forall l :: 0 <= l < |v| ==> SortedFiles(v[l]))
    && (forall l, f :: 0 <= l < |v| && f in v[l] ==> WfFile(f))
  }

  /** No user key lies in two files of one level below level 0. */
  ghost predicate LevelsDisjoint(v: Levels) {
    forall l, f, g :: 1 <= l < |v| && f in v[l] && g in v[l] && f != g ==> DisjointFiles(f, g)
  }

  ghost predicate LevelZeroByAge(v: Levels)
    requires 0 < |v|
  {
    forall f, g :: f in v[0] && g in v[0] && f != g ==>
      f.number != g.number && (f.number > g.number ==> Newer(f, g))
  }

  /** "Entries never hop across levels": upper levels hold the newer entries of every key. */
  ghost predicate NewerAbove(v: Levels) {
    forall k, l, f, g :: 0 <= k < l < |v| && f in v[k] && g in v[l] ==> Newer(f, g)
  }

  ghost predicate VersionInv(v: Levels) {
    Shape(v) && LevelsDisjoint(v) && LevelZeroByAge(v) && NewerAbove(v)
  }

  ghost predicate InVersion(v: Levels, e: Entry) {
    exists l, f :: 0 <= l < |v| && f in v[l] && e in f.entries
  }

  /** Files of a level below level 0 are laid out from left to right without touching. */
  lemma LevelLaidOut(fs: seq<File>, i: nat, j: nat)
    requires i < j < |fs| && SortedFiles(fs)
    requires forall f :: f in fs ==> WfFile(f)
    requires forall f, g :: f in fs && g in fs && f != g ==> DisjointFiles(f, g)
    ensures fs[i].Hi() < fs[j].Lo()
  {
    var f, g := fs[i], fs[j];
    assert f in fs && g in fs && FileBefore(f, g);
    FileCovers(f, f.entries[0]);
    FileCovers(g, g.entries[0]);
    if f == g {
      BeforeIsStrictTotalOrder(f.smallest, f.smallest, f.smallest);
      assert false;
    }
    assert DisjointFiles(f, g);
  }
}
