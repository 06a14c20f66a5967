/** VersionSet::Builder: many edits applied at once equal the edits applied one by one. */
module VersionBuilder {
  import opened Keys
  import opened Tables

  /** The file changes of a VersionEdit: (level, number) pairs to delete, then files to add. */
  datatype Edit = Edit(deleted: set<(nat, nat)>, added: seq<(nat, File)>)

  ghost predicate WfEdit(e: Edit) {
    && (forall d :: d in e.deleted ==> d.0 < NUM_LEVELS)
    && (forall i :: 0 <= i < |e.added| ==> e.added[i].0 < NUM_LEVELS)
  }

  ghost function AddedAt(e: Edit, n: nat, l: nat): set<File>
    requires n <= |e.added|
  {
    if n == 0 then {}
    else AddedAt(e, n - 1, l) + if e.added[n - 1].0 == l then {e.added[n - 1].1} else {}
  }

  /** What one edit means for the files of level l. */
  ghost function ApplyTo(files: set<File>, e: Edit, l: nat): set<File> {
    (set f | f in files && (l, f.number) !in e.deleted) + AddedAt(e, |e.added|, l)
  }

  ghost function ApplyAll(files: set<File>, edits: seq<Edit>, l: nat): set<File> {
    if edits == [] then files
    else ApplyTo(ApplyAll(files, edits[..|edits| - 1], l), edits[|edits| - 1], l)
  }

  ghost function FileSet(fs: seq<File>): set<File> { set f | f in fs }

  ghost predicate HasNumber(fs: set<File>, n: nat) { exists f :: f in fs && f.number == n }

  /** Every file added to a level has a number that level has not seen (in seen or earlier in the edit). */
  ghost predicate FreshAt(seen: set<File>, e: Edit, n: nat, l: nat)
    requires n <= |e.added|
  {
    forall i :: 0 <= i < n && e.added[i].0 == l ==>
      !HasNumber(seen, e.added[i].1.number) && !HasNumber(AddedAt(e, i, l), e.added[i].1.number)
  }

  lemma FileOrder(f: File, g: File, h: File)
    ensures f.number != g.number ==> FileBefore(f, g) || FileBefore(g, f)
    ensures FileBefore(f, g) && FileBefore(g, h) ==> FileBefore(f, h)
    ensures !FileBefore(f, f)
    ensures FileBefore(f, g) ==> !FileBefore(g, f)
  {
    BeforeIsStrictTotalOrder(f.smallest, g.smallest, h.smallest);
    BeforeIsStrictTotalOrder(g.smallest, f.smallest, g.smallest);
  }

  /** A sorted level is determined by its files. */
  lemma {:induction false} SortedIsUnique(a: seq<File>, b: seq<File>)
    requires SortedFiles(a) && SortedFiles(b) && FileSet(a) == FileSet(b)
    ensures a == b
  {
    forall f | f in a || f in b ensures f in a && f in b {
      assert f in FileSet(a) && f in FileSet(b);
    }
    assert (a == [] || a[0] in b) && (b == [] || b[0] in a);
    if a != [] && b != [] {
      FirstsAgree(a, b);
      var a', b' := a[1..], b[1..];
      forall f ensures f in a' <==> f in b' {
        NotRepeated(a, f);
        NotRepeated(b, f);
      }
      SortedIsUnique(a', b');
      assert a == [a[0]] + a' && b == [b[0]] + b';
    }
  }

  lemma NotRepeated(a: seq<File>, f: File)
    requires a != [] && SortedFiles(a)
    ensures f in a[1..] <==> f in a && f != a[0]
  {
    FileOrder(f, f, f);
  }

  lemma FirstsAgree(a: seq<File>, b: seq<File>)
    requires SortedFiles(a) && SortedFiles(b) && a != [] && b != []
    requires forall f :: f in a <==> f in b
    ensures a[0] == b[0]
  {
    assert a[0] in b && b[0] in a;
    var i :| 0 <= i < |b| && b[i] == a[0];
    var j :| 0 <= j < |a| && a[j] == b[0];
    FileOrder(a[0], b[0], a[0]);
  }

  ghost predicate AllBefore(out: seq<File>, rest: seq<File>) {
    forall f, j :: f in out && 0 <= j < |rest| ==> FileBefore(f, rest[j])
  }

  method MaybeAddFile(out: seq<File>, f: File, deleted: set<nat>) returns (r: seq<File>)
    requires SortedFiles(out) && forall g :: g in out ==> FileBefore(g, f)
    ensures SortedFiles(r)
    ensures forall g :: g in r <==> g in out || (g == f && f.number !in deleted)
  {
    r := if f.number in deleted then out else out + [f];
  }

  /** The merge loops of SaveTo, for one level. */
  method MergeLevel(base: seq<File>, added: seq<File>, deleted: set<nat>) returns (out: seq<File>)
    requires SortedFiles(base) && SortedFiles(added)
    requires forall f, g :: f in base && g in added ==> f.number != g.number
    ensures SortedFiles(out)
    ensures forall f :: f in out <==> (f in base || f in added) && f.number !in deleted
  {
    out := [];
    var b := 0;
    for i := 0 to |added|
      invariant 0 <= b <= |base|
      invariant SortedFiles(out) && AllBefore(out, base[b..]) && AllBefore(out, added[i..])
      invariant forall f :: f in out <==> (f in base[..b] || f in added[..i]) && f.number !in deleted
    {
      var a := added[i];
      assert a == added[i..][0];
      while b < |base| && !FileBefore(a, base[b])
        invariant 0 <= b <= |base|
        invariant SortedFiles(out) && AllBefore(out, base[b..]) && AllBefore(out, added[i..])
        invariant forall f :: f in out <==> (f in base[..b] || f in added[..i]) && f.number !in deleted
      {
        var f := base[b];
        assert f == base[b..][0] && a in added && f in base;
        forall j | i <= j < |added| ensures FileBefore(f, added[j]) {
          FileOrder(f, a, added[j]);
        }
        out := MaybeAddFile(out, f, deleted);
        assert base[..b + 1] == base[..b] + [f];
        b := b + 1;
      }
      forall j | b <= j < |base| ensures FileBefore(a, base[j]) {
        FileOrder(a, base[b], base[j]);
      }
      out := MaybeAddFile(out, a, deleted);
      assert added[..i + 1] == added[..i] + [a];
    }
    assert added[..|added|] == added;
    while b < |base|
      invariant 0 <= b <= |base|
      invariant SortedFiles(out) && AllBefore(out, base[b..])
      invariant forall f :: f in out <==> (f in base[..b] || f in added) && f.number !in deleted
    {
      assert base[b] == base[b..][0];
      out := MaybeAddFile(out, base[b], deleted);
      assert base[..b + 1] == base[..b] + [base[b]];
      b := b + 1;
    }
    assert base[..|base|] == base;
  }

  /** Insertion into the ordered set added_files. */
  method InsertFile(fs: seq<File>, f: File) returns (r: seq<File>)
    requires SortedFiles(fs) && forall g :: g in fs ==> g.number != f.number
    ensures SortedFiles(r) && FileSet(r) == FileSet(fs) + {f}
  {
    var p := 0;
    while p < |fs| && FileBefore(fs[p], f)
      invariant 0 <= p <= |fs| && forall i :: 0 <= i < p ==> FileBefore(fs[i], f)
    {
      p := p + 1;
    }
    forall j | p <= j < |fs| ensures FileBefore(f, fs[j]) {
      FileOrder(f, fs[p], fs[j]);
    }
    r := fs[..p] + [f] + fs[p..];
    InsertedFile(fs, p, f);
  }

  lemma InsertedFile(fs: seq<File>, p: nat, f: File)
    requires p <= |fs| && SortedFiles(fs)
    requires forall i :: 0 <= i < p ==> FileBefore(fs[i], f)
    requires forall j :: p <= j < |fs| ==> FileBefore(f, fs[j])
    ensures SortedFiles(fs[..p] + [f] + fs[p..])
    ensures FileSet(fs[..p] + [f] + fs[p..]) == FileSet(fs) + {f}
  {
    var a, b := fs[..p], fs[p..];
    assert fs == a + b;
    AppendSorted(a, [f]);
    AppendSorted(a + [f], b);
    assert forall g :: g in a + [f] + b <==> g in a + b || g == f;
  }

  lemma AppendSorted(a: seq<File>, b: seq<File>)
    requires SortedFiles(a) && SortedFiles(b)
    requires forall i, j :: 0 <= i < |a| && 0 <= j < |b| ==> FileBefore(a[i], b[j])
    ensures SortedFiles(a + b)
  {
  }

  /** One level of a builder: seen is every file the level has held, contents those it holds now. */
  ghost predicate LevelOk(base: seq<File>, added: seq<File>, deleted: set<nat>, seen: set<File>, contents: set<File>) {
    && SortedFiles(base) && SortedFiles(added)
    && (forall f, g :: f in base && g in added ==> f.number != g.number)
    && seen == FileSet(base) + FileSet(added)
    && (forall f :: f in contents <==> f in seen && f.number !in deleted)
  }

  lemma AddedLevelOk(base: seq<File>, added: seq<File>, deleted: set<nat>, seen: set<File>, contents: set<File>,
                     f: File, added': seq<File>)
    requires LevelOk(base, added, deleted, seen, contents) && !HasNumber(seen, f.number)
    requires SortedFiles(added') && FileSet(added') == FileSet(added) + {f}
    ensures LevelOk(base, added', deleted - {f.number}, seen + {f}, contents + {f})
  {
    assert forall g :: g in added' <==> g in FileSet(added');
    assert forall g :: g in base ==> g in seen;
  }

  class Builder {
    const base: Levels
    var deleted: seq<set<nat>>
    var added: seq<seq<File>>
    ghost var seen: seq<set<File>>      // every file a level has held
    ghost var contents: seq<set<File>>  // the files it holds now

    ghost predicate Valid()
      reads this
    {
      && |base| == |deleted| == |added| == |seen| == |contents| == NUM_LEVELS
      && forall l :: 0 <= l < NUM_LEVELS ==> LevelOk(base[l], added[l], deleted[l], seen[l], contents[l])
    }

    constructor (base: Levels)
      requires |base| == NUM_LEVELS && forall l :: 0 <= l < NUM_LEVELS ==> SortedFiles(base[l])
      ensures Valid() && this.base == base
      ensures forall l :: 0 <= l < NUM_LEVELS ==> seen[l] == contents[l] == FileSet(base[l])
    {
      this.base := base;
      deleted := seq(NUM_LEVELS, _ => {});
      added := seq(NUM_LEVELS, _ => []);
      seen := seq(NUM_LEVELS, l requires 0 <= l < NUM_LEVELS => FileSet(base[l]));
      contents := seq(NUM_LEVELS, l requires 0 <= l < NUM_LEVELS => FileSet(base[l]));
    }

    method Apply(e: Edit)
      requires Valid() && WfEdit(e)
      requires forall l :: 0 <= l < NUM_LEVELS ==> FreshAt(seen[l], e, |e.added|, l)
      modifies this
      ensures Valid()
      ensures forall l :: 0 <= l < NUM_LEVELS ==> contents[l] == ApplyTo(old(contents[l]), e, l)
      ensures forall l :: 0 <= l < NUM_LEVELS ==> seen[l] == old(seen[l]) + AddedAt(e, |e.added|, l)
    {
      DeleteFiles(e);
      AddFiles(e);
    }

    method DeleteFiles(e: Edit)
      requires Valid() && WfEdit(e)
      modifies `deleted, `contents
      ensures Valid()
      ensures forall l :: 0 <= l < NUM_LEVELS ==> contents[l] == set f | f in old(contents[l]) && (l, f.number) !in e.deleted
    {
      var rest := e.deleted;
      while rest != {}
        invariant Valid() && rest <= e.deleted
        invariant forall l, f :: 0 <= l < NUM_LEVELS ==>
                    (f in contents[l] <==> f in old(contents[l]) && ((l, f.number) !in e.deleted || (l, f.number) in rest))
        decreases rest
      {
        var d :| d in rest;
        DeleteFile(d.0, d.1);
        rest := rest - {d};
      }
    }

    method AddFiles(e: Edit)
      requires Valid() && WfEdit(e)
      requires forall l :: 0 <= l < NUM_LEVELS ==> FreshAt(seen[l], e, |e.added|, l)
      modifies this
      ensures Valid()
      ensures forall l :: 0 <= l < NUM_LEVELS ==> contents[l] == old(contents[l]) + AddedAt(e, |e.added|, l)
      ensures forall l :: 0 <= l < NUM_LEVELS ==> seen[l] == old(seen[l]) + AddedAt(e, |e.added|, l)
    {
      for i := 0 to |e.added|
        invariant Valid()
        invariant forall l, f :: 0 <= l < NUM_LEVELS ==> (f in seen[l] <==> f in old(seen[l]) || f in AddedAt(e, i, l))
        invariant forall l, f :: 0 <= l < NUM_LEVELS ==> (f in contents[l] <==> f in old(contents[l]) || f in AddedAt(e, i, l))
      {
        var level, f := e.added[i].0, e.added[i].1;
        assert FreshAt(old(seen[level]), e, |e.added|, level);
        AddFile(level, f);
      }
    }

    method DeleteFile(level: nat, number: nat)
      requires Valid() && level < NUM_LEVELS
      modifies `deleted, `contents
      ensures Valid()
      ensures contents == old(contents)[level := set f | f in old(contents[level]) && f.number != number]
    {
      deleted := deleted[level := deleted[level] + {number}];
      contents := contents[level := set f | f in contents[level] && f.number != number];
    }

    method AddFile(level: nat, f: File)
      requires Valid() && level < NUM_LEVELS && !HasNumber(seen[level], f.number)
      modifies this
      ensures Valid()
      ensures seen == old(seen)[level := old(seen[level]) + {f}]
      ensures contents == old(contents)[level := old(contents[level]) + {f}]
    {
      assert forall g :: g in base[level] || g in added[level] ==> g in seen[level];
      var fs := InsertFile(added[level], f);
      AddedLevelOk(base[level], added[level], deleted[level], seen[level], contents[level], f, fs);
      deleted := deleted[level := deleted[level] - {f.number}];
      added := added[level := fs];
      seen := seen[level := seen[level] + {f}];
      contents := contents[level := contents[level] + {f}];
    }

    method SaveTo() returns (v: Levels)
      requires Valid()
      ensures |v| == NUM_LEVELS
      ensures forall l :: 0 <= l < NUM_LEVELS ==> SortedFiles(v[l]) && FileSet(v[l]) == contents[l]
    {
      v := [];
      for l := 0 to NUM_LEVELS
        invariant |v| == l
        invariant forall k :: 0 <= k < l ==> SortedFiles(v[k]) && FileSet(v[k]) == contents[k]
      {
        var files := MergeLevel(base[l], added[l], deleted[l]);
        assert FileSet(files) == contents[l];
        v := v + [files];
      }
    }
  }

  /** Freshness over a whole sequence of edits. */
  ghost predicate FreshRun(base: Levels, edits: seq<Edit>) {
    forall i, l :: 0 <= i < |edits| && 0 <= l < |base| ==> FreshAt(SeenAfter(base[l], edits[..i], l), edits[i], |edits[i].added|, l)
  }

  ghost function SeenAfter(files: seq<File>, edits: seq<Edit>, l: nat): set<File> {
    if edits == [] then FileSet(files)
    else SeenAfter(files, edits[..|edits| - 1], l) + AddedAt(edits[|edits| - 1], |edits[|edits| - 1].added|, l)
  }

  /** VersionSet::Recover: apply the edits of a MANIFEST to one builder, then save once. */
  method Replay(base: Levels, edits: seq<Edit>) returns (v: Levels)
    requires |base| == NUM_LEVELS && (forall l :: 0 <= l < NUM_LEVELS ==> SortedFiles(base[l]))
    requires (forall e :: e in edits ==> WfEdit(e)) && FreshRun(base, edits)
    ensures |v| == NUM_LEVELS
    ensures forall l :: 0 <= l < NUM_LEVELS ==> SortedFiles(v[l]) && FileSet(v[l]) == ApplyAll(FileSet(base[l]), edits, l)
  {
    var b := new Builder(base);
    for i := 0 to |edits|
      invariant fresh(b) && b.Valid() && b.base == base
      invariant forall l :: 0 <= l < NUM_LEVELS ==> b.seen[l] == SeenAfter(base[l], edits[..i], l)
      invariant forall l :: 0 <= l < NUM_LEVELS ==> b.contents[l] == ApplyAll(FileSet(base[l]), edits[..i], l)
    {
      assert edits[i] in edits && edits[..i + 1][..i] == edits[..i];
      b.Apply(edits[i]);
    }
    assert edits[..|edits|] == edits;
    v := b.SaveTo();
  }

  /** LogAndApply: one edit installed on the current version. */
  ghost predicate Installs(v: Levels, e: Edit, v': Levels) {
    && |v| == |v'| == NUM_LEVELS
    && forall l :: 0 <= l < NUM_LEVELS ==> SortedFiles(v'[l]) && FileSet(v'[l]) == ApplyTo(FileSet(v[l]), e, l)
  }

  ghost predicate InstalledOneByOne(versions: seq<Levels>, edits: seq<Edit>) {
    && |versions| == |edits| + 1
    && |versions[0]| == NUM_LEVELS && (forall l :: 0 <= l < NUM_LEVELS ==> SortedFiles(versions[0][l]))
    && forall i :: 0 <= i < |edits| ==> Installs(versions[i], edits[i], versions[i + 1])
  }

  lemma {:induction false} OneByOneIsFold(versions: seq<Levels>, edits: seq<Edit>, n: nat, l: nat)
    requires InstalledOneByOne(versions, edits) && n <= |edits| && l < NUM_LEVELS
    ensures |versions[n]| == NUM_LEVELS && SortedFiles(versions[n][l])
    ensures FileSet(versions[n][l]) == ApplyAll(FileSet(versions[0][l]), edits[..n], l)
  {
    if n > 0 {
      OneByOneIsFold(versions, edits, n - 1, l);
      assert edits[..n][..n - 1] == edits[..n - 1];
    }
  }

  /** Replaying all edits at once rebuilds the version that installing them one at a time produced. */
  lemma ReplayRebuildsLastVersion(versions: seq<Levels>, edits: seq<Edit>, v: Levels)
    requires InstalledOneByOne(versions, edits) && |v| == NUM_LEVELS
    requires forall l :: 0 <= l < NUM_LEVELS ==> SortedFiles(v[l]) && FileSet(v[l]) == ApplyAll(FileSet(versions[0][l]), edits, l)
    ensures v == versions[|edits|]
  {
    assert edits[..|edits|] == edits;
    forall l | 0 <= l < NUM_LEVELS ensures v[l] == versions[|edits|][l] {
      OneByOneIsFold(versions, edits, |edits|, l);
      SortedIsUnique(v[l], versions[|edits|][l]);
    }
    OneByOneIsFold(versions, edits, |edits|, 0);
  }
}
