/** MANIFEST records as file edits, and the version that a list of records describes. */
module Manifest {
  import opened Keys
  import opened Tables
  import opened VersionBuilder

  /** The contents of one VersionEdit: file edits without table contents, and the numbers it sets. */
  datatype Record = Record(edit: Edit, log: Option<nat>, next: Option<nat>, last: Option<nat>)

  function MLog(m: seq<Record>): nat {
    if m == [] then 0 else if m[|m| - 1].log.Some? then m[|m| - 1].log.value else MLog(m[..|m| - 1])
  }

  function MNext(m: seq<Record>): nat {
    if m == [] then 0 else if m[|m| - 1].next.Some? then m[|m| - 1].next.value else MNext(m[..|m| - 1])
  }

  function MLast(m: seq<Record>): nat {
    if m == [] then 0 else if m[|m| - 1].last.Some? then m[|m| - 1].last.value else MLast(m[..|m| - 1])
  }

  // ---------- metadata ----------

  /** FileMetaData: a file without the contents of its table. */
  function Meta(f: File): File { f.(entries := []) }

  function MetaFiles(fs: seq<File>): seq<File> { seq(|fs|, i requires 0 <= i < |fs| => Meta(fs[i])) }

  function MetaEdit(e: Edit): (r: Edit)
    ensures |r.added| == |e.added|
  {
    Edit(e.deleted, seq(|e.added|, i requires 0 <= i < |e.added| => (e.added[i].0, Meta(e.added[i].1))))
  }

  ghost function MetaSet(fs: set<File>): set<File> { set f | f in fs :: Meta(f) }

  lemma MetaFilesSet(fs: seq<File>)
    ensures FileSet(MetaFiles(fs)) == MetaSet(FileSet(fs))
  {
    forall f | f in MetaFiles(fs) ensures f in MetaSet(FileSet(fs)) {
      var i :| 0 <= i < |fs| && MetaFiles(fs)[i] == f;
      assert fs[i] in FileSet(fs);
    }
    forall f | f in fs ensures Meta(f) in MetaFiles(fs) {
      var i :| 0 <= i < |fs| && fs[i] == f;
      assert MetaFiles(fs)[i] == Meta(f);
    }
  }

  lemma {:induction false} MetaAdded(e: Edit, n: nat, l: nat)
    requires n <= |e.added|
    ensures AddedAt(MetaEdit(e), n, l) == MetaSet(AddedAt(e, n, l))
  {
    if n > 0 {
      MetaAdded(e, n - 1, l);
    }
  }

  lemma MetaApplied(files: set<File>, e: Edit, l: nat)
    ensures ApplyTo(MetaSet(files), MetaEdit(e), l) == MetaSet(ApplyTo(files, e, l))
  {
    MetaAdded(e, |e.added|, l);
    var kept := set f | f in files && (l, f.number) !in e.deleted;
    assert (set f | f in MetaSet(files) && (l, f.number) !in e.deleted) == MetaSet(kept);
    assert MetaSet(kept + AddedAt(e, |e.added|, l)) == MetaSet(kept) + MetaSet(AddedAt(e, |e.added|, l));
  }

  lemma MetaSorted(fs: seq<File>)
    ensures SortedFiles(fs) <==> SortedFiles(MetaFiles(fs))
  {
    var ms := MetaFiles(fs);
    assert forall i, j :: 0 <= i < |fs| && 0 <= j < |fs| ==> (FileBefore(fs[i], fs[j]) <==> FileBefore(ms[i], ms[j]));
  }

  // ---------- the version described ----------

  function Edits(m: seq<Record>): seq<Edit> { seq(|m|, i requires 0 <= i < |m| => m[i].edit) }

  ghost function Contents(m: seq<Record>, l: nat): set<File> { ApplyAll({}, Edits(m), l) }

  /** Replaying the records one by one leaves the files of v. */
  ghost predicate Describes(m: seq<Record>, v: Levels) {
    |v| == NUM_LEVELS && forall l :: 0 <= l < NUM_LEVELS ==> SortedFiles(v[l]) && FileSet(MetaFiles(v[l])) == Contents(m, l)
  }

  lemma ContentsNext(m: seq<Record>, rec: Record, l: nat)
    ensures Contents(m + [rec], l) == ApplyTo(Contents(m, l), rec.edit, l)
  {
    assert Edits(m + [rec])[..|m|] == Edits(m);
  }

  /** LogAndApply: the record of an edit goes to the MANIFEST and the edit to the version. */
  lemma DescribesNext(m: seq<Record>, v: Levels, e: Edit, v': Levels, rec: Record)
    requires Describes(m, v) && Installs(v, e, v') && rec.edit == MetaEdit(e)
    ensures Describes(m + [rec], v')
  {
    forall l | 0 <= l < NUM_LEVELS ensures FileSet(MetaFiles(v'[l])) == Contents(m + [rec], l) {
      ContentsNext(m, rec, l);
      MetaFilesSet(v[l]);
      MetaFilesSet(v'[l]);
      MetaApplied(FileSet(v[l]), e, l);
    }
  }

  lemma MarksNext(m: seq<Record>, rec: Record)
    requires rec.log.Some? && rec.next.Some? && rec.last.Some?
    ensures MLog(m + [rec]) == rec.log.value && MNext(m + [rec]) == rec.next.value && MLast(m + [rec]) == rec.last.value
  {
  }

  // ---------- a snapshot ----------

  /** The files of the levels from l on. */
  function FilesFrom(v: Levels, l: nat): seq<(nat, File)>
    decreases |v| - l
  {
    if l >= |v| then [] else seq(|v[l]|, i requires 0 <= i < |v[l]| => (l, v[l][i])) + FilesFrom(v, l + 1)
  }

  /** The edit of WriteSnapshot. */
  function SnapshotEdit(v: Levels): Edit { Edit({}, FilesFrom(v, 0)) }

  lemma {:induction false} FilesFromMembers(v: Levels, l: nat)
    ensures forall p :: p in FilesFrom(v, l) <==> l <= p.0 < |v| && p.1 in v[p.0]
    decreases |v| - l
  {
    if l < |v| {
      FilesFromMembers(v, l + 1);
      var here := seq(|v[l]|, i requires 0 <= i < |v[l]| => (l, v[l][i]));
      forall p ensures p in here <==> p.0 == l && p.1 in v[l] {
        if p.0 == l && p.1 in v[l] {
          var i :| 0 <= i < |v[l]| && v[l][i] == p.1;
          assert here[i] == p;
        }
      }
    }
  }

  lemma {:induction false} AddedMembers(e: Edit, n: nat, l: nat)
    requires n <= |e.added|
    ensures forall f :: f in AddedAt(e, n, l) <==> (l, f) in e.added[..n]
  {
    if n > 0 {
      AddedMembers(e, n - 1, l);
      assert e.added[..n] == e.added[..n - 1] + [e.added[n - 1]];
    }
  }

  lemma SnapshotDescribes(v: Levels, rec: Record)
    requires |v| == NUM_LEVELS && (forall l :: 0 <= l < NUM_LEVELS ==> SortedFiles(v[l])) && rec.edit == MetaEdit(SnapshotEdit(v))
    ensures Describes([rec], v)
  {
    var empty: Levels := seq(NUM_LEVELS, _ => []);
    var e := SnapshotEdit(v);
    FilesFromMembers(v, 0);
    forall l | 0 <= l < NUM_LEVELS ensures FileSet(v[l]) == ApplyTo(FileSet(empty[l]), e, l) {
      AddedMembers(e, |e.added|, l);
      assert e.added[..|e.added|] == e.added;
    }
    assert Describes([], empty);
    DescribesNext([], empty, e, v, rec);
    assert [] + [rec] == [rec];
  }

  // ---------- one version only ----------

  /** Every table of the version is there with its contents. */
  ghost predicate Tabled(v: Levels, tables: map<nat, seq<Entry>>) {
    forall l, f :: 0 <= l < |v| && f in v[l] ==> f.number in tables && tables[f.number] == f.entries
  }

  /** Records and tables on disk determine the version. */
  lemma DescribedOnce(m: seq<Record>, tables: map<nat, seq<Entry>>, v: Levels, v': Levels)
    requires Describes(m, v) && Describes(m, v') && Tabled(v, tables) && Tabled(v', tables)
    ensures v == v'
  {
    forall l | 0 <= l < NUM_LEVELS ensures v[l] == v'[l] {
      MetaSorted(v[l]);
      MetaSorted(v'[l]);
      SortedIsUnique(MetaFiles(v[l]), MetaFiles(v'[l]));
      var a, b := MetaFiles(v[l]), MetaFiles(v'[l]);
      assert |v[l]| == |a| == |b| == |v'[l]|;
      forall i | 0 <= i < |v[l]| ensures v[l][i] == v'[l][i] {
        assert a[i] == b[i];
        assert v[l][i] in v[l] && v'[l][i] in v'[l];
      }
    }
  }

  // ---------- numbers used once per level ----------

  /** A file with number n has been added to level l. */
  ghost predicate Seen(m: seq<Record>, l: nat, n: nat) {
    exists i, j :: 0 <= i < |m| && 0 <= j < |m[i].edit.added| && m[i].edit.added[j].0 == l && m[i].edit.added[j].1.number == n
  }

  ghost predicate FreshEdit(m: seq<Record>, e: Edit) {
    && (forall p :: p in e.added ==> p.0 < NUM_LEVELS && !Seen(m, p.0, p.1.number))
    && (forall i, j :: 0 <= i < j < |e.added| && e.added[i].0 == e.added[j].0 ==> e.added[i].1.number != e.added[j].1.number)
    && (forall d :: d in e.deleted ==> d.0 < NUM_LEVELS)
  }

  ghost predicate AllFresh(m: seq<Record>) {
    forall i :: 0 <= i < |m| ==> FreshEdit(m[..i], m[i].edit)
  }

  lemma SeenNext(m: seq<Record>, rec: Record, l: nat, n: nat)
    ensures Seen(m + [rec], l, n) <==> Seen(m, l, n) || exists p :: p in rec.edit.added && p.0 == l && p.1.number == n
  {
    var m' := m + [rec];
    if Seen(m, l, n) {
      var i, j :| 0 <= i < |m| && 0 <= j < |m[i].edit.added| && m[i].edit.added[j].0 == l && m[i].edit.added[j].1.number == n;
      assert m'[i] == m[i];
    }
    if exists p :: p in rec.edit.added && p.0 == l && p.1.number == n {
      var p :| p in rec.edit.added && p.0 == l && p.1.number == n;
      var j :| 0 <= j < |rec.edit.added| && rec.edit.added[j] == p;
      assert m'[|m|] == rec && m'[|m|].edit.added[j] == p;
    }
    if Seen(m', l, n) {
      var i, j :| 0 <= i < |m'| && 0 <= j < |m'[i].edit.added| && m'[i].edit.added[j].0 == l && m'[i].edit.added[j].1.number == n;
      if i < |m| {
        assert m[i] == m'[i];
      } else {
        assert rec.edit.added[j] in rec.edit.added;
      }
    }
  }

  lemma AllFreshNext(m: seq<Record>, rec: Record)
    requires AllFresh(m) && FreshEdit(m, rec.edit)
    ensures AllFresh(m + [rec])
  {
    forall i | 0 <= i < |m + [rec]| ensures FreshEdit((m + [rec])[..i], (m + [rec])[i].edit) {
      if i < |m| {
        assert (m + [rec])[..i] == m[..i];
      } else {
        assert (m + [rec])[..i] == m;
      }
    }
  }

  lemma {:induction false} SeenAfterIsSeen(m: seq<Record>, l: nat, f: File)
    requires f in SeenAfter([], Edits(m), l)
    ensures Seen(m, l, f.number)
  {
    var rest, last := m[..|m| - 1], m[|m| - 1];
    assert m == rest + [last];
    assert Edits(m)[..|m| - 1] == Edits(rest) && Edits(m)[|m| - 1] == last.edit;
    SeenNext(rest, last, l, f.number);
    if f in SeenAfter([], Edits(rest), l) {
      SeenAfterIsSeen(rest, l, f);
    } else {
      AddedMembers(last.edit, |last.edit.added|, l);
      assert last.edit.added[..|last.edit.added|] == last.edit.added;
      assert (l, f) in last.edit.added;
    }
  }

  /** The builder may take the edits of such records in one go. */
  lemma FreshRecordsAreFreshRun(m: seq<Record>, base: Levels)
    requires AllFresh(m) && base == seq(NUM_LEVELS, _ => [])
    ensures FreshRun(base, Edits(m)) && forall e :: e in Edits(m) ==> WfEdit(e)
  {
    forall i, l | 0 <= i < |m| && 0 <= l < |base|
      ensures FreshAt(SeenAfter(base[l], Edits(m)[..i], l), Edits(m)[i], |Edits(m)[i].added|, l)
    {
      assert Edits(m)[..i] == Edits(m[..i]);
      FreshEditAt(m[..i], m[i].edit, l);
    }
    forall e | e in Edits(m) ensures WfEdit(e) {
      var i :| 0 <= i < |m| && Edits(m)[i] == e;
      assert FreshEdit(m[..i], m[i].edit);
      forall j | 0 <= j < |e.added| ensures e.added[j].0 < NUM_LEVELS { assert e.added[j] in e.added; }
    }
  }

  lemma FreshEditAt(m: seq<Record>, e: Edit, l: nat)
    requires FreshEdit(m, e)
    ensures FreshAt(SeenAfter([], Edits(m), l), e, |e.added|, l)
  {
    var seen := SeenAfter([], Edits(m), l);
    forall i | 0 <= i < |e.added| && e.added[i].0 == l
      ensures !HasNumber(seen, e.added[i].1.number) && !HasNumber(AddedAt(e, i, l), e.added[i].1.number)
    {
      assert e.added[i] in e.added;
      if HasNumber(seen, e.added[i].1.number) {
        var f :| f in seen && f.number == e.added[i].1.number;
        SeenAfterIsSeen(m, l, f);
      }
      AddedMembers(e, i, l);
    }
  }
}
