/** VersionSet::Recover: from the bytes of a MANIFEST to the version that was installed last. */
module ManifestReplay {
  import opened Keys
  import opened Tables
  import opened VersionBuilder
  import opened Manifest
  import opened LogFormat
  import opened LogReading
  import opened Durable
  import EditCodec
  import Coding
  import FilterBlock
  import Separators
  import Recovery
  import RecoveryDisk
  import RecoveryProofs
  import Lsm = LsmStates

  // ---------- from decoded edits to file edits ----------

  /** An encoded internal key: the rank of its user part, and the two parts of its tag. */
  function KeyOf(b: Bytes): IKey {
    if |b| < 8 then IKey(Rank(b), 0, Deletion)
    else
      var tag := Separators.Tag(b);
      TagFits(b);
      IKey(Rank(FilterBlock.UserPart(b)), tag / 256, if tag % 256 == 0 then Deletion else Value)
  }

  lemma TagFits(b: Bytes)
    requires |b| >= 8
    ensures Separators.Tag(b) / 256 <= MAX_SEQUENCE
  {
    Coding.FixedOfDecoded(b[|b| - 8..]);
    Coding.Powers();
  }

  lemma KeyOfInternalKey(u: Bytes, s: SeqNum, k: Kind)
    ensures KeyOf(Separators.InternalKey(u, s, k)) == IKey(Rank(u), s, k)
  {
    Separators.InternalKeyParts(u, s, k);
    assert (s * 256 + k.Code()) / 256 == s && (s * 256 + k.Code()) % 256 == k.Code();
  }

  function FileOf(f: EditCodec.FileEntry): File { File(f.number, f.size, KeyOf(f.smallest), KeyOf(f.largest), []) }

  function ToEdit(e: EditCodec.VersionEdit): (r: Edit)
    ensures |r.added| == |e.newFiles|
  {
    Edit(e.deleted, seq(|e.newFiles|, i requires 0 <= i < |e.newFiles| => (e.newFiles[i].0, FileOf(e.newFiles[i].1))))
  }

  function ToRecord(e: EditCodec.VersionEdit): Record { Record(ToEdit(e), e.logNumber, e.nextFile, e.lastSequence) }

  function ToRecords(es: seq<EditCodec.VersionEdit>): (m: seq<Record>)
    ensures |m| == |es|
  {
    seq(|es|, i requires 0 <= i < |es| => ToRecord(es[i]))
  }

  /** compact_pointer_ after some edits: the last one set for each level. */
  function WithPointers(p: map<nat, Bytes>, ps: seq<(nat, Bytes)>): map<nat, Bytes> {
    if ps == [] then p else WithPointers(p, ps[..|ps| - 1])[ps[|ps| - 1].0 := ps[|ps| - 1].1]
  }

  function PointersAfter(es: seq<EditCodec.VersionEdit>): map<nat, Bytes> {
    if es == [] then map[] else WithPointers(PointersAfter(es[..|es| - 1]), es[|es| - 1].compactPointers)
  }

  // ---------- reading a MANIFEST ----------

  function DecodedEdits(rs: seq<Bytes>): (es: seq<EditCodec.VersionEdit>)
    ensures |es| == |rs|
  {
    seq(|rs|, i requires 0 <= i < |rs| => DecodedEdit(rs[i]).0)
  }

  predicate GoodRecord(r: Bytes, comparator: Bytes) {
    var (e, status) := DecodedEdit(r);
    status.Ok? && (e.comparator.None? || e.comparator.value == comparator)
  }

  /** Some record sets the log number, some the next file number and some the last sequence number. */
  predicate AllMarks(m: seq<Record>) {
    && (exists i :: 0 <= i < |m| && m[i].log.Some?)
    && (exists i :: 0 <= i < |m| && m[i].next.Some?)
    && (exists i :: 0 <= i < |m| && m[i].last.Some?)
  }

  /** v has exactly the files that the records leave. */
  ghost predicate Rebuilds(m: seq<Record>, v: Levels) {
    |v| == NUM_LEVELS && forall l :: 0 <= l < NUM_LEVELS ==> SortedFiles(v[l]) && FileSet(v[l]) == Contents(m, l)
  }

  datatype Outcome = Corruption | Rebuilt(levels: Levels, log: nat, next: nat, last: nat, pointers: map<nat, Bytes>)

  ghost predicate Outcomes(m: seq<Record>, es: seq<EditCodec.VersionEdit>, o: Outcome)
    requires o.Rebuilt?
  {
    Rebuilds(m, o.levels) && o.log == MLog(m) && o.next == MNext(m) && o.last == MLast(m) && o.pointers == PointersAfter(es)
  }

  /** VersionSet::Recover, for records whose file numbers are new to the levels they go to. */
  method Recover(crc: Crc, file: Bytes, comparator: Bytes) returns (o: Outcome)
    requires AllFresh(ToRecords(DecodedEdits(ReadAll(crc, Opened(file)).0)))
    ensures var (rs, s) := ReadAll(crc, Opened(file));
            var es := DecodedEdits(rs);
            if s.reports == 0 && (forall r :: r in rs ==> GoodRecord(r, comparator)) && AllMarks(ToRecords(es))
            then o.Rebuilt? && Outcomes(ToRecords(es), es, o)
            else o.Corruption?
  {
    hide ReadAll, DecodedEdit;
    var reader := new Reader(crc, file);
    var rs := reader.ReadRecords();
    if reader.reports > 0 {
      return Corruption;
    }
    var ok, es := DecodeRecords(rs, comparator);
    if !ok {
      return Corruption;
    }
    assert es == DecodedEdits(rs);
    o := Apply(es);
  }

  method DecodeRecords(rs: seq<Bytes>, comparator: Bytes) returns (ok: bool, es: seq<EditCodec.VersionEdit>)
    ensures ok <==> forall r :: r in rs ==> GoodRecord(r, comparator)
    ensures ok ==> es == DecodedEdits(rs)
  {
    hide EditCodec.Decoded;
    es := [];
    for i := 0 to |rs|
      invariant es == DecodedEdits(rs[..i]) && forall j :: 0 <= j < i ==> GoodRecord(rs[j], comparator)
    {
      var e, status := EditCodec.DecodeFrom(EditCodec.Empty, rs[i]);
      assert (e, status) == DecodedEdit(rs[i]) && rs[i] in rs;
      if status.Corruption? || (e.comparator.Some? && e.comparator.value != comparator) {
        return false, es;
      }
      es := es + [e];
      assert rs[..i + 1] == rs[..i] + [rs[i]];
    }
    assert rs[..|rs|] == rs;
    ok := true;
  }

  /** Builder::Apply for every edit, with the numbers and compaction pointers they set; then SaveTo. */
  method Apply(es: seq<EditCodec.VersionEdit>) returns (o: Outcome)
    requires AllFresh(ToRecords(es))
    ensures if AllMarks(ToRecords(es)) then o.Rebuilt? && Outcomes(ToRecords(es), es, o) else o.Corruption?
  {
    var log, next, last, pointers := ReadMarks(es);
    if log.None? || next.None? || last.None? {
      return Corruption;
    }
    var v := ApplyFiles(es);
    o := Rebuilt(v, log.value, next.value, last.value, pointers);
  }

  ghost predicate LastMark(m: seq<Record>, n: nat, log: Option<nat>, next: Option<nat>, last: Option<nat>)
    requires n <= |m|
  {
    && (log.Some? <==> exists i :: 0 <= i < n && m[i].log.Some?) && (log.Some? ==> log.value == MLog(m[..n]))
    && (next.Some? <==> exists i :: 0 <= i < n && m[i].next.Some?) && (next.Some? ==> next.value == MNext(m[..n]))
    && (last.Some? <==> exists i :: 0 <= i < n && m[i].last.Some?) && (last.Some? ==> last.value == MLast(m[..n]))
  }

  lemma LastMarkStep(m: seq<Record>, n: nat, log: Option<nat>, next: Option<nat>, last: Option<nat>)
    requires n < |m| && LastMark(m, n, log, next, last)
    ensures LastMark(m, n + 1, if m[n].log.Some? then m[n].log else log, if m[n].next.Some? then m[n].next else next,
                     if m[n].last.Some? then m[n].last else last)
  {
    assert m[..n + 1] == m[..n] + [m[n]] && m[..n + 1][..n] == m[..n];
  }

  method ReadMarks(es: seq<EditCodec.VersionEdit>)
    returns (log: Option<nat>, next: Option<nat>, last: Option<nat>, pointers: map<nat, Bytes>)
    ensures LastMark(ToRecords(es), |es|, log, next, last) && pointers == PointersAfter(es)
    ensures log.Some? && next.Some? && last.Some? <==> AllMarks(ToRecords(es))
    ensures AllMarks(ToRecords(es)) ==>
              log.value == MLog(ToRecords(es)) && next.value == MNext(ToRecords(es)) && last.value == MLast(ToRecords(es))
  {
    log, next, last, pointers := None, None, None, map[];
    ghost var m := ToRecords(es);
    for i := 0 to |es|
      invariant LastMark(m, i, log, next, last) && pointers == PointersAfter(es[..i])
    {
      LastMarkStep(m, i, log, next, last);
      var e := es[i];
      if e.logNumber.Some? { log := e.logNumber; }
      if e.nextFile.Some? { next := e.nextFile; }
      if e.lastSequence.Some? { last := e.lastSequence; }
      pointers := ApplyPointers(pointers, e.compactPointers);
      assert es[..i + 1][..i] == es[..i];
    }
    assert es[..|es|] == es && m[..|es|] == m;
  }

  method ApplyPointers(p: map<nat, Bytes>, ps: seq<(nat, Bytes)>) returns (r: map<nat, Bytes>)
    ensures r == WithPointers(p, ps)
  {
    r := p;
    for i := 0 to |ps|
      invariant r == WithPointers(p, ps[..i])
    {
      r := r[ps[i].0 := ps[i].1];
      assert ps[..i + 1][..i] == ps[..i];
    }
    assert ps[..|ps|] == ps;
  }

  method ApplyFiles(es: seq<EditCodec.VersionEdit>) returns (v: Levels)
    requires AllFresh(ToRecords(es))
    ensures Rebuilds(ToRecords(es), v)
  {
    var base: Levels := seq(NUM_LEVELS, _ => []);
    var edits := seq(|es|, i requires 0 <= i < |es| => ToEdit(es[i]));
    FreshRecordsAreFreshRun(ToRecords(es), base);
    assert edits == Edits(ToRecords(es));
    v := Replay(base, edits);
    assert forall l :: 0 <= l < NUM_LEVELS ==> FileSet(base[l]) == {};
  }

  // ---------- the version installed last ----------

  lemma PrefixFresh(m: seq<Record>, k: nat)
    requires AllFresh(m) && k <= |m|
    ensures AllFresh(m[..k])
  {
    forall i | 0 <= i < k ensures FreshEdit(m[..k][..i], m[..k][i].edit) {
      assert m[..k][..i] == m[..i];
    }
  }

  /** Replaying the first k records gives the version after the k-th of the edits installed one at a time. */
  lemma RebuildsInstalled(m: seq<Record>, versions: seq<Levels>, k: nat, v: Levels)
    requires InstalledOneByOne(versions, Edits(m)) && versions[0] == seq(NUM_LEVELS, _ => []) && k <= |m| && Rebuilds(m[..k], v)
    ensures v == versions[k]
  {
    assert Edits(m[..k]) == Edits(m)[..k];
    OneByOneIsFold(versions, Edits(m), k, 0);
    forall l | 0 <= l < NUM_LEVELS ensures v[l] == versions[k][l] {
      OneByOneIsFold(versions, Edits(m), k, l);
      assert FileSet(versions[0][l]) == {};
      SortedIsUnique(v[l], versions[k][l]);
    }
  }

  function EditsIn(ws: seq<Durable.OrderedEdit>): (es: seq<EditCodec.VersionEdit>)
    ensures |es| == |ws|
  {
    seq(|ws|, i requires 0 <= i < |ws| => ws[i].edit)
  }

  /**
   A MANIFEST cut off after any byte: what is read back, decoded and replayed is the version after one of the edits
   that were written, installed one at a time; of the whole file, after the last of them.
   */
  lemma CutManifestRebuilds(crc: Crc, ws: seq<Durable.OrderedEdit>, n: nat, versions: seq<Levels>) returns (k: nat)
    requires (forall i :: 0 <= i < |ws| ==> WfEntry(ws[i])) && n <= |Log(crc, 0, EditRecords(ws))|
    requires AllFresh(ToRecords(EditsIn(ws)))
    requires InstalledOneByOne(versions, Edits(ToRecords(EditsIn(ws)))) && versions[0] == seq(NUM_LEVELS, _ => [])
    ensures var m := ToRecords(DecodedEdits(ReadAll(crc, Opened(Log(crc, 0, EditRecords(ws))[..n])).0));
            k <= |ws| && m == ToRecords(EditsIn(ws))[..k] && AllFresh(m) && forall v :: Rebuilds(m, v) ==> v == versions[k]
    ensures n == |Log(crc, 0, EditRecords(ws))| ==> k == |ws|
  {
    var all := ToRecords(EditsIn(ws));
    k := CutManifestReads(crc, ws, n);
    hide ReadAll, Log, AllFresh, InstalledOneByOne, Rebuilds, ToRecords, EditsIn, DecodedEdits;
    PrefixFresh(all, k);
    forall v | Rebuilds(all[..k], v) ensures v == versions[k] {
      RebuildsInstalled(all, versions, k, v);
    }
  }

  lemma CutManifestReads(crc: Crc, ws: seq<Durable.OrderedEdit>, n: nat) returns (k: nat)
    requires (forall i :: 0 <= i < |ws| ==> WfEntry(ws[i])) && n <= |Log(crc, 0, EditRecords(ws))|
    ensures var (rs, s) := ReadAll(crc, Opened(Log(crc, 0, EditRecords(ws))[..n]));
            k <= |ws| && s.reports == 0 && ToRecords(DecodedEdits(rs)) == ToRecords(EditsIn(ws))[..k]
            && DecodedEdits(rs) == EditsIn(ws)[..k] && |rs| == k && (forall i :: 0 <= i < k ==> DecodedEdit(rs[i]) == (ws[i].edit, EditCodec.Ok))
    ensures n == |Log(crc, 0, EditRecords(ws))| ==> k == |ws|
  {
    hide ReadAll, Log, EditRecords, DecodedEdit, WfEntry;
    k := CutManifestHoldsWholeEdits(crc, ws, n);
    var rs := ReadAll(crc, Opened(Log(crc, 0, EditRecords(ws))[..n])).0;
    assert DecodedEdits(rs) == EditsIn(ws)[..k];
    assert ToRecords(EditsIn(ws)[..k]) == ToRecords(EditsIn(ws))[..k];
  }

  // ---------- in every run ----------

  function MetaLevels(v: Levels): (r: Levels)
    ensures |r| == |v|
  {
    seq(|v|, l requires 0 <= l < |v| => MetaFiles(v[l]))
  }

  lemma RebuildsDescribed(m: seq<Record>, v: Levels, d: Levels)
    requires Rebuilds(m, v) && Describes(m, d)
    ensures v == MetaLevels(d)
  {
    forall l | 0 <= l < NUM_LEVELS ensures v[l] == MetaFiles(d[l]) {
      MetaSorted(d[l]);
      SortedIsUnique(v[l], MetaFiles(d[l]));
    }
  }

  /**
   In every state of every run, the bytes of the MANIFEST are read back to the version and the numbers that opening
   starts from; the file numbers handed out by the run are what the builder needs them to be.
   */
  lemma EveryRunReadsItsManifest(crc: Crc, states: seq<Recovery.State>, n: nat, ws: seq<Durable.OrderedEdit>, v: Levels)
    requires Recovery.Run(states) && n < |states| && states[n].disk.manifest == ToRecords(EditsIn(ws))
    requires forall i :: 0 <= i < |ws| ==> WfEntry(ws[i])
    ensures var (rs, s) := ReadAll(crc, Opened(Log(crc, 0, EditRecords(ws))));
            var m := ToRecords(DecodedEdits(rs));
            s.reports == 0 && m == states[n].disk.manifest && AllFresh(m) && AllMarks(m)
            && forall nums, d :: Rebuilds(m, v) && Recovery.Recovered(states[n].disk, nums, d) ==> v == MetaLevels(d.levels)
  {
    hide ReadAll, Log, ToRecords, EditsIn, DecodedEdits, EditRecords, DecodedEdit, WfEntry;
    var file, m := Log(crc, 0, EditRecords(ws)), states[n].disk.manifest;
    var k := CutManifestReads(crc, ws, |file|);
    assert file[..|file|] == file && m[..|m|] == m;
    ManifestFacts(states, n);
    forall nums, d | Rebuilds(m, v) && Recovery.Recovered(states[n].disk, nums, d) ensures v == MetaLevels(d.levels) {
      RebuildsDescribed(m, v, d.levels);
    }
  }

  lemma ManifestFacts(states: seq<Recovery.State>, n: nat)
    requires Recovery.Run(states) && n < |states|
    ensures AllFresh(states[n].disk.manifest) && AllMarks(states[n].disk.manifest)
  {
    hide Recovery.Inv, RecoveryDisk.StandsFor, AllFresh;
    RecoveryProofs.RunInv(states, n);
    var dd := RecoveryDisk.DiskStands(states[n]);
    RecoveryProofs.StandsParts(states[n].disk, dd);
    var m := states[n].disk.manifest;
    var last := |m| - 1;
    assert m[last].log.Some? && m[last].next.Some? && m[last].last.Some?;
  }
}
