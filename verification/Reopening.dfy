/** DBImpl::Recover on bytes: from MANIFEST, log files and tables back to the database. */
module Reopening {
  import opened Keys
  import opened Tables
  import opened LogFormat
  import opened LogReading
  import opened Durable
  import opened Manifest
  import opened LogFiles
  import opened Recovery
  import Coding
  import WriteBatch
  import EditCodec
  import ManifestReplay
  import RecoveryDisk
  import RecoveryProofs
  import Compacting
  import DropRule
  import Reads
  import Lsm = LsmStates

  // ---------- log records as entries ----------

  function EntryOf(op: WriteBatch.Op, sn: SeqNum): Entry {
    match op
    case Put(k, v) => Entry(Rank(k), sn, Value, v)
    case Delete(k) => Entry(Rank(k), sn, Deletion, [])
  }

  /** A batch as DBImpl::Write numbers it. */
  ghost predicate WfLogged(b: Durable.Batch) { WfBatch(b) && 1 <= b.sn && b.sn + |b.ops| <= MAX_SEQUENCE }

  function EntriesOf(b: Durable.Batch): (es: LogFiles.Batch)
    requires b.sn + |b.ops| <= MAX_SEQUENCE
    ensures |es| == |b.ops|
  {
    seq(|b.ops|, i requires 0 <= i < |b.ops| => EntryOf(b.ops[i], b.sn + i))
  }

  ghost predicate AllLogged(bs: seq<Durable.Batch>) { forall i :: 0 <= i < |bs| ==> WfLogged(bs[i]) }

  ghost function BatchesOf(bs: seq<Durable.Batch>): (r: seq<LogFiles.Batch>)
    requires AllLogged(bs)
    ensures |r| == |bs|
  {
    seq(|bs|, i requires 0 <= i < |bs| => EntriesOf(bs[i]))
  }

  /** max is at least every sequence number of es and of what went before. */
  ghost predicate Covers(max: nat, max0: nat, es: seq<Entry>) {
    max0 <= max < MAX_SEQUENCE && forall e :: e in es ==> e.sn <= max
  }

  /** The memtable so far, and what it must stay part of. */
  ghost predicate Replaying(mem: seq<Entry>, mem0: seq<Entry>, done: seq<Entry>, all: seq<Entry>) {
    && Sorted(mem) && (forall e :: e in mem <==> e in mem0 || e in done)
    && DropRule.Numbered(DropRule.Entries(all)) && (forall e :: e in mem ==> e in all)
  }

  /** WriteBatchInternal::InsertInto, and the largest sequence number so far. */
  method InsertRecord(r: Bytes, mem0: seq<Entry>, max0: nat, ghost b: Durable.Batch, ghost all: seq<Entry>)
    returns (mem: seq<Entry>, max: nat)
    requires ReadsAs(r, b) && WfLogged(b) && Replaying(mem0, mem0, [], all) && max0 < MAX_SEQUENCE
    requires forall e :: e in EntriesOf(b) ==> e in all
    ensures Replaying(mem, mem0, EntriesOf(b), all) && Covers(max, max0, EntriesOf(b))
  {
    hide WriteBatch.Iterated, Coding.DecodeFixed, DropRule.Numbered, Sorted;
    var batch := new WriteBatch.Batch();
    batch.rep := r;
    var ops, status := batch.Iterate();
    assert ops == b.ops && status.Ok?;
    var sn := Coding.DecodeFixed(r[..8]);
    mem := InsertOps(sn, ops, mem0, b, all);
    var last := sn + |ops| - 1;
    max := if last > max0 then last else max0;
    hide Replaying;
    forall e | e in EntriesOf(b) ensures e.sn <= last { EntryNumber(b, e); }
  }

  lemma EntryNumber(b: Durable.Batch, e: Entry)
    requires b.sn + |b.ops| <= MAX_SEQUENCE && e in EntriesOf(b)
    ensures e.sn < b.sn + |b.ops|
  {
  }

  method InsertOps(sn: nat, ops: seq<WriteBatch.Op>, mem0: seq<Entry>, ghost b: Durable.Batch, ghost all: seq<Entry>)
    returns (mem: seq<Entry>)
    requires b.sn + |b.ops| <= MAX_SEQUENCE && sn == b.sn && ops == b.ops && Replaying(mem0, mem0, [], all)
    requires forall e :: e in EntriesOf(b) ==> e in all
    ensures Replaying(mem, mem0, EntriesOf(b), all)
  {
    hide DropRule.Numbered, Sorted;
    mem := mem0;
    ghost var es := EntriesOf(b);
    for i := 0 to |ops|
      invariant Replaying(mem, mem0, es[..i], all)
    {
      var e := EntryOf(ops[i], sn + i);
      assert e == es[i] && e in es;
      NumberedWith(all, mem, e);
      mem := Compacting.InsertEntry(mem, e);
      assert es[..i + 1] == es[..i] + [e];
    }
    assert es[..|ops|] == es;
  }

  lemma NumberedWith(all: seq<Entry>, mem: seq<Entry>, e: Entry)
    requires DropRule.Numbered(DropRule.Entries(all)) && e in all && forall x :: x in mem ==> x in all
    ensures DropRule.Numbered(DropRule.Entries(mem) + {e})
  {
    assert forall x :: x in DropRule.Entries(mem) + {e} ==> x in DropRule.Entries(all);
  }

  lemma NextBatch(bs: seq<Durable.Batch>, i: nat)
    requires AllLogged(bs) && i < |bs|
    ensures WfLogged(bs[i]) && AllLogged(bs[..i])
    ensures AllLogged(bs[..i + 1])
    ensures Flat(BatchesOf(bs[..i + 1])) == Flat(BatchesOf(bs[..i])) + EntriesOf(bs[i])
    ensures forall e :: e in EntriesOf(bs[i]) ==> e in Flat(BatchesOf(bs))
  {
    var r := BatchesOf(bs);
    assert BatchesOf(bs[..i + 1]) == r[..i + 1] && BatchesOf(bs[..i]) == r[..i];
    assert r[..i + 1] == r[..i] + [r[i]];
    FlatConcat(r[..i], [r[i]]);
    FlatOne(r[i]);
    FlatSplit(r, i + 1);
  }

  lemma ReplayingMore(mem: seq<Entry>, mem0: seq<Entry>, done: seq<Entry>, mem': seq<Entry>, es: seq<Entry>, all: seq<Entry>)
    requires Replaying(mem, mem0, done, all) && Replaying(mem', mem, es, all)
    ensures Replaying(mem', mem0, done + es, all)
  {
    hide Sorted, DropRule.Numbered;
  }

  lemma ReplayingSelf(mem: seq<Entry>, mem0: seq<Entry>, done: seq<Entry>, all: seq<Entry>)
    requires Replaying(mem, mem0, done, all)
    ensures Replaying(mem, mem, [], all)
  {
    hide Sorted, DropRule.Numbered;
  }

  /** RecoverLogFile: the records of one log go into the memtable. */
  method RecoverLogFile(crc: Crc, file: Bytes, mem0: seq<Entry>, max0: nat, ghost bs: seq<Durable.Batch>, ghost all: seq<Entry>)
    returns (mem: seq<Entry>, max: nat)
    requires AllLogged(bs) && file == Log(crc, 0, BatchRecords(bs))
    requires Replaying(mem0, mem0, [], all) && max0 < MAX_SEQUENCE && forall e :: e in Flat(BatchesOf(bs)) ==> e in all
    ensures Replaying(mem, mem0, Flat(BatchesOf(bs)), all) && Covers(max, max0, Flat(BatchesOf(bs)))
  {
    hide ReadAll, Log, ReadsAs, Replaying, Flat;
    assert file[..|file|] == file;
    ghost var k := CutLogHoldsWholeBatches(crc, bs, |file|);
    var reader := new Reader(crc, file);
    var rs := reader.ReadRecords();
    mem, max := mem0, max0;
    assert bs[..0] == [] && BatchesOf([]) == [];
    FlatNone();
    for i := 0 to |rs|
      invariant AllLogged(bs[..i]) && Replaying(mem, mem0, Flat(BatchesOf(bs[..i])), all)
      invariant Covers(max, max0, Flat(BatchesOf(bs[..i])))
    {
      NextBatch(bs, i);
      ghost var was := mem;
      ReplayingSelf(mem, mem0, Flat(BatchesOf(bs[..i])), all);
      mem, max := InsertRecord(rs[i], mem, max, bs[i], all);
      ReplayingMore(was, mem0, Flat(BatchesOf(bs[..i])), mem, EntriesOf(bs[i]), all);
    }
    assert bs[..|bs|] == bs;
  }

  lemma FlatNone()
    ensures Flat([]) == []
  {
  }

  // ---------- which logs ----------

  /** The logs at least min among the files of the directory, sorted. */
  method LogsToRecover(names: seq<nat>, min: nat) returns (nums: seq<nat>)
    ensures forall i, j :: 0 <= i < j < |nums| ==> nums[i] < nums[j]
    ensures forall x :: x in nums <==> x in names && min <= x
  {
    nums := [];
    for i := 0 to |names|
      invariant forall i, j :: 0 <= i < j < |nums| ==> nums[i] < nums[j]
      invariant forall x :: x in nums <==> x in names[..i] && min <= x
    {
      var n := names[i];
      if min <= n { nums := InsertNumber(nums, n); }
      assert names[..i + 1] == names[..i] + [n];
    }
    assert names[..|names|] == names;
  }

  method InsertNumber(nums: seq<nat>, n: nat) returns (r: seq<nat>)
    requires forall i, j :: 0 <= i < j < |nums| ==> nums[i] < nums[j]
    ensures forall i, j :: 0 <= i < j < |r| ==> r[i] < r[j]
    ensures forall x :: x in r <==> x in nums || x == n
  {
    var p := 0;
    while p < |nums| && nums[p] < n
      invariant 0 <= p <= |nums| && forall i :: 0 <= i < p ==> nums[i] < n
    {
      p := p + 1;
    }
    assert nums == nums[..p] + nums[p..];
    if p < |nums| && nums[p] == n { return nums; }
    r := nums[..p] + [n] + nums[p..];
  }

  // ---------- the tables ----------

  method FillFiles(fs: seq<File>, tables: map<nat, seq<Entry>>) returns (ok: bool, r: seq<File>)
    ensures ok <==> forall f :: f in fs ==> f.number in tables
    ensures ok ==> |r| == |fs| && forall i :: 0 <= i < |fs| ==> fs[i].number in tables && r[i] == fs[i].(entries := tables[fs[i].number])
  {
    r := [];
    for i := 0 to |fs|
      invariant |r| == i
      invariant forall j :: 0 <= j < i ==> fs[j].number in tables && r[j] == fs[j].(entries := tables[fs[j].number])
    {
      if fs[i].number !in tables { return false, r; }
      r := r + [fs[i].(entries := tables[fs[i].number])];
    }
    ok := true;
  }

  lemma FilledFiles(fs: seq<File>, tables: map<nat, seq<Entry>>, r: seq<File>)
    requires forall f :: f in fs ==> f.number in tables && tables[f.number] == f.entries
    requires |r| == |fs| && forall i :: 0 <= i < |fs| ==> MetaFiles(fs)[i].number in tables && r[i] == MetaFiles(fs)[i].(entries := tables[MetaFiles(fs)[i].number])
    ensures r == fs
  {
    forall i | 0 <= i < |fs| ensures r[i] == fs[i] { assert fs[i] in fs; }
  }

  /** The files that the version expects are looked for, and found. */
  method FillTables(v: Levels, tables: map<nat, seq<Entry>>, ghost d: Levels) returns (r: Levels)
    requires v == ManifestReplay.MetaLevels(d) && Tabled(d, tables)
    ensures r == d
  {
    r := [];
    for l := 0 to |v|
      invariant r == d[..l]
    {
      ghost var fs := d[l];
      assert v[l] == MetaFiles(fs) && forall f :: f in fs ==> f.number in tables && tables[f.number] == f.entries;
      MetaNumbers(fs, tables);
      var ok, filled := FillFiles(v[l], tables);
      assert ok;
      FilledFiles(fs, tables, filled);
      r := r + [filled];
    }
  }

  lemma MetaNumbers(fs: seq<File>, tables: map<nat, seq<Entry>>)
    requires forall f :: f in fs ==> f.number in tables
    ensures forall f :: f in MetaFiles(fs) ==> f.number in tables
  {
    forall f | f in MetaFiles(fs) ensures f.number in tables {
      var i :| 0 <= i < |fs| && MetaFiles(fs)[i] == f;
      assert fs[i] in fs;
    }
  }

  // ---------- the whole of DBImpl::Recover ----------

  /** The bytes on disk are those of the records and batches of the model's disk. */
  ghost predicate Bytewise(crc: Crc, manifest: Bytes, comparator: Bytes, logs: map<nat, Bytes>, disk: Disk, ws: seq<Durable.OrderedEdit>, bs: map<nat, seq<Durable.Batch>>) {
    && (forall i :: 0 <= i < |ws| ==> WfEntry(ws[i]) && (ws[i].edit.comparator.None? || ws[i].edit.comparator.value == comparator))
    && disk.manifest == ManifestReplay.ToRecords(ManifestReplay.EditsIn(ws)) && manifest == Log(crc, 0, EditRecords(ws))
    && logs.Keys == disk.l.files.Keys == bs.Keys
    && (forall x :: x in logs ==> LogBytes(crc, logs[x], disk.l.files[x], bs[x]))
  }

  ghost predicate LogBytes(crc: Crc, file: Bytes, batches: seq<LogFiles.Batch>, bs: seq<Durable.Batch>) {
    AllLogged(bs) && file == Log(crc, 0, BatchRecords(bs)) && batches == BatchesOf(bs)
  }

  /** VersionSet::Recover, and the check that no table is missing. */
  method RecoverVersion(crc: Crc, manifest: Bytes, comparator: Bytes, tables: map<nat, seq<Entry>>, ghost disk: Disk, ghost dd: Lsm.Db,
                        ghost ws: seq<Durable.OrderedEdit>)
    returns (levels: Levels, log: nat, next: nat, last: nat)
    requires RecoveryDisk.StandsFor(disk, dd) && tables == disk.tables
    requires forall i :: 0 <= i < |ws| ==> WfEntry(ws[i]) && (ws[i].edit.comparator.None? || ws[i].edit.comparator.value == comparator)
    requires disk.manifest == ManifestReplay.ToRecords(ManifestReplay.EditsIn(ws)) && manifest == Log(crc, 0, EditRecords(ws))
    ensures levels == dd.levels && log == MLog(disk.manifest) && next == MNext(disk.manifest) && last == MLast(disk.manifest)
  {
    hide ReadAll, Log, EditRecords, DecodedEdit, WfEntry, RecoveryDisk.StandsFor, AllFresh, ManifestReplay.ToRecords, ManifestReplay.EditsIn,
      ManifestReplay.DecodedEdits, ManifestReplay.Rebuilds;
    assert manifest[..|manifest|] == manifest;
    ghost var k := ManifestReplay.CutManifestReads(crc, ws, |manifest|);
    assert disk.manifest[..|disk.manifest|] == disk.manifest;
    DiskMarks(disk, dd);
    ghost var rs := ReadAll(crc, Opened(manifest)).0;
    forall r | r in rs ensures ManifestReplay.GoodRecord(r, comparator) {
      var i :| 0 <= i < |rs| && rs[i] == r;
      assert DecodedEdit(rs[i]) == (ws[i].edit, EditCodec.Ok);
    }
    var o := ManifestReplay.Recover(crc, manifest, comparator);
    ManifestReplay.RebuildsDescribed(disk.manifest, o.levels, dd.levels);
    levels := FillTables(o.levels, tables, dd.levels);
    log, next, last := o.log, o.next, o.last;
  }

  lemma DiskMarks(disk: Disk, dd: Lsm.Db)
    requires RecoveryDisk.StandsFor(disk, dd)
    ensures AllFresh(disk.manifest) && ManifestReplay.AllMarks(disk.manifest) && Describes(disk.manifest, dd.levels) && Tabled(dd.levels, disk.tables)
    ensures MLast(disk.manifest) < MAX_SEQUENCE
  {
    hide LogsOk, LogsKept, SeqOk, Increasing, Flat, Lsm.Inv, AllFresh, Describes, Tabled;
    var m, last := disk.manifest, |disk.manifest| - 1;
    assert m[last].log.Some? && m[last].next.Some? && m[last].last.Some?;
  }

  lemma NextLog(files: map<nat, seq<LogFiles.Batch>>, nums: seq<nat>, i: nat)
    requires (forall x :: x in nums ==> x in files) && i < |nums|
    ensures nums[i] in files && (forall x :: x in nums[..i] ==> x in files) && forall x :: x in nums[..i + 1] ==> x in files
    ensures Flat(Replayed(files, nums[..i + 1])) == Flat(Replayed(files, nums[..i])) + Flat(files[nums[i]])
    ensures forall e :: e in Flat(files[nums[i]]) ==> e in Flat(Replayed(files, nums))
  {
    hide Flat;
    assert nums[i] in nums && nums[..i + 1] == nums[..i] + [nums[i]];
    ReplayedAppend(files, nums[..i], [nums[i]]);
    assert [nums[i]][1..] == [] && Replayed(files, [nums[i]]) == files[nums[i]] + [];
    assert Replayed(files, nums[..i + 1]) == Replayed(files, nums[..i]) + files[nums[i]];
    FlatConcat(Replayed(files, nums[..i]), files[nums[i]]);
    ReplayedAppend(files, nums[..i + 1], nums[i + 1..]);
    assert nums == nums[..i + 1] + nums[i + 1..];
    FlatConcat(Replayed(files, nums[..i + 1]), Replayed(files, nums[i + 1..]));
  }

  lemma {:induction false} ReplayedAppend(files: map<nat, seq<LogFiles.Batch>>, a: seq<nat>, b: seq<nat>)
    requires forall x :: x in a + b ==> x in files
    ensures (forall x :: x in a ==> x in files) && (forall x :: x in b ==> x in files)
    ensures Replayed(files, a + b) == Replayed(files, a) + Replayed(files, b)
  {
    assert forall x :: x in a || x in b ==> x in a + b;
    if a == [] {
      assert a + b == b;
    } else {
      assert a[1..] + b == (a + b)[1..];
      ReplayedAppend(files, a[1..], b);
    }
  }

  /** The logs in order, and MarkFileNumberUsed after each of them. */
  method ReplayLogs(crc: Crc, logs: map<nat, Bytes>, nums: seq<nat>, last: nat, next: nat, ghost files: map<nat, seq<LogFiles.Batch>>,
                    ghost bs: map<nat, seq<Durable.Batch>>, ghost all: seq<Entry>)
    returns (mem: seq<Entry>, max: nat, next': nat)
    requires (forall x :: x in nums ==> x in logs && x in files && x in bs && LogBytes(crc, logs[x], files[x], bs[x])) && last < MAX_SEQUENCE
    requires DropRule.Numbered(DropRule.Entries(all)) && forall e :: e in Flat(Replayed(files, nums)) ==> e in all
    ensures Replaying(mem, [], Flat(Replayed(files, nums)), all) && Covers(max, last, Flat(Replayed(files, nums))) && next <= next'
    ensures forall x :: x in nums ==> x < next'
  {
    hide Replaying, Flat, Log, DropRule.Numbered;
    mem, max, next' := [], last, next;
    NothingReplayed(files, nums, all);
    for i := 0 to |nums|
      invariant (forall x :: x in nums[..i] ==> x in files) && Replaying(mem, [], Flat(Replayed(files, nums[..i])), all)
      invariant Covers(max, last, Flat(Replayed(files, nums[..i]))) && next <= next' && forall x :: x in nums[..i] ==> x < next'
    {
      NextLog(files, nums, i);
      var x := nums[i];
      assert x in nums && LogBytes(crc, logs[x], files[x], bs[x]);
      ghost var was := mem;
      ReplayingSelf(mem, [], Flat(Replayed(files, nums[..i])), all);
      mem, max := RecoverLogFile(crc, logs[x], mem, max, bs[x], all);
      ReplayingMore(was, [], Flat(Replayed(files, nums[..i])), mem, Flat(files[x]), all);
      if next' <= x { next' := x + 1; }
      assert nums[..i + 1] == nums[..i] + [x];
    }
    assert nums[..|nums|] == nums;
  }

  lemma NothingReplayed(files: map<nat, seq<LogFiles.Batch>>, nums: seq<nat>, all: seq<Entry>)
    requires DropRule.Numbered(DropRule.Entries(all))
    ensures nums[..0] == [] && Flat(Replayed(files, [])) == [] && Replaying([], [], [], all)
  {
  }

  lemma {:induction false} MaxSnLeast(es: seq<Entry>, floor: nat, max: nat)
    requires floor <= max && forall e :: e in es ==> e.sn <= max
    ensures MaxSn(es, floor) <= max
  {
    if es != [] {
      assert es == es[..|es| - 1] + [es[|es| - 1]];
      MaxSnLeast(es[..|es| - 1], floor, max);
    }
  }

  /**
   Opening the database from the bytes that a run has left on disk at any of its states: the result has the whole history
   of logged batches, and a read of any key returns its last logged write.
   */
  method Open(crc: Crc, manifest: Bytes, comparator: Bytes, names: seq<nat>, logs: map<nat, Bytes>, tables: map<nat, seq<Entry>>,
              ghost states: seq<Recovery.State>, ghost n: nat, ghost ws: seq<Durable.OrderedEdit>, ghost bs: map<nat, seq<Durable.Batch>>)
    returns (levels: Levels, mem: seq<Entry>, lastSequence: nat, nextFile: nat)
    requires Run(states) && n < |states| && tables == states[n].disk.tables && (forall x :: x in names <==> x in logs)
    requires Bytewise(crc, manifest, comparator, logs, states[n].disk, ws, bs)
    ensures var d := Lsm.Db(Flat(states[n].disk.l.history), lastSequence, mem, None, levels, nextFile, None);
            (exists nums :: Recovered(states[n].disk, nums, d)) && Lsm.Inv(d) && forall u :: Reads.ReadsLastWrite(d, u)
  {
    hide Run, Inv, RecoveryDisk.StandsFor, LogBytes, Log, Recovered, Lsm.Inv, Reads.ReadsLastWrite, WfEntry, Replaying, Flat,
      ManifestReplay.ToRecords, ManifestReplay.EditsIn, EditRecords;
    RecoveryProofs.RunInv(states, n);
    ghost var disk := states[n].disk;
    ghost var dd := RecoveryDisk.DiskStands(states[n]);
    var log, next, last;
    levels, log, next, last := RecoverVersion(crc, manifest, comparator, tables, disk, dd, ws);
    var nums := LogsToRecover(names, log);
    assert LogsFrom(disk.l.files, MLog(disk.manifest), nums);
    ReplayPart(disk, dd, nums);
    DiskMarks(disk, dd);
    mem, lastSequence, nextFile := ReplayLogs(crc, logs, nums, last, next + 1, disk.l.files, bs, dd.history);
    ghost var d := Lsm.Db(Flat(disk.l.history), lastSequence, mem, None, levels, nextFile, None);
    IsRecovered(disk, dd, nums, d);
    forall u ensures Lsm.Inv(d) && Reads.ReadsLastWrite(d, u) { RecoveryProofs.EveryRunRecovers(states, n, nums, d, u); }
    RecoveryProofs.EveryRunRecovers(states, n, nums, d, 0.0);
  }

  lemma ReplayPart(disk: Disk, dd: Lsm.Db, nums: seq<nat>)
    requires RecoveryDisk.StandsFor(disk, dd) && LogsFrom(disk.l.files, MLog(disk.manifest), nums)
    ensures (forall x :: x in nums ==> x in disk.l.files) && dd.history == Flat(disk.l.history)
    ensures forall e :: e in Flat(Replayed(disk.l.files, nums)) ==> e in dd.history
    ensures DropRule.Numbered(DropRule.Entries(dd.history))
  {
    RecoveryProofs.StandsParts(disk, dd);
    InvOf(disk, dd);
    RecoveryDisk.InvParts(dd);
    hide RecoveryDisk.StandsFor, LogsOk, LogsKept, SeqOk, Increasing, Flat, Lsm.Inv, ManifestOk, DropRule.Numbered;
    var k :| RecoveryDisk.StandsAt(disk, dd, k);
    ReplayIsSuffix(disk.l, MLog(disk.manifest), k, nums);
    FlatSplit(disk.l.history, disk.l.Start(k));
  }

  lemma InvOf(disk: Disk, dd: Lsm.Db)
    requires RecoveryDisk.StandsFor(disk, dd)
    ensures Lsm.Inv(dd)
  {
    hide LogsOk, LogsKept, SeqOk, Increasing, Flat, Lsm.Inv, ManifestOk, Tabled;
  }

  lemma IsRecovered(disk: Disk, dd: Lsm.Db, nums: seq<nat>, d: Lsm.Db)
    requires RecoveryDisk.StandsFor(disk, dd) && LogsFrom(disk.l.files, MLog(disk.manifest), nums) && d.levels == dd.levels
    requires (forall x :: x in nums ==> x in disk.l.files) && DropRule.Numbered(DropRule.Entries(dd.history))
    requires Replaying(d.mem, [], Flat(Replayed(disk.l.files, nums)), dd.history)
    requires Covers(d.lastSequence, MLast(disk.manifest), Flat(Replayed(disk.l.files, nums))) && MNext(disk.manifest) <= d.nextFile
    requires d.history == Flat(disk.l.history) && d.imm.None? && d.running.None?
    ensures Recovered(disk, nums, d)
  {
    hide RecoveryDisk.StandsFor, DropRule.Numbered, Flat, Sorted, Describes, Tabled;
    DiskMarks(disk, dd);
    MaxSnLeast(Flat(Replayed(disk.l.files, nums)), MLast(disk.manifest), d.lastSequence);
  }
}
