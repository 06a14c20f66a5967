/** From the disk alone to a database that has lost nothing. */
module RecoveryDisk {
  import opened Keys
  import opened Tables
  import opened Picking
  import opened VersionBuilder
  import opened Manifest
  import opened LogFiles
  import opened Recovery
  import DropRule
  import DbImpl
  import Lsm = LsmStates
  import LsmProofs

  // ---------- sorting ----------

  ghost function Inserted(es: seq<Entry>, e: Entry): seq<Entry> {
    if es == [] || Before(e.Key(), es[0].Key()) then [e] + es
    else if es[0] == e then es
    else [es[0]] + Inserted(es[1..], e)
  }

  lemma {:induction false} InsertedMembers(es: seq<Entry>, e: Entry)
    ensures forall x :: x in Inserted(es, e) <==> x in es || x == e
  {
    if es != [] { InsertedMembers(es[1..], e); }
  }

  lemma {:induction false} InsertedSorted(es: seq<Entry>, e: Entry)
    requires Sorted(es) && forall x :: x in es && x.Key() == e.Key() ==> x == e
    ensures Sorted(Inserted(es, e))
  {
    if es != [] {
      var rest := Inserted(es[1..], e);
      InsertedSorted(es[1..], e);
      InsertedMembers(es[1..], e);
      BeforeIsStrictTotalOrder(es[0].Key(), e.Key(), es[0].Key());
      if Before(e.Key(), es[0].Key()) {
        forall j | 0 <= j < |es| ensures Before(e.Key(), es[j].Key()) {
          BeforeIsStrictTotalOrder(e.Key(), es[0].Key(), es[j].Key());
        }
      } else if es[0] != e {
        assert es[0] in es;
        forall j | 0 <= j < |rest| ensures Before(es[0].Key(), rest[j].Key()) {
          assert rest[j] in rest;
          FirstIsBefore(es, rest[j], e);
        }
      }
    }
  }

  lemma FirstIsBefore(es: seq<Entry>, x: Entry, e: Entry)
    requires Sorted(es) && es != [] && (x in es[1..] || x == e) && Before(es[0].Key(), e.Key())
    ensures Before(es[0].Key(), x.Key())
  {
  }

  ghost function InOrder(es: seq<Entry>): seq<Entry> {
    if es == [] then [] else Inserted(InOrder(es[..|es| - 1]), es[|es| - 1])
  }

  lemma {:induction false} InOrderOk(es: seq<Entry>)
    requires DropRule.Numbered(DropRule.Entries(es))
    ensures Sorted(InOrder(es)) && SameEntries(InOrder(es), es)
  {
    if es != [] {
      var n := |es| - 1;
      assert es == es[..n] + [es[n]];
      assert forall x :: x in DropRule.Entries(es[..n]) ==> x in DropRule.Entries(es);
      InOrderOk(es[..n]);
      InsertedMembers(InOrder(es[..n]), es[n]);
      forall x | x in InOrder(es[..n]) && x.Key() == es[n].Key() ensures x == es[n] {
        assert x in DropRule.Entries(es) && es[n] in DropRule.Entries(es);
      }
      InsertedSorted(InOrder(es[..n]), es[n]);
    }
  }

  lemma {:induction false} MaxSnBounds(es: seq<Entry>, floor: nat)
    ensures floor <= MaxSn(es, floor) && (forall e :: e in es ==> e.sn <= MaxSn(es, floor))
    ensures MaxSn(es, floor) == floor || exists e :: e in es && e.sn == MaxSn(es, floor)
  {
    if es != [] {
      var n := |es| - 1;
      MaxSnBounds(es[..n], floor);
      assert es == es[..n] + [es[n]];
      assert es[n] in es;
    }
  }

  // ---------- what the disk stands for ----------

  /** e is in the history from the start of log k on. */
  ghost predicate InTail(l: Logs, k: nat, e: Entry) { l.Start(k) <= |l.history| && e in Flat(l.history[l.Start(k)..]) }

  /** e is in the batch that is logged and still to be inserted. */
  ghost predicate InLast(l: Logs, inserting: bool, e: Entry) {
    inserting && l.history != [] && e in l.history[|l.history| - 1]
  }

  /** From batch number Start(k) on, the history is in the logs that opening replays and in the memtables of dd. */
  ghost predicate StandsAt(disk: Disk, dd: Lsm.Db, k: nat) {
    && SplitsAt(disk.l.list, MLog(disk.manifest), k) && disk.l.Start(k) <= |disk.l.history|
    && (forall e :: Lsm.InMem(dd, e) <==> InTail(disk.l, k, e))
  }

  /** The disk stands for dd: a database that meets the invariant and whose history is every batch ever logged. */
  ghost predicate StandsFor(disk: Disk, dd: Lsm.Db) {
    && LogsOk(disk.l) && LogsKept(disk.l, MLog(disk.manifest))
    && Lsm.Inv(dd) && Tabled(dd.levels, disk.tables) && ManifestOk(disk.manifest, dd.levels, MLog(disk.manifest), MNext(disk.manifest))
    && SeqOk(disk.l, MLog(disk.manifest), MLast(disk.manifest))
    && dd.history == Flat(disk.l.history) && Increasing(dd.history)
    && exists k :: StandsAt(disk, dd, k)
  }

  lemma NumbersHold(v: Levels, next: nat, next': nat)
    requires Lsm.FileNumbers(v, next) && forall n: nat :: Names(v, n) ==> n < next'
    ensures Lsm.FileNumbers(v, next')
  {
    forall l, f | 0 <= l < |v| && f in v[l] ensures f.number < next' {
      assert Names(v, f.number);
    }
  }

  /** Whatever DBImpl::Recover makes of the disk is dd again, in one memtable. */
  lemma RecoveredIsRecover(disk: Disk, dd: Lsm.Db, nums: seq<nat>, d: Lsm.Db)
    requires StandsFor(disk, dd) && Recovered(disk, nums, d)
    ensures Lsm.Recover(dd, d) && Lsm.Inv(d)
  {
    hide Lsm.Inv, Describes, Tabled, LogsOk, LogsKept, LogsFrom, SeenOk, Increasing;
    var k :| StandsAt(disk, dd, k);
    DescribedOnce(disk.manifest, disk.tables, dd.levels, d.levels);
    ReplayIsSuffix(disk.l, MLog(disk.manifest), k, nums);
    var start, last := disk.l.Start(k), MLast(disk.manifest);
    var replay := Flat(Replayed(disk.l.files, nums));
    assert replay == Flat(disk.l.history[start..]);
    FlatSplit(disk.l.history, start);
    MaxSnBounds(replay, last);
    InvParts(dd);
    forall e | e in dd.history ensures e.sn <= d.lastSequence {
      assert e in Flat(disk.l.history[..start]) || e in replay;
    }
    NumbersHold(dd.levels, dd.nextFile, d.nextFile);
    assert Lsm.Recover(dd, d);
    LsmProofs.RecoverInv(dd, d);
  }

  lemma InvParts(d: Lsm.Db)
    requires Lsm.Inv(d)
    ensures Lsm.FileNumbers(d.levels, d.nextFile) && d.lastSequence < MAX_SEQUENCE
    ensures forall e :: e in d.history ==> e.sn <= d.lastSequence
    ensures DropRule.Numbered(DropRule.Entries(d.history))
    ensures VersionInv(d.levels) && Shape(d.levels)
    ensures forall e :: Lsm.Stored(d, e) ==> e in d.history
    ensures Sorted(d.mem) && (d.imm.Some? ==> Sorted(d.imm.value))
  {
  }

  /** Opening always succeeds: no table is missing. */
  lemma RecoverySucceeds(disk: Disk, dd: Lsm.Db, nums: seq<nat>) returns (d: Lsm.Db)
    requires StandsFor(disk, dd) && LogsFrom(disk.l.files, MLog(disk.manifest), nums)
    ensures Recovered(disk, nums, d)
  {
    hide Lsm.Inv, Describes, Tabled, LogsOk, LogsKept, DropRule.Numbered, SeenOk, Increasing, SeqOk;
    var k :| StandsAt(disk, dd, k);
    ReplayIsSuffix(disk.l, MLog(disk.manifest), k, nums);
    FlatSplit(disk.l.history, disk.l.Start(k));
    var replay := Flat(Replayed(disk.l.files, nums));
    InvParts(dd);
    NumberedPart(dd.history, replay);
    InOrderOk(replay);
    MaxSnBounds(replay, MLast(disk.manifest));
    assert MaxSn(replay, MLast(disk.manifest)) < MAX_SEQUENCE by {
      if e :| e in replay && e.sn == MaxSn(replay, MLast(disk.manifest)) { assert e in dd.history; }
    }
    d := Lsm.Db(dd.history, MaxSn(replay, MLast(disk.manifest)), InOrder(replay), None, dd.levels, MNext(disk.manifest), None);
  }

  lemma NumberedPart(all: seq<Entry>, part: seq<Entry>)
    requires DropRule.Numbered(DropRule.Entries(all)) && forall e :: e in part ==> e in all
    ensures DropRule.Numbered(DropRule.Entries(part))
  {
    assert forall e :: e in DropRule.Entries(part) ==> e in DropRule.Entries(all);
  }

  // ---------- installing what has been announced ----------

  lemma EmptyEdit(v: Levels, v': Levels)
    requires Shape(v) && Installs(v, Edit({}, []), v')
    ensures v' == v
  {
    forall l | 0 <= l < NUM_LEVELS ensures v'[l] == v[l] {
      assert FileSet(v'[l]) == FileSet(v[l]);
      SortedIsUnique(v'[l], v[l]);
    }
  }

  lemma TabledMore(v: Levels, v': Levels, f: File, level: nat, tables: map<nat, seq<Entry>>)
    requires Tabled(v, tables) && LsmProofs.FileAdded(v, v', f, level) && f.number in tables && tables[f.number] == f.entries
    ensures Tabled(v', tables)
  {
    LsmProofs.FileAddedMembers(v, v', f, level);
  }

  /** A flush that has been written to the MANIFEST can be installed. */
  lemma AfterFlush(d: Lsm.Db, o: Option<File>, level: nat, v: Levels, tables: map<nat, seq<Entry>>)
    requires Lsm.Inv(d) && d.imm.Some? && FileOk(o, level, d.imm.value, d.levels, tables, d.nextFile)
    requires Installs(d.levels, FlushEdit(o, level), v) && Tabled(d.levels, tables)
    ensures Lsm.Inv(d.(imm := None, levels := v)) && Tabled(v, tables)
    ensures o.Some? ==> LsmProofs.FileAdded(d.levels, v, o.value, level)
    ensures o.None? ==> v == d.levels
  {
    InvParts(d);
    var d' := d.(imm := None, levels := v);
    hide Lsm.Inv, VersionInv;
    match o
    case None =>
      EmptyEdit(d.levels, v);
      LsmProofs.FlushInv(d, d', File(0, 0, IKey(0.0, 0, Value), IKey(0.0, 0, Value), []), 0);
    case Some(f) =>
      DbImpl.EditFlushes(d.levels, v, f, level, d.nextFile);
      TabledMore(d.levels, v, f, level, tables);
      hide Tabled, Installs, Lsm.FileNumbers, Shape;
      LsmProofs.FlushInv(d, d', f, level);
  }

  lemma JobInputs(d: Lsm.Db, job: Job, tables: map<nat, seq<Entry>>)
    requires Lsm.Inv(d) && JobOk(job, d.running, d.levels, tables, d.nextFile)
    ensures job.c.level + 1 < NUM_LEVELS
    ensures forall g :: g in job.c.inputs0 ==> g in d.levels[job.c.level]
    ensures forall g :: g in job.c.inputs1 ==> g in d.levels[job.c.level + 1]
  {
  }

  lemma TabledJob(v: Levels, v': Levels, c: Compaction, outs: seq<File>, tables: map<nat, seq<Entry>>)
    requires Tabled(v, tables) && Lsm.Installed(v, v', c, outs)
    requires forall o :: o in outs ==> o.number in tables && tables[o.number] == o.entries
    ensures Tabled(v', tables)
  {
  }

  /** So can a compaction or a move. */
  lemma AfterJob(d: Lsm.Db, job: Job, v: Levels, tables: map<nat, seq<Entry>>)
    requires Lsm.Inv(d) && JobOk(job, d.running, d.levels, tables, d.nextFile)
    requires Installs(d.levels, JobEdit(job), v) && Tabled(d.levels, tables)
    ensures Lsm.Inv(d.(levels := v, running := None)) && Tabled(v, tables)
    ensures Lsm.Installed(d.levels, v, job.c, JobOuts(job))
  {
    hide *;
    InvParts(d);
    JobInputs(d, job, tables);
    JobInstalled(d.levels, job, v, d.nextFile);
    JobOutsTabled(d, job, tables);
    var d' := d.(levels := v, running := None);
    TabledJob(d.levels, v, job.c, JobOuts(job), tables);
    JobStep(d, d', job, tables);
    if job.Merge? {
      LsmProofs.FinishInv(d, d', job.m, job.outs);
    } else {
      LsmProofs.TrivialMoveInv(d, d', job.c);
    }
  }

  lemma JobInstalled(v: Levels, job: Job, v': Levels, next: nat)
    requires Shape(v) && Lsm.FileNumbers(v, next) && Installs(v, JobEdit(job), v') && job.c.level + 1 < NUM_LEVELS
    requires forall g :: g in job.c.inputs0 ==> g in v[job.c.level]
    requires forall g :: g in job.c.inputs1 ==> g in v[job.c.level + 1]
    ensures Lsm.Installed(v, v', job.c, JobOuts(job))
  {
    hide DbImpl.InstallEdit, ApplyTo;
    DbImpl.EditInstalls(v, v', job.c, JobOuts(job), next);
  }

  lemma JobOutsTabled(d: Lsm.Db, job: Job, tables: map<nat, seq<Entry>>)
    requires JobOk(job, d.running, d.levels, tables, d.nextFile) && Tabled(d.levels, tables)
    ensures forall o :: o in JobOuts(job) ==> o.number in tables && tables[o.number] == o.entries
  {
    hide Lsm.NewFiles, Merges;
  }

  lemma JobStep(d: Lsm.Db, d': Lsm.Db, job: Job, tables: map<nat, seq<Entry>>)
    requires JobOk(job, d.running, d.levels, tables, d.nextFile) && Lsm.Installed(d.levels, d'.levels, job.c, JobOuts(job))
    requires d' == d.(levels := d'.levels, running := None)
    ensures job.Merge? ==> Lsm.FinishCompaction(d, d', job.m, job.outs)
    ensures job.Move? ==> Lsm.TrivialMove(d, d', job.c)
  {
    hide Lsm.Installed, Lsm.Merged, Lsm.NewFiles, Picked, DropRule.Kept;
  }

  // ---------- the announced database ----------

  /** The batch that is only logged, inserted. */
  ghost function WithInsert(d: Lsm.Db, ops: seq<Lsm.Op>): Lsm.Db
    requires d.lastSequence + |ops| < MAX_SEQUENCE
  {
    var batch := Lsm.Stamp(ops, d.lastSequence + 1);
    d.(history := d.history + batch, lastSequence := d.lastSequence + |ops|, mem := InOrder(d.mem + batch))
  }

  lemma WithInsertInv(d: Lsm.Db, ops: seq<Lsm.Op>)
    requires Lsm.Inv(d) && d.lastSequence + |ops| < MAX_SEQUENCE
    ensures Lsm.Inv(WithInsert(d, ops)) && WithInsert(d, ops).history == d.history + Lsm.Stamp(ops, d.lastSequence + 1)
    ensures var dd := WithInsert(d, ops); dd.levels == d.levels && dd.imm == d.imm && dd.running == d.running && dd.nextFile == d.nextFile
    ensures forall e :: e in WithInsert(d, ops).mem <==> e in d.mem || e in Lsm.Stamp(ops, d.lastSequence + 1)
  {
    var batch := Lsm.Stamp(ops, d.lastSequence + 1);
    InvParts(d);
    hide Lsm.Inv, DropRule.Numbered;
    LsmProofs.StampNumbers(ops, d.lastSequence + 1);
    LsmProofs.NumberedUnion(d.history, batch, d.lastSequence);
    assert forall e :: e in d.mem ==> Lsm.Stored(d, e);
    NumberedPart(d.history + batch, d.mem + batch);
    InOrderOk(d.mem + batch);
    assert Lsm.Write(d, WithInsert(d, ops), ops);
    LsmProofs.WriteInv(d, WithInsert(d, ops), ops);
  }

  ghost function Caught(d: Lsm.Db, ins: Option<seq<Lsm.Op>>): Lsm.Db
    requires ins.Some? ==> d.lastSequence + |ins.value| < MAX_SEQUENCE
  {
    if ins.Some? then WithInsert(d, ins.value) else d
  }

  lemma CaughtInv(l: Logs, d: Lsm.Db, ins: Option<seq<Lsm.Op>>)
    requires Lsm.Inv(d) && HistoryOk(l.history, d.history, d.lastSequence, ins)
    ensures var dd := Caught(d, ins);
            Lsm.Inv(dd) && dd.history == Flat(l.history)
            && dd.levels == d.levels && dd.imm == d.imm && dd.running == d.running && dd.nextFile == d.nextFile
            && forall e :: e in dd.mem <==> e in d.mem || InLast(l, ins.Some?, e)
  {
    hide Lsm.Inv, WithInsert, Flat, Lsm.Stamp, Increasing;
    if ins.Some? {
      WithInsertInv(d, ins.value);
      var n := |l.history| - 1;
      assert l.history == l.history[..n] + [l.history[n]];
      FlatConcat(l.history[..n], [l.history[n]]);
      FlatOne(l.history[n]);
    }
  }

  /** The memtable and the batch still to be inserted make up the current log. */
  lemma CurrentLog(l: Logs, mem: seq<Entry>, imm: Option<seq<Entry>>, inserting: bool, vlog: nat, e: Entry)
    requires MemOk(l, mem, imm, inserting, vlog) && (inserting ==> l.history != [])
    ensures l.list != [] && l.Start(|l.list| - 1) <= |l.history|
    ensures e in mem || InLast(l, inserting, e) <==> InTail(l, |l.list| - 1, e)
  {
    hide Flat;
    var a, n := l.starts[|l.list| - 1], |l.history| - 1;
    if inserting {
      var log := l.history[a..n];
      assert l.history[a..] == log + [l.history[n]];
      FlatConcat(log, [l.history[n]]);
      FlatOne(l.history[n]);
    } else {
      assert l.history[a..|l.history|] == l.history[a..];
    }
  }

  lemma BothLogs(l: Logs, mem: seq<Entry>, es: seq<Entry>, inserting: bool, vlog: nat, e: Entry)
    requires MemOk(l, mem, Some(es), inserting, vlog) && (inserting ==> l.history != [])
    ensures |l.list| >= 2 && l.Start(|l.list| - 2) <= |l.history|
    ensures e in es || e in mem || InLast(l, inserting, e) <==> InTail(l, |l.list| - 2, e)
  {
    hide Flat;
    CurrentLog(l, mem, Some(es), inserting, vlog, e);
    var a, b := l.starts[|l.list| - 2], l.starts[|l.list| - 1];
    assert l.history[a..] == l.history[a..b] + l.history[b..];
    FlatConcat(l.history[a..b], l.history[b..]);
  }

  /** The log that the MANIFEST asks for, by its place in the list. */
  lemma LogPlace(l: Logs, mem: seq<Entry>, imm: Option<seq<Entry>>, inserting: bool, vlog: nat, flush: Flush) returns (k: nat)
    requires LogsOk(l) && MemOk(l, mem, imm, inserting, vlog)
    ensures k == |l.list| - if flush.Writing? || imm.None? then 1 else 2
    ensures SplitsAt(l.list, AnnouncedLog(l, vlog, flush), k)
  {
    k := |l.list| - if flush.Writing? || imm.None? then 1 else 2;
    SplitsAtLog(l, k);
  }

  lemma SplitsAtLog(l: Logs, k: nat)
    requires LogsOk(l) && k < |l.list|
    ensures SplitsAt(l.list, l.list[k], k)
  {
  }

  /** The database that the disk stands for in a running system. */
  ghost function AnnouncedDb(s: State): Lsm.Db
    requires s.ins.Some? ==> s.d.lastSequence + |s.ins.value| < MAX_SEQUENCE
  {
    var d := Caught(s.d, s.ins);
    if s.flush.Writing? then d.(imm := None, levels := s.flush.levels)
    else if s.comp.CWriting? then d.(levels := s.comp.levels, running := None)
    else d
  }

  lemma AnnouncedInv(s: State)
    requires MemoryOk(s) && WorkOk(s)
    ensures var dd := AnnouncedDb(s);
            Lsm.Inv(dd) && Tabled(dd.levels, s.disk.tables) && dd.history == Flat(s.disk.l.history)
            && dd.levels == Announced(s.d.levels, s.flush, s.comp)
  {
    hide Lsm.Inv, Tabled, FileOk, JobOk, Installs, MemOk, WithInsert, FlushEdit, JobEdit;
    CaughtInv(s.disk.l, s.d, s.ins);
    var d := Caught(s.d, s.ins);
    if s.flush.Writing? {
      AfterFlush(d, s.flush.file, s.flush.level, s.flush.levels, s.disk.tables);
    } else if s.comp.CWriting? {
      AfterJob(d, s.comp.job, s.comp.levels, s.disk.tables);
    }
  }

  lemma AnnouncedInMem(s: State, e: Entry)
    requires MemoryOk(s)
    ensures Lsm.InMem(AnnouncedDb(s), e) <==>
              e in s.d.mem || InLast(s.disk.l, s.ins.Some?, e) || (!s.flush.Writing? && s.d.imm.Some? && e in s.d.imm.value)
  {
    hide Lsm.Inv, WithInsert, LiveOk, MemOk, InLast, Flat, Increasing;
    CaughtInv(s.disk.l, s.d, s.ins);
  }

  /** Which part of the history is in the announced memtables. */
  lemma AnnouncedMem(s: State) returns (k: nat)
    requires MemoryOk(s) && LogsOk(s.disk.l) && MLog(s.disk.manifest) == AnnouncedLog(s.disk.l, s.vlog, s.flush)
    ensures SplitsAt(s.disk.l.list, MLog(s.disk.manifest), k) && s.disk.l.Start(k) <= |s.disk.l.history|
    ensures forall e :: Lsm.InMem(AnnouncedDb(s), e) <==> InTail(s.disk.l, k, e)
  {
    hide Lsm.Inv, AnnouncedDb, LogsOk, LiveOk, SplitsAt, Lsm.InMem, MemOk, AnnouncedLog, Increasing, Flat, InTail, InLast, Lsm.Stamp;
    var l := s.disk.l;
    k := LogPlace(l, s.d.mem, s.d.imm, s.ins.Some?, s.vlog, s.flush);
    CurrentLog(l, s.d.mem, s.d.imm, s.ins.Some?, s.vlog, Entry(0.0, 0, Value, []));
    if !s.flush.Writing? && s.d.imm.Some? { BothLogs(l, s.d.mem, s.d.imm.value, s.ins.Some?, s.vlog, Entry(0.0, 0, Value, [])); }
    forall e ensures Lsm.InMem(AnnouncedDb(s), e) <==> InTail(l, k, e) {
      AnnouncedInMem(s, e);
      if s.flush.Writing? || s.d.imm.None? {
        CurrentLog(l, s.d.mem, s.d.imm, s.ins.Some?, s.vlog, e);
      } else {
        BothLogs(l, s.d.mem, s.d.imm.value, s.ins.Some?, s.vlog, e);
      }
    }
  }

  lemma AnnouncedKept(l: Logs, vlog: nat, mem: seq<Entry>, imm: Option<seq<Entry>>, inserting: bool, flush: Flush)
    requires LogsOk(l) && LogsKept(l, vlog) && MemOk(l, mem, imm, inserting, vlog)
    ensures LogsKept(l, AnnouncedLog(l, vlog, flush))
  {
  }

  lemma FilesParts(s: State)
    requires MemoryOk(s) && FilesOk(s)
    ensures LogsOk(s.disk.l) && LogsKept(s.disk.l, MLog(s.disk.manifest)) && SeqOk(s.disk.l, MLog(s.disk.manifest), MLast(s.disk.manifest))
    ensures MLog(s.disk.manifest) == AnnouncedLog(s.disk.l, s.vlog, s.flush) && Increasing(Flat(s.disk.l.history))
    ensures ManifestOk(s.disk.manifest, Announced(s.d.levels, s.flush, s.comp), MLog(s.disk.manifest), MNext(s.disk.manifest))
  {
    hide Lsm.Inv, Describes, SeenOk, SeqOk, LogsOk, LogsKept, MemOk, LiveOk, Increasing, Flat, Announced, AnnouncedLog, Names, Marked;
    AnnouncedKept(s.disk.l, s.vlog, s.d.mem, s.d.imm, s.ins.Some?, s.flush);
  }

  lemma RunningStands(s: State) returns (dd: Lsm.Db)
    requires MemoryOk(s) && WorkOk(s) && FilesOk(s)
    ensures StandsFor(s.disk, dd)
  {
    hide MemoryOk, WorkOk, FilesOk, Lsm.Inv, ManifestOk, SeqOk, LogsOk, LogsKept, Increasing, Flat, Tabled, Announced, AnnouncedLog, AnnouncedDb,
      InTail, Lsm.InMem, SplitsAt;
    FilesParts(s);
    HistoryFacts(s);
    AnnouncedInv(s);
    var k := AnnouncedMem(s);
    dd := AnnouncedDb(s);
    assert StandsAt(s.disk, dd, k);
  }

  lemma HistoryFacts(s: State)
    requires MemoryOk(s)
    ensures s.ins.Some? ==> s.d.lastSequence + |s.ins.value| < MAX_SEQUENCE
  {
    hide Lsm.Inv, MemOk, LiveOk, Flat, Increasing;
  }

  lemma OpeningStands(s: State)
    requires s.mode.Opening? && BaseOk(s.disk, s.mode, s.d.nextFile)
    ensures StandsFor(s.disk, s.mode.base)
  {
    hide Lsm.Inv, Describes, Tabled, LogsOk, LogsKept, SeenOk, Increasing, SeqOk, Flat, Names, SplitsAt;
    var k :| SplitsAt(s.disk.l.list, MLog(s.disk.manifest), k) && s.disk.l.Start(k) <= |s.disk.l.history|
             && s.mode.replay == s.disk.l.history[s.disk.l.Start(k)..];
    assert StandsAt(s.disk, s.mode.base, k);
  }

  /** In every state that meets the invariant the disk stands for a database that has lost nothing. */
  lemma DiskStands(s: State) returns (dd: Lsm.Db)
    requires Inv(s)
    ensures StandsFor(s.disk, dd)
  {
    hide MemoryOk, WorkOk, FilesOk, BaseOk, OpeningOk, StandsFor;
    if s.mode.Running? {
      dd := RunningStands(s);
    } else {
      OpeningStands(s);
      dd := s.mode.base;
    }
  }
}
