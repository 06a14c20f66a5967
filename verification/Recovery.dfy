/** The database with its disk: log files, tables and MANIFEST, every step between them, and crashes at any step. */
module Recovery {
  import opened Keys
  import opened Tables
  import opened Picking
  import opened VersionBuilder
  import opened Manifest
  import opened LogFiles
  import DropRule
  import DbImpl
  import Lsm = LsmStates

  // ---------- the state ----------

  /** What survives a crash. A table is its entries; a MANIFEST record has metadata and numbers only. */
  datatype Disk = Disk(l: Logs, tables: map<nat, seq<Entry>>, manifest: seq<Record>)

  /** base is the database as the disk shows it, replay what its logs hold, and the first done batches of it are in built. */
  datatype Mode = Running | Opening(base: Lsm.Db, replay: seq<Batch>, done: nat, built: seq<File>, newLog: Option<nat>)

  datatype Flush = NoFlush
                 | Building(number: nat)
                 | Built(file: Option<File>, level: nat)
                 | Writing(file: Option<File>, level: nat, levels: Levels)

  datatype Job = Merge(c: Compaction, m: seq<Entry>, outs: seq<File>) | Move(c: Compaction)

  datatype Comp = NoComp | Merging(outs: seq<File>, open: Option<nat>) | CWriting(job: Job, levels: Levels)

  /**
   d: memtables, current version and numbers; ins: the batch that is logged but not yet in the memtable; vlog: log_number_;
   live: the versions somebody holds; pending: pending_outputs_; stuck: a MANIFEST write failed that had reached the file.
   */
  datatype State = State(disk: Disk, mode: Mode, d: Lsm.Db, ins: Option<seq<Lsm.Op>>, vlog: nat, live: set<Levels>,
                         pending: set<nat>, flush: Flush, comp: Comp, bgError: bool, stuck: bool)

  // ---------- what a crash leaves ----------

  ghost predicate SameEntries(a: seq<Entry>, b: seq<Entry>) { forall e :: e in a <==> e in b }

  ghost function MaxSn(es: seq<Entry>, floor: nat): nat {
    if es == [] then floor
    else if MaxSn(es[..|es| - 1], floor) < es[|es| - 1].sn then es[|es| - 1].sn else MaxSn(es[..|es| - 1], floor)
  }

  /**
   DBImpl::Recover: the version that the MANIFEST describes, with the tables as they are on disk; the batches of the
   logs that it asks for; a last sequence number at least as large as that of the MANIFEST and any in the logs (an empty
   batch may have used up more). nums are these logs.
   */
  ghost predicate Recovered(disk: Disk, nums: seq<nat>, d: Lsm.Db) {
    && LogsFrom(disk.l.files, MLog(disk.manifest), nums)
    && Describes(disk.manifest, d.levels) && Tabled(d.levels, disk.tables)
    && (forall x :: x in nums ==> x in disk.l.files)
    && var replay := Flat(Replayed(disk.l.files, nums));
       && Sorted(d.mem) && SameEntries(d.mem, replay)
       && MaxSn(replay, MLast(disk.manifest)) <= d.lastSequence < MAX_SEQUENCE
       && MNext(disk.manifest) <= d.nextFile
       && d.history == Flat(disk.l.history) && d.imm.None? && d.running.None?
  }

  // ---------- edits ----------

  function FlushEdit(file: Option<File>, level: nat): Edit {
    match file case None => Edit({}, []) case Some(f) => Edit({}, DbImpl.AddTo(level, [f]))
  }

  function JobOuts(job: Job): seq<File> { match job case Merge(c, m, outs) => outs case Move(c) => c.inputs0 }

  function JobEdit(job: Job): Edit { DbImpl.InstallEdit(job.c, JobOuts(job)) }

  function RecordOf(e: Edit, log: nat, d: Lsm.Db): Record {
    Record(MetaEdit(e), Some(log), Some(d.nextFile), Some(d.lastSequence))
  }

  // ---------- steps of the writing threads ----------

  ghost function WithLogs(s: State, l: Logs): State { s.(disk := s.disk.(l := l)) }

  ghost function WithTable(s: State, n: nat, es: seq<Entry>): State { s.(disk := s.disk.(tables := s.disk.tables[n := es])) }

  ghost function WithRecord(s: State, rec: Record): State { s.(disk := s.disk.(manifest := s.disk.manifest + [rec])) }

  /** AddRecord of one batch to the current log. */
  ghost predicate LogBatch(s: State, s': State, ops: seq<Lsm.Op>) {
    && s.mode.Running? && s.ins.None? && !s.bgError && s.disk.l.list != [] && s.disk.l.Last() in s.disk.l.files
    && s.d.lastSequence + |ops| < MAX_SEQUENCE
    && s' == WithLogs(s, Logged(s.disk.l, Lsm.Stamp(ops, s.d.lastSequence + 1))).(ins := Some(ops))
  }

  /** The logged batch goes into the memtable and is published. */
  ghost predicate InsertBatch(s: State, s': State) {
    && s.mode.Running? && s.ins.Some? && Lsm.Write(s.d, s'.d, s.ins.value)
    && s' == s.(d := s'.d, ins := None)
  }

  /** MakeRoomForWrite: a new log and a new memtable. */
  ghost predicate SwitchMemTable(s: State, s': State) {
    && s.mode.Running? && s.ins.None? && !s.bgError
    && Lsm.SwitchMemTable(s.d, s'.d) && s'.d.nextFile == s.d.nextFile + 1
    && s' == WithLogs(s, WithNewLog(s.disk.l, s.d.nextFile)).(d := s'.d)
  }

  // ---------- flush ----------

  /** WriteLevel0Table starts writing a table and holds its number in pending_outputs_. */
  ghost predicate StartFlush(s: State, s': State) {
    && s.mode.Running? && s.d.imm.Some? && s.flush.NoFlush? && !s.comp.CWriting?
    && s' == s.(flush := Building(s.d.nextFile), pending := s.pending + {s.d.nextFile}, d := s.d.(nextFile := s.d.nextFile + 1))
  }

  function TableOf(number: nat, size: nat, es: seq<Entry>): File
    requires es != []
  {
    File(number, size, es[0].Key(), es[|es| - 1].Key(), es)
  }

  /** The table is complete and its number leaves pending_outputs_; an empty memtable leaves no table. */
  ghost predicate FinishTable(s: State, s': State, size: nat, level: nat) {
    && s.mode.Running? && s.flush.Building? && s.d.imm.Some? && |s.d.levels| == NUM_LEVELS
    && var n, es := s.flush.number, s.d.imm.value;
       if es == [] then s' == s.(flush := Built(None, 0), pending := s.pending - {n})
       else
         && level < NUM_LEVELS && Placeable(s.d.levels, TableOf(n, size, es), level)
         && s' == WithTable(s, n, es).(flush := Built(Some(TableOf(n, size, es)), level), pending := s.pending - {n})
  }

  ghost predicate FailFlush(s: State, s': State) {
    && s.mode.Running? && (s.flush.Building? || s.flush.Built?)
    && s' == s.(flush := NoFlush, bgError := true, pending := s.pending - if s.flush.Building? then {s.flush.number} else {})
  }

  /** LogAndApply writes the record, with the number of the current log; a write that fails may have reached the file. */
  ghost predicate WriteFlushEdit(s: State, s': State, ok: bool, reached: bool, v: Levels) {
    && s.mode.Running? && s.flush.Built? && s.disk.l.list != [] && (ok ==> reached)
    && var e := FlushEdit(s.flush.file, s.flush.level);
       && Installs(s.d.levels, e, v)
       && s' == if reached then WithRecord(s, RecordOf(e, s.disk.l.Last(), s.d)).(
                                  flush := Writing(s.flush.file, s.flush.level, v), stuck := !ok, bgError := s.bgError || !ok)
                else s.(flush := NoFlush, bgError := true)
  }

  /** The new version is installed and the immutable memtable dropped. */
  ghost predicate InstallFlush(s: State, s': State) {
    && s.mode.Running? && s.flush.Writing? && !s.stuck && s.disk.l.list != []
    && s' == s.(d := s.d.(imm := None, levels := s.flush.levels), vlog := s.disk.l.Last(), live := s.live + {s.flush.levels}, flush := NoFlush)
  }

  // ---------- compaction ----------

  ghost predicate StartCompaction(s: State, s': State, c: Compaction) {
    && s.mode.Running? && s.flush.NoFlush? && s.comp.NoComp? && !s.bgError
    && Lsm.StartCompaction(s.d, s'.d, c) && s' == s.(d := s'.d, comp := Merging([], None))
  }

  ghost predicate OpenOutput(s: State, s': State) {
    && s.mode.Running? && s.flush.NoFlush? && s.comp.Merging? && s.comp.open.None?
    && s' == s.(comp := s.comp.(open := Some(s.d.nextFile)), pending := s.pending + {s.d.nextFile}, d := s.d.(nextFile := s.d.nextFile + 1))
  }

  ghost predicate FinishOutput(s: State, s': State, f: File) {
    && s.mode.Running? && s.flush.NoFlush? && s.comp.Merging? && s.comp.open == Some(f.number) && WfFile(f)
    && s' == WithTable(s, f.number, f.entries).(comp := Merging(s.comp.outs + [f], None))
  }

  ghost function NumbersOf(fs: seq<File>): set<nat> { set f | f in fs :: f.number }

  /** CleanupCompaction after a failure or a shutdown. */
  ghost predicate AbandonCompaction(s: State, s': State, error: bool) {
    && s.mode.Running? && s.flush.NoFlush? && s.comp.Merging?
    && s' == s.(d := s.d.(running := None), comp := NoComp, bgError := s.bgError || error,
                pending := s.pending - NumbersOf(s.comp.outs) - if s.comp.open.Some? then {s.comp.open.value} else {})
  }

  /** The merge is complete: its outputs hold what the drop rule leaves of the merged inputs. */
  ghost predicate Merges(c: Compaction, m: seq<Entry>, outs: seq<File>) {
    Lsm.Merged(c.Inputs(), m) && Lsm.Flatten(outs) == DropRule.Kept(m, |m|, c.snapshot, c.base, c.level)
  }

  ghost predicate Moves(v: Levels, c: Compaction) { Picked(v, c) && |c.inputs0| == 1 && c.inputs1 == [] }

  /** InstallCompactionResults, or a trivial move, writes its record. */
  ghost predicate WriteCompEdit(s: State, s': State, job: Job, ok: bool, reached: bool, v: Levels) {
    && s.mode.Running? && s.flush.NoFlush? && (ok ==> reached)
    && (match job
        case Merge(c, m, outs) => s.comp == Merging(outs, None) && s.d.running == Some(c) && Merges(c, m, outs)
        case Move(c) => s.comp.NoComp? && !s.bgError && s.d.imm.None? && Moves(s.d.levels, c))
    && Installs(s.d.levels, JobEdit(job), v)
    && s' == if reached then WithRecord(s, RecordOf(JobEdit(job), s.vlog, s.d)).(
                               comp := CWriting(job, v), stuck := !ok, bgError := s.bgError || !ok)
             else s.(d := s.d.(running := None), comp := NoComp, bgError := true, pending := s.pending - NumbersOf(JobOuts(job)))
  }

  ghost predicate InstallComp(s: State, s': State) {
    && s.mode.Running? && s.comp.CWriting? && !s.stuck
    && s' == s.(d := s.d.(levels := s.comp.levels, running := None), live := s.live + {s.comp.levels}, comp := NoComp,
                pending := s.pending - NumbersOf(JobOuts(s.comp.job)))
  }

  // ---------- files that nobody needs ----------

  ghost predicate Names(v: Levels, n: nat) { exists l, f :: 0 <= l < |v| && f in v[l] && f.number == n }

  /** The last reader of an old version is done. */
  ghost predicate Release(s: State, s': State, v: Levels) {
    s.mode.Running? && v != s.d.levels && s' == s.(live := s.live - {v})
  }

  /** DeleteObsoleteFiles runs only in the background thread, between its other steps. */
  ghost predicate MayDelete(s: State) { s.mode.Running? && !s.bgError && s.flush.NoFlush? && !s.comp.CWriting? }

  ghost predicate DeleteTable(s: State, s': State, n: nat) {
    && MayDelete(s) && n !in s.pending && (forall v :: v in s.live ==> !Names(v, n))
    && s' == s.(disk := s.disk.(tables := s.disk.tables - {n}))
  }

  ghost predicate DeleteLog(s: State, s': State, n: nat) {
    && MayDelete(s) && n < s.vlog && s' == WithLogs(s, s.disk.l.(files := s.disk.l.files - {n}))
  }

  // ---------- crash and opening ----------

  /** All memory is lost; opening starts from the disk. */
  ghost predicate Crash(s: State, s': State, nums: seq<nat>) {
    && Recovered(s.disk, nums, s'.d)
    && s' == State(s.disk, Opening(s'.d, Replayed(s.disk.l.files, nums), 0, [], None), s'.d, None, 0, {}, {}, NoFlush, NoComp, false, false)
  }

  /** MarkFileNumberUsed, or a number for something else. */
  ghost predicate MarkNumbers(s: State, s': State) {
    s.mode.Opening? && s.d.nextFile <= s'.d.nextFile && s' == s.(d := s.d.(nextFile := s'.d.nextFile))
  }

  /** RecoverLogFile writes the next n batches to a table, unless there is nothing in them. */
  ghost predicate RecoverTable(s: State, s': State, n: nat, f: File) {
    && s.mode.Opening? && s.mode.newLog.None? && s.mode.done + n <= |s.mode.replay|
    && var part := Flat(s.mode.replay[s.mode.done..s.mode.done + n]);
       if part == [] then s' == s.(mode := s.mode.(done := s.mode.done + n))
       else
         && SameEntries(f.entries, part) && f.number == s.d.nextFile && s'.d.nextFile == s.d.nextFile + 1
         && Lsm.RecoverTable(s.d, s'.d, f)
         && s' == WithTable(s, f.number, f.entries).(d := s'.d, mode := s.mode.(done := s.mode.done + n, built := s.mode.built + [f]))
  }

  /** DB::Open creates the new log once everything has been replayed; the replayed logs have been marked as used. */
  ghost predicate OpenLog(s: State, s': State) {
    && s.mode.Opening? && s.mode.newLog.None? && s.mode.done == |s.mode.replay|
    && (forall x :: x in s.disk.l.files && MLog(s.disk.manifest) <= x ==> x < s.d.nextFile)
    && s' == WithLogs(s, WithNewLog(s.disk.l, s.d.nextFile)).(mode := s.mode.(newLog := Some(s.d.nextFile)), d := s.d.(nextFile := s.d.nextFile + 1))
  }

  /** The edit that adds the tables built while opening. */
  function OpenEdit(built: seq<File>): Edit { Edit({}, DbImpl.AddTo(0, built)) }

  /** The new MANIFEST, a snapshot and the recovery edit, becomes current. */
  ghost predicate OpenInstall(s: State, s': State) {
    && s.mode.Opening? && s.mode.newLog.Some?
    && var manifest := [Record(MetaEdit(SnapshotEdit(s.mode.base.levels)), None, None, None),
                        RecordOf(OpenEdit(s.mode.built), s.mode.newLog.value, s.d)];
       s' == State(s.disk.(manifest := manifest), Running, s.d, None, s.mode.newLog.value, {s.d.levels}, {}, NoFlush, NoComp, false, false)
  }

  // ---------- runs ----------

  ghost predicate WriteStep(s: State, s': State) {
    (exists ops :: LogBatch(s, s', ops)) || InsertBatch(s, s') || SwitchMemTable(s, s')
  }

  ghost predicate FlushStep(s: State, s': State) {
    || StartFlush(s, s') || (exists size, level :: FinishTable(s, s', size, level)) || FailFlush(s, s')
    || (exists ok, r, v :: WriteFlushEdit(s, s', ok, r, v)) || InstallFlush(s, s')
  }

  ghost predicate CompStep(s: State, s': State) {
    || (exists c :: StartCompaction(s, s', c)) || OpenOutput(s, s') || (exists f :: FinishOutput(s, s', f))
    || (exists e :: AbandonCompaction(s, s', e)) || (exists j, ok, r, v :: WriteCompEdit(s, s', j, ok, r, v)) || InstallComp(s, s')
  }

  ghost predicate FileStep(s: State, s': State) {
    (exists v :: Release(s, s', v)) || (exists n :: DeleteTable(s, s', n)) || (exists n :: DeleteLog(s, s', n))
  }

  ghost predicate OpenStep(s: State, s': State) {
    || (exists nums :: Crash(s, s', nums)) || MarkNumbers(s, s') || (exists n, f :: RecoverTable(s, s', n, f))
    || OpenLog(s, s') || OpenInstall(s, s')
  }

  ghost predicate Next(s: State, s': State) {
    WriteStep(s, s') || FlushStep(s, s') || CompStep(s, s') || FileStep(s, s') || OpenStep(s, s')
  }

  ghost function Empty(next: nat): Lsm.Db { Lsm.Db([], 0, [], None, seq(NUM_LEVELS, _ => []), next, None) }

  /** NewDB: an empty MANIFEST record with log number 0 and next file number 2, about to be opened. */
  ghost predicate Init(s: State) {
    && 2 <= s.d.nextFile
    && s == State(Disk(Logs(map[], [], [], []), map[], [Record(Edit({}, []), Some(0), Some(2), Some(0))]),
                  Opening(Empty(s.d.nextFile), [], 0, [], None), Empty(s.d.nextFile), None, 0, {}, {}, NoFlush, NoComp, false, false)
  }

  ghost predicate Run(states: seq<State>) {
    && 0 < |states| && Init(states[0])
    && forall i :: 0 <= i < |states| - 1 ==> Next(states[i], states[i + 1])
  }

  // ---------- the invariant ----------

  /** Numbers are new at a level whenever the MANIFEST adds a file to it, and files only ever move down. */
  ghost predicate SeenOk(m: seq<Record>, v: Levels) {
    && AllFresh(m) && (forall l: nat, n: nat :: Seen(m, l, n) ==> n < MNext(m))
    && (forall k, l, f :: 0 <= k < l < NUM_LEVELS && k < |v| && f in v[k] ==> !Seen(m, l, f.number))
  }

  /** The last record sets all numbers. */
  ghost predicate Marked(m: seq<Record>) {
    m != [] && m[|m| - 1].log.Some? && m[|m| - 1].next.Some? && m[|m| - 1].last.Some?
  }

  /** The MANIFEST describes v, asks for the logs from log on, and keeps clear of the numbers in use. */
  ghost predicate ManifestOk(m: seq<Record>, v: Levels, log: nat, next: nat) {
    && Marked(m) && Describes(m, v) && SeenOk(m, v) && MLog(m) == log && log < MNext(m) <= next && MLast(m) < MAX_SEQUENCE
    && (forall n: nat :: Names(v, n) ==> n < MNext(m))
  }

  /** What lies before the logs that the MANIFEST asks for is not newer than its last sequence number. */
  ghost predicate SeqOk(l: Logs, n: nat, last: nat) {
    forall k, e :: SplitsAt(l.list, n, k) && l.Start(k) <= |l.history| && e in Flat(l.history[..l.Start(k)]) ==> e.sn <= last
  }

  /** The batches ever logged are the history, apart from one that is still to be inserted. */
  ghost predicate HistoryOk(bs: seq<Batch>, history: seq<Entry>, lastSequence: nat, ins: Option<seq<Lsm.Op>>) {
    && Increasing(Flat(bs))
    && match ins
       case None => Flat(bs) == history
       case Some(ops) => bs != [] && lastSequence + |ops| < MAX_SEQUENCE && Flat(bs[..|bs| - 1]) == history
                         && bs[|bs| - 1] == Lsm.Stamp(ops, lastSequence + 1)
  }

  /** The memtable holds the batches of the current log, the immutable one those of the log before. */
  ghost predicate MemOk(l: Logs, mem: seq<Entry>, imm: Option<seq<Entry>>, inserting: bool, vlog: nat) {
    && l.list != [] && |l.list| == |l.starts| && l.Last() in l.files
    && var last, end := |l.list| - 1, |l.history| - if inserting then 1 else 0;
       && l.starts[last] <= end && SameEntries(mem, Flat(l.history[l.starts[last]..end]))
       && match imm
          case None => vlog == l.list[last]
          case Some(es) => last >= 1 && vlog == l.list[last - 1] && l.starts[last - 1] <= l.starts[last]
                           && SameEntries(es, Flat(l.history[l.starts[last - 1]..l.starts[last]]))
  }

  /** Every live version has its tables on disk. */
  ghost predicate LiveOk(v: Levels, live: set<Levels>, tables: map<nat, seq<Entry>>, next: nat) {
    && v in live && (forall x :: x in live ==> Tabled(x, tables))
    && (forall x, n: nat :: x in live && Names(x, n) ==> n < next)
  }

  /** No live version and no MANIFEST record knows number n. */
  ghost predicate Unused(live: set<Levels>, m: seq<Record>, n: nat) {
    (forall x :: x in live ==> !Names(x, n)) && (forall l :: !Seen(m, l, n))
  }

  ghost predicate FileOk(o: Option<File>, level: nat, es: seq<Entry>, v: Levels, tables: map<nat, seq<Entry>>, next: nat) {
    match o
    case None => es == []
    case Some(f) =>
      && f.entries == es && WfFile(f) && f.number < next && Lsm.NewestNumber(v, f.number)
      && f.number in tables && tables[f.number] == es && |v| == NUM_LEVELS && level < NUM_LEVELS && Placeable(v, f, level)
  }

  ghost predicate FlushOk(flush: Flush, imm: Option<seq<Entry>>, v: Levels, live: set<Levels>, m: seq<Record>,
                          tables: map<nat, seq<Entry>>, pending: set<nat>, next: nat) {
    match flush
    case NoFlush => true
    case Building(n) => imm.Some? && n < next && n in pending && Unused(live, m, n) && Lsm.NewestNumber(v, n)
    case Built(o, level) => imm.Some? && FileOk(o, level, imm.value, v, tables, next)
                            && (o.Some? ==> Unused(live, m, o.value.number))
    case Writing(o, level, v') => imm.Some? && FileOk(o, level, imm.value, v, tables, next) && Installs(v, FlushEdit(o, level), v')
  }

  function FlushNumber(flush: Flush): Option<nat> {
    match flush
    case NoFlush => None
    case Building(n) => Some(n)
    case Built(o, _) => if o.Some? then Some(o.value.number) else None
    case Writing(o, _, _) => if o.Some? then Some(o.value.number) else None
  }

  ghost predicate OutsOk(outs: seq<File>, live: set<Levels>, m: seq<Record>, tables: map<nat, seq<Entry>>, pending: set<nat>, next: nat) {
    && (forall i :: 0 <= i < |outs| ==> WfFile(outs[i]) && outs[i].number < next)
    && (forall i, j :: 0 <= i < j < |outs| ==> outs[i].number < outs[j].number)
    && (forall o :: o in outs ==> o.number in pending && o.number in tables && tables[o.number] == o.entries)
    && (forall o :: o in outs ==> Unused(live, m, o.number))
  }

  ghost predicate OpenOk(open: Option<nat>, outs: seq<File>, live: set<Levels>, m: seq<Record>, pending: set<nat>, next: nat) {
    open.Some? ==> open.value < next && open.value in pending && Unused(live, m, open.value)
                   && forall o :: o in outs ==> o.number < open.value
  }

  /** The job can be installed on v. */
  ghost predicate JobOk(job: Job, running: Option<Compaction>, v: Levels, tables: map<nat, seq<Entry>>, next: nat) {
    match job
    case Merge(c, es, outs) =>
      && running == Some(c) && Merges(c, es, outs) && Lsm.NewFiles(v, outs, next)
      && (forall o :: o in outs ==> o.number in tables && tables[o.number] == o.entries)
    case Move(c) => running.None? && Moves(v, c)
  }

  ghost predicate CompOk(comp: Comp, running: Option<Compaction>, v: Levels, flush: Flush, live: set<Levels>, m: seq<Record>,
                         tables: map<nat, seq<Entry>>, pending: set<nat>, next: nat) {
    match comp
    case NoComp => running.None?
    case Merging(outs, open) =>
      && running.Some? && OutsOk(outs, live, m, tables, pending, next) && OpenOk(open, outs, live, m, pending, next)
      && (FlushNumber(flush).Some? ==> open != FlushNumber(flush) && FlushNumber(flush).value !in NumbersOf(outs))
    case CWriting(job, v') => flush.NoFlush? && JobOk(job, running, v, tables, next) && Installs(v, JobEdit(job), v')
  }

  /** The version and the log number that the MANIFEST stands for. */
  ghost function Announced(v: Levels, flush: Flush, comp: Comp): Levels {
    if flush.Writing? then flush.levels else if comp.CWriting? then comp.levels else v
  }

  ghost function AnnouncedLog(l: Logs, vlog: nat, flush: Flush): nat {
    if flush.Writing? && l.list != [] then l.Last() else vlog
  }

  ghost predicate MemoryOk(s: State) {
    && Lsm.Inv(s.d)
    && HistoryOk(s.disk.l.history, s.d.history, s.d.lastSequence, s.ins)
    && MemOk(s.disk.l, s.d.mem, s.d.imm, s.ins.Some?, s.vlog)
    && LiveOk(s.d.levels, s.live, s.disk.tables, s.d.nextFile)
  }

  ghost predicate WorkOk(s: State) {
    && FlushOk(s.flush, s.d.imm, s.d.levels, s.live, s.disk.manifest, s.disk.tables, s.pending, s.d.nextFile)
    && CompOk(s.comp, s.d.running, s.d.levels, s.flush, s.live, s.disk.manifest, s.disk.tables, s.pending, s.d.nextFile)
    && (s.stuck ==> s.bgError && (s.flush.Writing? || s.comp.CWriting?))
  }

  ghost predicate FilesOk(s: State) {
    && LogsOk(s.disk.l) && Below(s.disk.l, s.d.nextFile) && LogsKept(s.disk.l, s.vlog)
    && ManifestOk(s.disk.manifest, Announced(s.d.levels, s.flush, s.comp), AnnouncedLog(s.disk.l, s.vlog, s.flush), s.d.nextFile)
    && SeqOk(s.disk.l, MLog(s.disk.manifest), MLast(s.disk.manifest))
  }

  /** The disk as it is while opening. */
  ghost predicate BaseOk(disk: Disk, mode: Mode, next: nat)
    requires mode.Opening?
  {
    && LogsOk(disk.l) && LogsKept(disk.l, MLog(disk.manifest)) && SeqOk(disk.l, MLog(disk.manifest), MLast(disk.manifest))
    && Lsm.Inv(mode.base) && mode.base.imm.None? && mode.base.running.None?
    && mode.base.history == Flat(disk.l.history) && Increasing(Flat(disk.l.history))
    && ManifestOk(disk.manifest, mode.base.levels, MLog(disk.manifest), next) && Tabled(mode.base.levels, disk.tables)
    && SameEntries(mode.base.mem, Flat(mode.replay))
    && (exists k :: SplitsAt(disk.l.list, MLog(disk.manifest), k) && disk.l.Start(k) <= |disk.l.history|
                    && mode.replay == disk.l.history[disk.l.Start(k)..])
  }

  /** Tables built while opening have new numbers, in order. */
  ghost predicate BuiltOk(m: seq<Record>, built: seq<File>) {
    && (forall f :: f in built ==> MNext(m) <= f.number)
    && (forall i, j :: 0 <= i < j < |built| ==> built[i].number < built[j].number)
  }

  ghost predicate OpeningOk(s: State)
    requires s.mode.Opening?
  {
    && Lsm.Inv(s.d) && s.d.imm.None? && s.d.running.None? && s.d.history == Flat(s.disk.l.history)
    && s.mode.done <= |s.mode.replay| && SameEntries(s.d.mem, Flat(s.mode.replay[s.mode.done..]))
    && Tabled(s.d.levels, s.disk.tables) && BuiltOk(s.disk.manifest, s.mode.built)
    && Installs(s.mode.base.levels, OpenEdit(s.mode.built), s.d.levels)
    && (s.mode.newLog.Some? ==>
          && s.mode.done == |s.mode.replay| && s.disk.l.list != [] && |s.disk.l.starts| == |s.disk.l.list|
          && s.disk.l.Last() == s.mode.newLog.value && s.disk.l.Last() in s.disk.l.files
          && s.disk.l.starts[|s.disk.l.starts| - 1] == |s.disk.l.history| && Below(s.disk.l, s.d.nextFile))
  }

  ghost predicate Inv(s: State) {
    if s.mode.Running? then MemoryOk(s) && WorkOk(s) && FilesOk(s)
    else BaseOk(s.disk, s.mode, s.d.nextFile) && OpeningOk(s)
  }
}
