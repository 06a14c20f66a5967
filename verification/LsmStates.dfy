/** The database as a state machine: writes, memtable switches, flushes, automatic compactions, reopening. */
module LsmStates {
  import opened Keys
  import opened Tables
  import opened Overlaps
  import opened Picking
  import opened DropRule

  datatype Op = Put(key: UserKey, value: Bytes) | Delete(key: UserKey)

  /** history is a ghost record of every write that was applied, oldest first. */
  datatype Db = Db(history: seq<Entry>, lastSequence: nat, mem: seq<Entry>, imm: Option<seq<Entry>>,
                   levels: Levels, nextFile: nat, running: Option<Compaction>)

  function EntryOf(op: Op, sn: SeqNum): Entry {
    match op
    case Put(k, v) => Entry(k, sn, Value, v)
    case Delete(k) => Entry(k, sn, Deletion, [])
  }

  /** The entries of a batch: consecutive sequence numbers in batch order. */
  function Stamp(ops: seq<Op>, first: nat): seq<Entry>
    requires first + |ops| <= MAX_SEQUENCE
  {
    seq(|ops|, i requires 0 <= i < |ops| => EntryOf(ops[i], first + i))
  }

  ghost predicate InMem(s: Db, e: Entry) { e in s.mem || (s.imm.Some? && e in s.imm.value) }

  ghost predicate Stored(s: Db, e: Entry) { InMem(s, e) || InVersion(s.levels, e) }

  /** h is the last write to its key. */
  ghost predicate IsLatest(history: seq<Entry>, h: Entry) {
    h in history && forall x :: x in history && x.ukey == h.ukey ==> x.sn <= h.sn
  }

  ghost predicate HistoryInv(s: Db) {
    && s.lastSequence < MAX_SEQUENCE
    && (forall e :: e in s.history ==> e.sn <= s.lastSequence)
    && Numbered(Entries(s.history))
    && (forall e :: Stored(s, e) ==> e in s.history)
  }

  /** Memtables are newer than the immutable memtable, which is newer than every table. */
  ghost predicate Ages(s: Db) {
    && Sorted(s.mem) && (s.imm.Some? ==> Sorted(s.imm.value))
    && (s.imm.Some? ==> forall e, x :: e in s.mem && x in s.imm.value ==> e.sn > x.sn)
    && (forall e, x :: InMem(s, e) && InVersion(s.levels, x) ==> e.sn > x.sn)
  }

  /** The last write to a key is stored, or it is a deletion and the key is gone altogether. */
  ghost predicate Complete(s: Db) {
    forall h :: IsLatest(s.history, h) ==>
      Stored(s, h) || (h.kind.Deletion? && forall e :: Stored(s, e) ==> e.ukey != h.ukey)
  }

  ghost predicate FileNumbers(v: Levels, next: nat) {
    && (forall l, f :: 0 <= l < |v| && f in v[l] ==> f.number < next)
    && (forall k, l, f, g :: 0 <= k < |v| && 0 <= l < |v| && f in v[k] && g in v[l] && f.number == g.number ==> k == l && f == g)
  }

  /** What stays true of a compaction's inputs while flushes go on around it. */
  ghost predicate RunningInv(v: Levels, c: Compaction) {
    && c.level + 1 < |v| == |c.base|
    && (forall g :: g in c.inputs0 ==> g in v[c.level])
    && (forall g :: g in c.inputs1 ==> g in v[c.level + 1])
    && GapFree(c.Inputs())
    && (forall k :: c.level + 2 <= k < |c.base| ==> LaidOut(c.base[k]))
    && (forall x, g :: x in v[c.level] && x !in c.inputs0 && g in c.inputs0 ==> Newer(x, g))
    && (forall x :: x in v[c.level + 1] && x !in c.inputs1 ==> MissesAll(c.Inputs(), x.Lo(), x.Hi()))
    && (forall k, x :: c.level + 2 <= k < |v| && x in v[k] && x !in c.base[k] ==> MissesAll(c.Inputs(), x.Lo(), x.Hi()))
  }

  /** No client snapshot: the smallest snapshot is the LastSequence the compaction started at. */
  ghost predicate SnapshotInv(s: Db, c: Compaction) {
    && c.snapshot <= s.lastSequence
    && (forall g, e :: g in c.Inputs() && e in g.entries ==> e.sn <= c.snapshot)
  }

  ghost predicate Inv(s: Db) {
    && VersionInv(s.levels) && FileNumbers(s.levels, s.nextFile)
    && HistoryInv(s) && Ages(s) && Complete(s)
    && (s.running.Some? ==> RunningInv(s.levels, s.running.value) && SnapshotInv(s, s.running.value))
  }

  // ---------- steps ----------

  ghost predicate Init(s: Db) {
    s == Db([], s.lastSequence, [], None, seq(NUM_LEVELS, _ => []), s.nextFile, None) && s.lastSequence < MAX_SEQUENCE
  }

  /** A group of writes: logged and inserted into mem, then published. */
  ghost predicate Write(s: Db, s': Db, ops: seq<Op>) {
    && s.lastSequence + |ops| < MAX_SEQUENCE
    && var new_ := Stamp(ops, s.lastSequence + 1);
       s' == s.(history := s.history + new_, lastSequence := s.lastSequence + |ops|, mem := s'.mem)
       && Sorted(s'.mem) && (forall e :: e in s'.mem <==> e in s.mem || e in new_)
  }

  /** A write that failed before reaching mem still uses up its sequence numbers. */
  ghost predicate FailedWrite(s: Db, s': Db) {
    s.lastSequence <= s'.lastSequence < MAX_SEQUENCE && s' == s.(lastSequence := s'.lastSequence)
  }

  /** MakeRoomForWrite: the memtable becomes immutable; the new log file takes a number. */
  ghost predicate SwitchMemTable(s: Db, s': Db) {
    s.imm.None? && s.nextFile <= s'.nextFile && s' == s.(imm := Some(s.mem), mem := [], nextFile := s'.nextFile)
  }

  /** Version edits: the files of level l lose those in gone and gain those in came. */
  ghost predicate Edited(old_: seq<File>, gone: seq<File>, came: seq<File>, new_: seq<File>) {
    SortedFiles(new_) && forall f :: f in new_ <==> (f in old_ && f !in gone) || f in came
  }

  /** The number of a table made of the newest entries: no file has it, and level 0 only smaller ones. */
  ghost predicate NewestNumber(v: Levels, n: nat) {
    && (forall k, g :: 0 <= k < |v| && g in v[k] ==> g.number != n)
    && (0 < |v| ==> forall g :: g in v[0] ==> g.number < n)
  }

  /** CompactMemTable; it may run while a compaction is in progress, and log files take numbers as well. */
  ghost predicate Flush(s: Db, s': Db, f: File, l: nat) {
    && s.imm.Some?
    && |s.levels| == NUM_LEVELS
    && if s.imm.value == [] then s' == s.(imm := None)
       else
         && l < NUM_LEVELS == |s'.levels|
         && f.entries == s.imm.value && WfFile(f) && f.number < s'.nextFile && NewestNumber(s.levels, f.number)
         && Placeable(s.levels, f, l)
         && Edited(s.levels[l], [], [f], s'.levels[l])
         && (forall k :: 0 <= k < NUM_LEVELS && k != l ==> s'.levels[k] == s.levels[k])
         && s.nextFile <= s'.nextFile && s' == s.(imm := None, levels := s'.levels, nextFile := s'.nextFile)
  }

  /** PickCompaction by the background thread, which has no other compaction running. */
  ghost predicate StartCompaction(s: Db, s': Db, c: Compaction) {
    && s.running.None? && s.imm.None?
    && Picked(s.levels, c) && c.snapshot == s.lastSequence
    && s' == s.(running := Some(c))
  }

  ghost predicate Installed(v: Levels, v': Levels, c: Compaction, outs: seq<File>) {
    && c.level + 1 < |v| == |v'|
    && Edited(v[c.level], c.inputs0, [], v'[c.level])
    && Edited(v[c.level + 1], c.inputs1, outs, v'[c.level + 1])
    && (forall k :: 0 <= k < |v| && k != c.level && k != c.level + 1 ==> v'[k] == v[k])
  }

  /** m is the sorted merge of the inputs. */
  ghost predicate Merged(ins: seq<File>, m: seq<Entry>) {
    Sorted(m) && forall e :: e in m <==> exists g :: g in ins && e in g.entries
  }

  function Flatten(outs: seq<File>): seq<Entry> {
    if outs == [] then [] else Flatten(outs[..|outs| - 1]) + outs[|outs| - 1].entries
  }

  ghost predicate FreshFiles(outs: seq<File>, next: nat, next': nat) {
    && next <= next'
    && (forall i :: 0 <= i < |outs| ==> WfFile(outs[i]) && next <= outs[i].number < next')
    && (forall i, j :: 0 <= i < j < |outs| ==> outs[i].number < outs[j].number)
  }

  /** Outputs numbered in the order they were opened, with numbers no file of the version has. */
  ghost predicate NewFiles(v: Levels, outs: seq<File>, next: nat) {
    && (forall i :: 0 <= i < |outs| ==> WfFile(outs[i]) && outs[i].number < next)
    && (forall i, j :: 0 <= i < j < |outs| ==> outs[i].number < outs[j].number)
    && (forall k, g, o :: 0 <= k < |v| && g in v[k] && o in outs ==> g.number != o.number)
  }

  ghost predicate FinishCompaction(s: Db, s': Db, m: seq<Entry>, outs: seq<File>) {
    && s.running.Some?
    && var c := s.running.value;
       && Merged(c.Inputs(), m)
       && Flatten(outs) == Kept(m, |m|, c.snapshot, c.base, c.level)
       && s.nextFile <= s'.nextFile && NewFiles(s.levels, outs, s'.nextFile)
       && Installed(s.levels, s'.levels, c, outs)
       && s' == s.(levels := s'.levels, nextFile := s'.nextFile, running := None)
  }

  /** One file without overlap below moves down as it is. */
  ghost predicate TrivialMove(s: Db, s': Db, c: Compaction) {
    && s.running.None?
    && Picked(s.levels, c) && |c.inputs0| == 1 && c.inputs1 == []
    && Installed(s.levels, s'.levels, c, c.inputs0)
    && s' == s.(levels := s'.levels)
  }

  /** An I/O error or a shutdown: the outputs are thrown away. */
  ghost predicate AbandonCompaction(s: Db, s': Db) {
    s.running.Some? && s.nextFile <= s'.nextFile && s' == s.(running := None, nextFile := s'.nextFile)
  }

  /** NewFileNumber for a log file, or for a table that came to nothing. */
  ghost predicate TakeNumbers(s: Db, s': Db) {
    s.nextFile <= s'.nextFile && s' == s.(nextFile := s'.nextFile)
  }

  /** The database is opened again: all logged entries are in one memtable, and the numbers start where they may. */
  ghost predicate Recover(s: Db, s': Db) {
    && s'.lastSequence < MAX_SEQUENCE && (forall e :: e in s.history ==> e.sn <= s'.lastSequence)
    && FileNumbers(s.levels, s'.nextFile)
    && Sorted(s'.mem) && (forall e :: e in s'.mem <==> InMem(s, e))
    && s' == Db(s.history, s'.lastSequence, s'.mem, None, s.levels, s'.nextFile, None)
  }

  /** While opening, the oldest entries of the memtable become a table of level 0. */
  ghost predicate RecoverTable(s: Db, s': Db, f: File) {
    && s.imm.None? && s.running.None? && |s.levels| == |s'.levels| == NUM_LEVELS
    && WfFile(f) && f.number < s'.nextFile && NewestNumber(s.levels, f.number)
    && (forall e :: e in s.mem <==> e in f.entries || e in s'.mem) && Sorted(s'.mem)
    && (forall e, x :: e in s'.mem && x in f.entries ==> e.sn > x.sn)
    && Edited(s.levels[0], [], [f], s'.levels[0])
    && (forall k :: 1 <= k < NUM_LEVELS ==> s'.levels[k] == s.levels[k])
    && s.nextFile <= s'.nextFile && s' == s.(mem := s'.mem, levels := s'.levels, nextFile := s'.nextFile)
  }

  ghost predicate Next(s: Db, s': Db) {
    || (exists ops :: Write(s, s', ops))
    || FailedWrite(s, s')
    || SwitchMemTable(s, s')
    || (exists f, l :: Flush(s, s', f, l))
    || (exists c :: StartCompaction(s, s', c))
    || (exists m, outs :: FinishCompaction(s, s', m, outs))
    || (exists c :: TrivialMove(s, s', c))
    || AbandonCompaction(s, s')
    || TakeNumbers(s, s')
    || Recover(s, s')
    || (exists f :: RecoverTable(s, s', f))
  }

  ghost predicate Path(states: seq<Db>) {
    0 < |states| && forall i :: 0 <= i < |states| - 1 ==> Next(states[i], states[i + 1])
  }

  ghost predicate Run(states: seq<Db>) { Path(states) && Init(states[0]) }

  /** s' can be reached from s. */
  ghost predicate Steps(s: Db, s': Db) {
    exists path :: Path(path) && path[0] == s && path[|path| - 1] == s'
  }

  lemma NoStep(s: Db)
    ensures Steps(s, s)
  {
    assert Path([s]) && [s][|[s]| - 1] == s;
  }

  lemma OneMoreStep(s: Db, s': Db, s'': Db)
    requires Steps(s, s') && Next(s', s'')
    ensures Steps(s, s'')
  {
    hide Next;
    var path :| Path(path) && path[0] == s && path[|path| - 1] == s';
    var longer := path + [s''];
    assert Path(longer) by {
      forall i | 0 <= i < |longer| - 1 ensures Next(longer[i], longer[i + 1]) {
        if i < |path| - 1 { assert Next(path[i], path[i + 1]); }
      }
    }
    assert longer[0] == s && longer[|longer| - 1] == s'';
  }
}
