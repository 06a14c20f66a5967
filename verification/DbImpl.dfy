/** DBImpl: the methods that move the database, each one a step of the state machine. */
module DbImpl {
  import opened Keys
  import opened Tables
  import opened Overlaps
  import opened Picking
  import opened DropRule
  import opened LsmStates
  import opened LsmProofs
  import opened Compacting
  import opened VersionBuilder
  import Reads

  datatype Options = Options(maxFileSize: nat) {
    function GrandParentLimit(): nat { 10 * maxFileSize }
    function ExpandLimit(): nat { 25 * maxFileSize }
  }

  ghost predicate FilesOfEdit(e: Edit, l: nat, gone: seq<File>, came: seq<File>) {
    && (forall d :: d in e.deleted && d.0 == l ==> exists f :: f in gone && f.number == d.1)
    && (forall f :: f in gone ==> (l, f.number) in e.deleted)
    && AddedAt(e, |e.added|, l) == FileSet(came)
  }

  method LogAndApply(v: Levels, e: Edit) returns (v': Levels)
    requires Shape(v) && WfEdit(e)
    requires forall l :: 0 <= l < NUM_LEVELS ==> FreshAt(FileSet(v[l]), e, |e.added|, l)
    ensures |v'| == NUM_LEVELS
    ensures forall l :: 0 <= l < NUM_LEVELS ==> SortedFiles(v'[l]) && FileSet(v'[l]) == ApplyTo(FileSet(v[l]), e, l)
  {
    var b := new Builder(v);
    b.Apply(e);
    v' := b.SaveTo();
  }

  /** Files added to one level. */
  function AddTo(level: nat, files: seq<File>): seq<(nat, File)> {
    seq(|files|, i requires 0 <= i < |files| => (level, files[i]))
  }

  lemma {:induction false} AddToLevel(deleted: set<(nat, nat)>, level: nat, files: seq<File>, n: nat, l: nat)
    requires n <= |files|
    ensures AddedAt(Edit(deleted, AddTo(level, files)), n, l) == if l == level then FileSet(files[..n]) else {}
  {
    if n > 0 {
      AddToLevel(deleted, level, files, n - 1, l);
      assert files[..n] == files[..n - 1] + [files[n - 1]];
    }
  }

  lemma FreshAddTo(deleted: set<(nat, nat)>, level: nat, files: seq<File>, seen: set<File>, l: nat)
    requires forall i, j :: 0 <= i < j < |files| ==> files[i].number != files[j].number
    requires l == level ==> forall f, g :: f in files && g in seen ==> f.number != g.number
    ensures FreshAt(seen, Edit(deleted, AddTo(level, files)), |files|, l)
  {
    forall i | 0 <= i < |files| && l == level
      ensures !HasNumber(seen, files[i].number) && !HasNumber(AddedAt(Edit(deleted, AddTo(level, files)), i, l), files[i].number)
    {
      AddToLevel(deleted, level, files, i, l);
      assert files[i] in files;
    }
  }

  /** InstallCompactionResults: delete the inputs of both levels, add the outputs to the lower one. */
  function InstallEdit(c: Compaction, outs: seq<File>): Edit {
    Edit((set f | f in c.inputs0 :: (c.level, f.number)) + (set f | f in c.inputs1 :: (c.level + 1, f.number)),
         AddTo(c.level + 1, outs))
  }

  ghost predicate OutputsAreNew(v: Levels, c: Compaction, outs: seq<File>)
    requires c.level + 1 < |v|
  {
    && (forall i, j :: 0 <= i < j < |outs| ==> outs[i].number != outs[j].number)
    && (forall f, g :: f in outs && g in v[c.level + 1] ==> f.number != g.number)
  }

  function Gone(c: Compaction, l: nat): seq<File> {
    if l == c.level then c.inputs0 else if l == c.level + 1 then c.inputs1 else []
  }

  function Came(c: Compaction, outs: seq<File>, l: nat): seq<File> {
    if l == c.level + 1 then outs else []
  }

  lemma InstallEditFiles(c: Compaction, outs: seq<File>, l: nat)
    ensures FilesOfEdit(InstallEdit(c, outs), l, Gone(c, l), Came(c, outs, l))
  {
    AddToLevel(InstallEdit(c, outs).deleted, c.level + 1, outs, |outs|, l);
    assert outs[..|outs|] == outs;
  }

  /** Deleting by number deletes exactly the files meant, because numbers are unique. */
  lemma LevelOfEdit(old_: seq<File>, new_: seq<File>, e: Edit, l: nat, gone: seq<File>, came: seq<File>)
    requires forall f, g :: f in old_ && g in old_ && f.number == g.number ==> f == g
    requires FilesOfEdit(e, l, gone, came) && SortedFiles(old_)
    requires forall f :: f in gone ==> f in old_
    requires SortedFiles(new_) && FileSet(new_) == ApplyTo(FileSet(old_), e, l)
    ensures Edited(old_, gone, came, new_)
    ensures gone == [] && came == [] ==> new_ == old_
  {
    forall f ensures f in new_ <==> (f in old_ && f !in gone) || f in came {
      assert f in new_ <==> f in FileSet(new_);
      assert f in came <==> f in FileSet(came);
    }
    if gone == [] && came == [] {
      assert FileSet(new_) == FileSet(old_);
      SortedIsUnique(new_, old_);
    }
  }

  lemma EditInstallsAt(v: Levels, v': Levels, c: Compaction, outs: seq<File>, next: nat, l: nat)
    requires Shape(v) && FileNumbers(v, next) && l < NUM_LEVELS == |v'|
    requires forall f :: f in Gone(c, l) ==> f in v[l]
    requires SortedFiles(v'[l]) && FileSet(v'[l]) == ApplyTo(FileSet(v[l]), InstallEdit(c, outs), l)
    ensures Edited(v[l], Gone(c, l), Came(c, outs, l), v'[l])
    ensures l != c.level && l != c.level + 1 ==> v'[l] == v[l]
  {
    InstallEditFiles(c, outs, l);
    LevelOfEdit(v[l], v'[l], InstallEdit(c, outs), l, Gone(c, l), Came(c, outs, l));
  }

  lemma EditInstalls(v: Levels, v': Levels, c: Compaction, outs: seq<File>, next: nat)
    requires Shape(v) && FileNumbers(v, next) && |v'| == NUM_LEVELS && c.level + 1 < NUM_LEVELS
    requires forall g :: g in c.inputs0 ==> g in v[c.level]
    requires forall g :: g in c.inputs1 ==> g in v[c.level + 1]
    requires forall l :: 0 <= l < NUM_LEVELS ==> SortedFiles(v'[l]) && FileSet(v'[l]) == ApplyTo(FileSet(v[l]), InstallEdit(c, outs), l)
    ensures Installed(v, v', c, outs)
  {
    EditInstallsAt(v, v', c, outs, next, c.level);
    EditInstallsAt(v, v', c, outs, next, c.level + 1);
    forall l | 0 <= l < NUM_LEVELS && l != c.level && l != c.level + 1 ensures v'[l] == v[l] {
      EditInstallsAt(v, v', c, outs, next, l);
    }
  }

  lemma InstallEditIsFresh(v: Levels, c: Compaction, outs: seq<File>, l: nat)
    requires l < NUM_LEVELS == |v| && c.level + 1 < NUM_LEVELS && OutputsAreNew(v, c, outs)
    ensures FreshAt(FileSet(v[l]), InstallEdit(c, outs), |outs|, l)
  {
    FreshAddTo(InstallEdit(c, outs).deleted, c.level + 1, outs, FileSet(v[l]), l);
  }

  method Install(v: Levels, c: Compaction, outs: seq<File>, ghost next: nat) returns (v': Levels)
    requires Shape(v) && FileNumbers(v, next) && c.level + 1 < NUM_LEVELS && OutputsAreNew(v, c, outs)
    requires forall g :: g in c.inputs0 ==> g in v[c.level]
    requires forall g :: g in c.inputs1 ==> g in v[c.level + 1]
    ensures Installed(v, v', c, outs)
  {
    var e := InstallEdit(c, outs);
    forall l | 0 <= l < NUM_LEVELS ensures FreshAt(FileSet(v[l]), e, |e.added|, l) {
      InstallEditIsFresh(v, c, outs, l);
    }
    v' := LogAndApply(v, e);
    EditInstalls(v, v', c, outs, next);
  }

  lemma EditFlushes(v: Levels, v': Levels, f: File, level: nat, next: nat)
    requires Shape(v) && FileNumbers(v, next) && |v'| == NUM_LEVELS && level < NUM_LEVELS && Placeable(v, f, level)
    requires forall l :: 0 <= l < NUM_LEVELS ==>
               SortedFiles(v'[l]) && FileSet(v'[l]) == ApplyTo(FileSet(v[l]), Edit({}, AddTo(level, [f])), l)
    ensures FileAdded(v, v', f, level)
  {
    var e := Edit({}, AddTo(level, [f]));
    assert [f][..1] == [f];
    AddToLevel({}, level, [f], 1, level);
    LevelOfEdit(v[level], v'[level], e, level, [], [f]);
    forall l | 0 <= l < NUM_LEVELS && l != level ensures v'[l] == v[l] {
      AddToLevel({}, level, [f], 1, l);
      LevelOfEdit(v[l], v'[l], e, l, [], []);
    }
  }

  method InstallFlush(v: Levels, f: File, level: nat, ghost next: nat) returns (v': Levels)
    requires Shape(v) && FileNumbers(v, next) && NewestNumber(v, f.number) && level < NUM_LEVELS && Placeable(v, f, level)
    ensures FileAdded(v, v', f, level)
  {
    var e := Edit({}, AddTo(level, [f]));
    forall l | 0 <= l < NUM_LEVELS ensures FreshAt(FileSet(v[l]), e, |e.added|, l) {
      FreshAddTo({}, level, [f], FileSet(v[l]), l);
    }
    v' := LogAndApply(v, e);
    EditFlushes(v, v', f, level, next);
  }

  /** The files two levels down that the inputs meet are small enough in total; this keeps later merges cheap. */
  ghost predicate FewGrandparents(v: Levels, c: Compaction, limit: nat) {
    c.level + 2 < |v| ==>
      exists lo, hi :: IsRange(c.Inputs(), lo, hi) && TotalFileSize(Meeting(v[c.level + 2], Some(lo), Some(hi))) <= limit
  }

  lemma RangeIsUnique(fs: seq<File>, lo: UserKey, hi: UserKey, lo': UserKey, hi': UserKey)
    requires IsRange(fs, lo, hi) && IsRange(fs, lo', hi')
    ensures lo == lo' && hi == hi'
  {
  }

  /** Compaction::IsTrivialMove. */
  method IsTrivialMove(v: Levels, c: Compaction, options: Options) returns (b: bool)
    requires Shape(v) && Picked(v, c)
    ensures b <==> |c.inputs0| == 1 && c.inputs1 == [] && FewGrandparents(v, c, options.GrandParentLimit())
  {
    var grandparents: seq<File> := [];
    if c.level + 2 < NUM_LEVELS {
      RangesAreOrdered(v);
      var smallest, largest := GetRange(c.Inputs());
      var files, _, _ := GetOverlappingInputs(v[c.level + 2], false, Some(smallest.ukey), Some(largest.ukey));
      grandparents := files;
      assert forall g :: g in c.Inputs() ==> g.Lo() <= g.Hi();
      RangeOfKeys(c.Inputs(), smallest, largest);
      forall lo, hi | IsRange(c.Inputs(), lo, hi) ensures lo == smallest.ukey && hi == largest.ukey {
        RangeIsUnique(c.Inputs(), lo, hi, smallest.ukey, largest.ukey);
      }
    }
    b := |c.inputs0| == 1 && |c.inputs1| == 0 && TotalFileSize(grandparents) <= options.GrandParentLimit();
  }

  method MoveFile(v: Levels, c: Compaction, ghost next: nat) returns (v': Levels)
    requires VersionInv(v) && FileNumbers(v, next) && Picked(v, c) && |c.inputs0| == 1 && c.inputs1 == []
    ensures Installed(v, v', c, c.inputs0)
  {
    assert c.inputs0[0] in v[c.level];
    v' := Install(v, c, c.inputs0, next);
  }

  method WriteLevel0Table(v: Levels, es: seq<Entry>, number: nat, options: Options)
    returns (v': Levels, f: File, level: nat)
    requires Shape(v) && LevelsDisjoint(v) && FileNumbers(v, number) && Sorted(es) && es != []
    ensures f.entries == es && f.number == number && WfFile(f) && FileAdded(v, v', f, level)
  {
    var size: nat :| true;
    f := File(number, size, es[0].Key(), es[|es| - 1].Key(), es);
    FileCovers(f, es[0]);
    level := PickLevelForMemTableOutput(v, f, options.GrandParentLimit());
    v' := InstallFlush(v, f, level, number);
  }

  /** No file of the version has the number of an output. */
  ghost predicate Apart(v: Levels, st: CompactionState) {
    forall k, g :: 0 <= k < |v| && g in v[k] ==> !st.Uses(g.number)
  }

  /** A compaction in progress: its outputs so far hold the survivors of the first i merged entries. */
  ghost predicate Halfway(d: Db, c: Compaction, m: seq<Entry>, i: nat, st: CompactionState, first: nat) {
    && Inv(d) && d.running == Some(c) && Merged(c.Inputs(), m) && i <= |m|
    && st.Inv(first) && st.nextFile <= d.nextFile && Apart(d.levels, st)
    && st.Written() == Kept(m, i, c.snapshot, c.base, c.level)
  }

  lemma StillApart(v: Levels, v': Levels, f: File, l: nat, st: CompactionState, first: nat, next: nat)
    requires Apart(v, st) && FileAdded(v, v', f, l) && st.Inv(first) && st.nextFile <= next <= f.number
    ensures Apart(v', st)
  {
    FileAddedMembers(v, v', f, l);
    assert !st.Uses(f.number);
  }

  lemma HalfwayFacts(d: Db, c: Compaction, m: seq<Entry>, i: nat, st: CompactionState, first: nat)
    requires Halfway(d, c, m, i, st, first)
    ensures Inv(d) && d.running == Some(c) && st.Inv(first) && st.nextFile <= d.nextFile && Apart(d.levels, st)
    ensures i <= |m| && st.Written() == Kept(m, i, c.snapshot, c.base, c.level)
  {
  }

  lemma DropEntry(d: Db, c: Compaction, m: seq<Entry>, i: nat, st: CompactionState, first: nat)
    requires Halfway(d, c, m, i, st, first) && i < |m| && Dropped(m, i, c.snapshot, c.base, c.level)
    ensures Halfway(d, c, m, i + 1, st, first)
  {
    hide Inv, Merged, Apart, Dropped;
  }

  lemma KeptOne(m: seq<Entry>, i: nat, c: Compaction)
    requires i < |m| && Sorted(m) && !Dropped(m, i, c.snapshot, c.base, c.level)
    ensures Kept(m, i + 1, c.snapshot, c.base, c.level) == Kept(m, i, c.snapshot, c.base, c.level) + [m[i]]
    ensures Sorted(Kept(m, i, c.snapshot, c.base, c.level) + [m[i]])
  {
    KeptSorted(m, i + 1, c.snapshot, c.base, c.level);
  }

  lemma KeepHalfway(s: Db, s': Db, c: Compaction, m: seq<Entry>, i: nat, st: CompactionState, r: CompactionState, first: nat)
    requires Halfway(s, c, m, i, st, first) && i < |m| && Inv(s') && s' == s.(nextFile := s'.nextFile)
    requires r.Inv(first) && r.nextFile <= s'.nextFile && Apart(s'.levels, r)
    requires r.Written() == Kept(m, i + 1, c.snapshot, c.base, c.level)
    ensures Halfway(s', c, m, i + 1, r, first)
  {
    hide Inv, Kept, Merged, Apart;
  }

  /** FinishCompactionOutputFile between two entries. */
  method CloseOutput(ghost d: Db, ghost c: Compaction, ghost m: seq<Entry>, ghost i: nat, st: CompactionState, ghost first: nat)
    returns (r: CompactionState)
    requires Halfway(d, c, m, i, st, first)
    ensures Halfway(d, c, m, i, r, first) && r.builder.None?
  {
    HalfwayFacts(d, c, m, i, st, first);
    hide Inv, Kept, Merged;
    r := FinishOutputFile(st, first);
  }

  lemma NothingYet(d: Db, c: Compaction, m: seq<Entry>, st: CompactionState)
    requires Inv(d) && d.running == Some(c) && Merged(c.Inputs(), m) && st == CompactionState([], None, d.nextFile)
    ensures Halfway(d, c, m, 0, st, d.nextFile)
  {
  }

  /** All outputs closed: the compaction can be installed. */
  lemma HalfwayDone(d: Db, c: Compaction, m: seq<Entry>, st: CompactionState, first: nat)
    requires Inv(d) && d.running == Some(c) && st.Inv(first) && st.nextFile <= d.nextFile && Apart(d.levels, st)
    requires st.Written() == Kept(m, |m|, c.snapshot, c.base, c.level) && st.builder.None?
    ensures Flatten(st.outs) == Kept(m, |m|, c.snapshot, c.base, c.level) && NewFiles(d.levels, st.outs, d.nextFile)
  {
    hide Inv, Kept, Merged;
    assert st.Written() == Flatten(st.outs);
    forall k, g, o | 0 <= k < |d.levels| && g in d.levels[k] && o in st.outs ensures g.number != o.number {
      assert !st.Uses(g.number);
    }
  }

  lemma InputsNumbered(s: Db, c: Compaction, e: Entry)
    requires Inv(s) && s.running == Some(c) && InFiles(c.Inputs(), e)
    ensures e in Entries(s.history) && Numbered(Entries(s.history))
  {
    var g :| g in c.Inputs() && e in g.entries;
    assert g in s.levels[c.level] || g in s.levels[c.level + 1];
    assert InVersion(s.levels, e) && Stored(s, e);
  }

  class DBImpl {
    ghost var history: seq<Entry>
    var lastSequence: nat
    var mem: seq<Entry>
    var imm: Option<seq<Entry>>
    var levels: Levels
    var nextFile: nat
    var running: Option<Compaction>
    const options: Options

    ghost function State(): Db
      reads this
    {
      Db(history, lastSequence, mem, imm, levels, nextFile, running)
    }

    constructor (options: Options)
      ensures Init(State()) && Inv(State())
    {
      this.options := options;
      history, lastSequence, mem, imm, nextFile, running := [], 0, [], None, 2, None;
      levels := seq(NUM_LEVELS, _ => []);
      new;
      InitInv(State());
    }

    /** Number the batch, insert it into mem and publish the new LastSequence. */
    method Write(ops: seq<Op>)
      requires Inv(State()) && lastSequence + |ops| < MAX_SEQUENCE
      modifies this
      ensures LsmStates.Write(old(State()), State(), ops) && Inv(State())
    {
      var batch := Stamp(ops, lastSequence + 1);
      for i := 0 to |batch|
        invariant Sorted(mem) && (forall e :: e in mem <==> e in old(mem) || e in batch[..i])
        invariant State() == old(State()).(mem := mem)
      {
        NumberedBatch(old(State()), ops, i, mem);
        mem := InsertEntry(mem, batch[i]);
      }
      assert batch[..|batch|] == batch;
      history := history + batch;
      lastSequence := lastSequence + |ops|;
      WriteInv(old(State()), State(), ops);
    }

    /** MakeRoomForWrite: the full memtable becomes the immutable one, and a new log file is opened. */
    method SwitchMemTable()
      requires Inv(State()) && imm.None?
      modifies this
      ensures LsmStates.SwitchMemTable(old(State()), State()) && Inv(State())
    {
      imm := Some(mem);
      mem := [];
      nextFile := nextFile + 1;
      SwitchInv(old(State()), State());
    }

    /** Write the immutable memtable to a table at the level the current version allows; a failure only uses up a number. */
    method CompactMemTable() returns (ok: bool, ghost f: File, ghost level: nat)
      requires Inv(State()) && imm.Some?
      modifies this
      ensures if ok then Flush(old(State()), State(), f, level) else TakeNumbers(old(State()), State())
      ensures ok && old(imm.value) != [] ==> old(nextFile) <= f.number
      ensures Inv(State())
    {
      f, level := File(0, 0, IKey(0.0, 0, Value), IKey(0.0, 0, Value), []), 0;
      ok := *;
      if !ok {
        nextFile := nextFile + 1;
        TakeNumbersInv(old(State()), State());
        return;
      }
      if imm.value != [] {
        var v, file, l := WriteLevel0Table(levels, imm.value, nextFile, options);
        levels := v;
        nextFile := nextFile + 1;
        f, level := file, l;
      }
      imm := None;
      FlushInv(old(State()), State(), f, level);
    }

    /** PickCompaction, then a trivial move or the start of a compaction. */
    method BackgroundCompaction(level: nat, why: Trigger)
      requires Inv(State()) && running.None? && imm.None? && level + 1 < NUM_LEVELS
      requires why.BySize? ==> levels[level] != []
      requires why.BySeek? ==> why.file in levels[level]
      modifies this
      ensures Next(old(State()), State()) && Inv(State())
    {
      var c, _ := PickCompaction(levels, level, why, options.ExpandLimit());
      var trivial := IsTrivialMove(levels, c, options);
      if trivial {
        levels := MoveFile(levels, c, nextFile);
        assert TrivialMove(old(State()), State(), c);
        TrivialMoveInv(old(State()), State(), c);
      } else {
        running := Some(c.(snapshot := lastSequence));
        assert StartCompaction(old(State()), State(), running.value);
        StartInv(old(State()), State(), running.value);
      }
    }

    /** What other threads do while the compaction has let go of the mutex: write and switch memtables. */
    method OtherThreads(ghost start: Db)
      requires Inv(State()) && Steps(start, State())
      modifies this
      ensures Inv(State()) && Steps(start, State())
      ensures running == old(running) && levels == old(levels) && old(nextFile) <= nextFile
    {
      hide Inv, Steps, Next;
      var turns: nat :| true;
      for i := 0 to turns
        invariant Inv(State()) && Steps(start, State())
        invariant running == old(running) && levels == old(levels) && old(nextFile) <= nextFile
      {
        ghost var s := State();
        var ops: seq<Op> := *;
        if imm.None? && |ops| == 0 {
          SwitchMemTable();
          IsSwitch(s, State());
        } else if lastSequence + |ops| < MAX_SEQUENCE {
          Write(ops);
          IsWrite(s, State(), ops);
        }
        if s != State() { OneMoreStep(start, s, State()); }
      }
    }

    /** The part of the loop of DoCompactionWork that flushes an immutable memtable first. */
    method FlushBetween(ghost start: Db, st: CompactionState, ghost c: Compaction, ghost m: seq<Entry>, ghost i: nat, ghost first: nat)
      requires Halfway(State(), c, m, i, st, first) && Steps(start, State())
      modifies this
      ensures Halfway(State(), c, m, i, st, first) && Steps(start, State())
    {
      hide Inv, Steps, Next, Kept, Merged;
      OtherThreads(start);
      if imm.Some? {
        ghost var s := State();
        var ok, f, level := CompactMemTable();
        IsFlush(s, State(), ok, f, level);
        OneMoreStep(start, s, State());
        if ok && s.imm.value != [] {
          StillApart(s.levels, levels, f, level, st, first, s.nextFile);
        }
      }
    }

    /** Add a surviving entry to the outputs, taking a file number if one has to be opened. */
    method KeepEntry(ghost start: Db, st: CompactionState, ghost c: Compaction, m: seq<Entry>, i: nat, ghost first: nat)
      returns (r: CompactionState)
      requires Halfway(State(), c, m, i, st, first) && Steps(start, State()) && i < |m| && Sorted(m)
      requires !Dropped(m, i, c.snapshot, c.base, c.level)
      modifies `nextFile
      ensures Halfway(State(), c, m, i + 1, r, first) && Steps(start, State())
    {
      hide Inv, Steps, Next, Merged, Dropped, Apart, Halfway, Kept, Sorted;
      ghost var s := State();
      HalfwayFacts(s, c, m, i, st, first);
      KeptOne(m, i, c);
      NumbersBelow(s);
      var number := nextFile;
      if st.builder.None? { nextFile := nextFile + 1; }
      r := AddToOutput(st, m[i], number, first);
      TookNumber(s, State());
      OneMoreStep(start, s, State());
      AddedApart(levels, st, r, number);
      KeepHalfway(s, State(), c, m, i, st, r, first);
    }

    /** One turn of the loop of DoCompactionWork; where files are cut is left open. */
    method CompactEntry(ghost start: Db, st: CompactionState, cursor: CompactionCursor, c: Compaction, m: seq<Entry>, i: nat, ghost first: nat)
      returns (r: CompactionState)
      requires Halfway(State(), c, m, i, st, first) && Steps(start, State()) && i < |m|
      requires cursor.At(m, i) && c.snapshot < MAX_SEQUENCE && Sorted(m) && cursor.v == c.base && cursor.level == c.level
      modifies this, cursor, cursor.ptrs
      ensures Halfway(State(), c, m, i + 1, r, first) && Steps(start, State())
      ensures cursor.At(m, i + 1)
    {
      hide Inv, Steps, Next, Merged, Halfway, Dropped, Kept;
      r := st;
      var stopBefore, full: bool := *, *;
      if stopBefore { r := CloseOutput(State(), c, m, i, r, first); }
      var drop := cursor.ShouldDrop(m, i, c.snapshot);
      if drop {
        DropEntry(State(), c, m, i, r, first);
      } else {
        r := KeepEntry(start, r, c, m, i, first);
        if full { r := CloseOutput(State(), c, m, i + 1, r, first); }
      }
    }

    /** The loop of DoCompactionWork over the merged inputs. */
    method CompactEntries(ghost start: Db, c: Compaction, m: seq<Entry>) returns (outs: seq<File>)
      requires Inv(State()) && running == Some(c) && Merged(c.Inputs(), m) && Steps(start, State())
      modifies this
      ensures Inv(State()) && running == Some(c) && Steps(start, State())
      ensures Flatten(outs) == Kept(m, |m|, c.snapshot, c.base, c.level) && NewFiles(levels, outs, nextFile)
    {
      hide Steps, Next, Inv, Merged, Halfway, NewFiles;
      RunningFacts(State(), c);
      MergedIsSorted(c.Inputs(), m);
      ghost var first := nextFile;
      var cursor := new CompactionCursor(c.level, c.base);
      var st := CompactionState([], None, nextFile);
      NothingYet(State(), c, m, st);
      for i := 0 to |m|
        invariant fresh(cursor) && fresh(cursor.ptrs) && cursor.At(m, i) && cursor.v == c.base && cursor.level == c.level
        invariant Halfway(State(), c, m, i, st, first) && Steps(start, State())
      {
        FlushBetween(start, st, c, m, i, first);
        st := CompactEntry(start, st, cursor, c, m, i, first);
      }
      st := CloseOutput(State(), c, m, |m|, st, first);
      HalfwayFacts(State(), c, m, |m|, st, first);
      HalfwayDone(State(), c, m, st, first);
      outs := st.outs;
    }

    /**
     DoCompactionWork and InstallCompactionResults. Memtables fill up and are flushed while the merge is going on,
     so their numbers lie between those of the outputs. A failure drops the outputs.
     */
    method DoCompactionWork()
      requires Inv(State()) && running.Some?
      modifies this
      ensures Steps(old(State()), State()) && Inv(State()) && running.None?
    {
      hide Steps, Next, Inv, Merged;
      ghost var start := State();
      var c := running.value;
      RunningFacts(start, c);
      forall e | InFiles(c.Inputs(), e) ensures e in Entries(history) { InputsNumbered(start, c, e); }
      var m := MergeInputs(c.Inputs(), Entries(history));
      NoStep(start);
      var outs := CompactEntries(start, c, m);
      ghost var s := State();
      var ok: bool := *;
      if ok {
        InstallFacts(s, c, outs);
        levels := Install(levels, c, outs, nextFile);
        running := None;
        IsFinish(s, State(), m, outs);
      } else {
        running := None;
        IsAbandon(s, State());
      }
      OneMoreStep(start, s, State());
    }

    method Get(u: UserKey) returns (value: Option<Bytes>)
      requires Inv(State())
      ensures value == Reads.GetOf(State(), u) && Reads.ReadsLastWrite(State(), u)
    {
      value := Reads.Get(mem, imm, levels, lastSequence, u, State());
    }
  }

  lemma IsSwitch(s: Db, s': Db)
    requires SwitchMemTable(s, s')
    ensures Next(s, s')
  {
  }

  lemma IsWrite(s: Db, s': Db, ops: seq<Op>)
    requires Write(s, s', ops)
    ensures Next(s, s')
  {
  }

  lemma IsFlush(s: Db, s': Db, ok: bool, f: File, l: nat)
    requires if ok then Flush(s, s', f, l) else TakeNumbers(s, s')
    ensures Next(s, s')
  {
  }

  lemma TookNumber(s: Db, s': Db)
    requires Inv(s) && s.nextFile <= s'.nextFile && s' == s.(nextFile := s'.nextFile)
    ensures Next(s, s') && Inv(s')
  {
    TakeNumbersInv(s, s');
  }

  lemma IsFinish(s: Db, s': Db, m: seq<Entry>, outs: seq<File>)
    requires Inv(s) && FinishCompaction(s, s', m, outs)
    ensures Next(s, s') && Inv(s')
  {
    FinishInv(s, s', m, outs);
  }

  lemma IsAbandon(s: Db, s': Db)
    requires Inv(s) && AbandonCompaction(s, s')
    ensures Next(s, s') && Inv(s')
  {
    AbandonInv(s, s');
  }

  lemma NumbersBelow(s: Db)
    requires Inv(s)
    ensures forall k, g :: 0 <= k < |s.levels| && g in s.levels[k] ==> g.number < s.nextFile
  {
  }

  lemma MergedIsSorted(ins: seq<File>, m: seq<Entry>)
    requires Merged(ins, m)
    ensures Sorted(m)
  {
  }

  lemma RunningFacts(s: Db, c: Compaction)
    requires Inv(s) && s.running == Some(c)
    ensures Numbered(Entries(s.history)) && c.snapshot < MAX_SEQUENCE
    ensures |c.base| == NUM_LEVELS && c.level + 1 < NUM_LEVELS && forall k :: c.level + 2 <= k < NUM_LEVELS ==> LaidOut(c.base[k])
  {
  }

  lemma InstallFacts(s: Db, c: Compaction, outs: seq<File>)
    requires Inv(s) && s.running == Some(c) && NewFiles(s.levels, outs, s.nextFile)
    ensures Shape(s.levels) && FileNumbers(s.levels, s.nextFile) && c.level + 1 < NUM_LEVELS && OutputsAreNew(s.levels, c, outs)
    ensures forall g :: g in c.inputs0 ==> g in s.levels[c.level]
    ensures forall g :: g in c.inputs1 ==> g in s.levels[c.level + 1]
  {
  }

  lemma AddedApart(v: Levels, st: CompactionState, r: CompactionState, number: nat)
    requires Apart(v, st) && r.outs == st.outs && r.builder.Some?
    requires r.builder.value.number == if st.builder.Some? then st.builder.value.number else number
    requires forall k, g :: 0 <= k < |v| && g in v[k] ==> g.number < number
    ensures Apart(v, r)
  {
    forall k, g | 0 <= k < |v| && g in v[k] ensures !r.Uses(g.number) {
      assert !st.Uses(g.number);
    }
  }

  lemma NumberedBatch(s: Db, ops: seq<Op>, i: nat, mem: seq<Entry>)
    requires Inv(s) && s.lastSequence + |ops| < MAX_SEQUENCE && i < |ops|
    requires forall e :: e in mem ==> e in s.mem || e in Stamp(ops, s.lastSequence + 1)[..i]
    ensures Numbered(Entries(mem) + {Stamp(ops, s.lastSequence + 1)[i]})
  {
    var batch := Stamp(ops, s.lastSequence + 1);
    assert forall e :: e in s.mem ==> Stored(s, e) && e in Entries(s.history);
  }
}
