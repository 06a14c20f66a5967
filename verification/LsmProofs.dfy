/** Every step keeps the invariant, so every run does, and Get returns the last write. */
module LsmProofs {
  import opened Keys
  import opened Tables
  import opened Overlaps
  import opened Picking
  import opened DropRule
  import opened LsmStates

  lemma InitInv(s: Db)
    requires Init(s)
    ensures Inv(s)
  {
  }

  // ---------- writes ----------

  lemma WriteKeepsHistory(s: Db, s': Db, ops: seq<Op>)
    requires Inv(s) && Write(s, s', ops)
    ensures HistoryInv(s')
  {
    var new_ := Stamp(ops, s.lastSequence + 1);
    StampNumbers(ops, s.lastSequence + 1);
    NumberedUnion(s.history, new_, s.lastSequence);
    forall e | Stored(s', e) ensures e in s'.history {
      assert Stored(s, e) || e in new_;
    }
  }

  lemma StampNumbers(ops: seq<Op>, first: nat)
    requires first + |ops| <= MAX_SEQUENCE
    ensures Numbered(Entries(Stamp(ops, first)))
    ensures forall e :: e in Stamp(ops, first) ==> first <= e.sn < first + |ops|
  {
  }

  lemma NumberedUnion(a: seq<Entry>, b: seq<Entry>, bound: nat)
    requires Numbered(Entries(a)) && Numbered(Entries(b))
    requires forall e :: e in a ==> e.sn <= bound
    requires forall e :: e in b ==> bound < e.sn
    ensures Numbered(Entries(a + b))
  {
    assert forall e :: e in Entries(a + b) ==> e in Entries(a) || e in Entries(b);
  }

  lemma WriteKeepsComplete(s: Db, s': Db, ops: seq<Op>)
    requires Inv(s) && Write(s, s', ops)
    ensures Complete(s')
  {
    var new_ := Stamp(ops, s.lastSequence + 1);
    assert forall e :: Stored(s', e) <==> Stored(s, e) || e in new_;
    forall h | IsLatest(s'.history, h)
      ensures Stored(s', h) || (h.kind.Deletion? && forall e :: Stored(s', e) ==> e.ukey != h.ukey)
    {
      if h !in new_ {
        assert IsLatest(s.history, h);
      }
    }
  }

  lemma WriteInv(s: Db, s': Db, ops: seq<Op>)
    requires Inv(s) && Write(s, s', ops)
    ensures Inv(s')
  {
    WriteKeepsHistory(s, s', ops);
    WriteKeepsComplete(s, s', ops);
    WriteKeepsAges(s, s', ops);
  }

  lemma WriteKeepsAges(s: Db, s': Db, ops: seq<Op>)
    requires HistoryInv(s) && Ages(s) && Write(s, s', ops)
    ensures Ages(s')
  {
    var new_ := Stamp(ops, s.lastSequence + 1);
    forall e, x | InMem(s', e) && InVersion(s'.levels, x) ensures e.sn > x.sn {
      assert InMem(s, e) || e in new_;
      assert Stored(s, x);
    }
    if s'.imm.Some? {
      forall e, x | e in s'.mem && x in s'.imm.value ensures e.sn > x.sn {
        assert e in s.mem || e in new_;
        assert Stored(s, x);
      }
    }
  }

  lemma FailedWriteInv(s: Db, s': Db)
    requires Inv(s) && FailedWrite(s, s')
    ensures Inv(s')
  {
    assert forall e :: Stored(s', e) <==> Stored(s, e);
    assert forall e :: InMem(s', e) <==> InMem(s, e);
  }

  lemma SwitchInv(s: Db, s': Db)
    requires Inv(s) && SwitchMemTable(s, s')
    ensures Inv(s')
  {
    assert FileNumbers(s'.levels, s'.nextFile);
    assert forall e :: InMem(s', e) <==> InMem(s, e);
    assert forall e :: Stored(s', e) <==> Stored(s, e);
  }

  // ---------- flush ----------

  /** f becomes a file of level l and nothing else changes. */
  ghost predicate FileAdded(v: Levels, v': Levels, f: File, l: nat) {
    && l < NUM_LEVELS == |v| == |v'|
    && Placeable(v, f, l)
    && Edited(v[l], [], [f], v'[l])
    && (forall k :: 0 <= k < NUM_LEVELS && k != l ==> v'[k] == v[k])
  }

  lemma FileAddedMembers(v: Levels, v': Levels, f: File, l: nat)
    requires FileAdded(v, v', f, l)
    ensures forall k, g :: 0 <= k < NUM_LEVELS ==> (g in v'[k] <==> g in v[k] || (k == l && g == f))
  {
  }

  lemma FlushKeepsNewerAbove(v: Levels, v': Levels, f: File, l: nat)
    requires Shape(v) && NewerAbove(v) && WfFile(f) && FileAdded(v, v', f, l)
    requires forall k, g :: 0 <= k < |v| && g in v[k] ==> Newer(f, g)
    ensures NewerAbove(v')
  {
    FileAddedMembers(v, v', f, l);
    forall i, j, g, h | 0 <= i < j < |v'| && g in v'[i] && h in v'[j] ensures Newer(g, h) {
      if j == l && h == f {
        assert g in v[i] && DisjointFiles(f, g) && WfFile(g);
        DisjointIsNewer(f, g);
      }
    }
  }

  lemma FlushKeepsDisjoint(v: Levels, v': Levels, f: File, l: nat)
    requires LevelsDisjoint(v) && FileAdded(v, v', f, l)
    ensures LevelsDisjoint(v')
  {
    forall k, g, h | 1 <= k < |v'| && g in v'[k] && h in v'[k] && g != h ensures DisjointFiles(g, h) {
      if k == l {
        assert (g in v[l] || g == f) && (h in v[l] || h == f);
        assert g in v[l] ==> DisjointFiles(f, g);
        assert h in v[l] ==> DisjointFiles(f, h);
      } else {
        assert g in v[k] && h in v[k];
      }
    }
  }

  lemma FlushKeepsNumbers(v: Levels, v': Levels, f: File, l: nat, next: nat, next': nat)
    requires FileNumbers(v, next) && NewestNumber(v, f.number) && FileAdded(v, v', f, l) && f.number < next' && next <= next'
    ensures FileNumbers(v', next')
  {
    FileAddedMembers(v, v', f, l);
    assert |v'| == |v| == NUM_LEVELS;
    hide FileAdded;
  }

  lemma FlushKeepsVersion(v: Levels, v': Levels, f: File, l: nat)
    requires VersionInv(v) && NewestNumber(v, f.number) && WfFile(f) && FileAdded(v, v', f, l)
    requires forall k, g :: 0 <= k < |v| && g in v[k] ==> Newer(f, g)
    ensures VersionInv(v')
  {
    FlushKeepsNewerAbove(v, v', f, l);
    FlushKeepsDisjoint(v, v', f, l);
    FileAddedMembers(v, v', f, l);
    assert Shape(v');
    assert LevelZeroByAge(v');
  }

  lemma FlushMovesEntries(v: Levels, v': Levels, f: File, l: nat)
    requires FileAdded(v, v', f, l)
    ensures forall e :: InVersion(v', e) <==> InVersion(v, e) || e in f.entries
  {
    FileAddedMembers(v, v', f, l);
    forall e ensures InVersion(v', e) <==> InVersion(v, e) || e in f.entries {
      if InVersion(v, e) {
        var k, g :| 0 <= k < |v| && g in v[k] && e in g.entries;
        assert g in v'[k];
      }
      assert f in v'[l];
    }
  }

  lemma FlushKeepsRunning(v: Levels, v': Levels, f: File, l: nat, c: Compaction)
    requires RunningInv(v, c) && WfFile(f) && FileAdded(v, v', f, l)
    requires forall k, g :: 0 <= k < |v| && g in v[k] ==> Newer(f, g)
    ensures RunningInv(v', c)
  {
    FileAddedMembers(v, v', f, l);
    if l > c.level {
      // placed past both input levels, so it misses every input
      forall g | g in c.Inputs() ensures f.Hi() < g.Lo() || g.Hi() < f.Lo() {
        assert g in v[c.level] || g in v[c.level + 1];
        assert DisjointFiles(f, g);
      }
      assert MissesAll(c.Inputs(), f.Lo(), f.Hi());
    }
  }

  lemma FlushInv(s: Db, s': Db, f: File, l: nat)
    requires Inv(s) && Flush(s, s', f, l)
    ensures Inv(s')
  {
    if s.imm.value == [] {
      assert forall e :: InMem(s', e) <==> InMem(s, e);
      assert forall e :: Stored(s', e) <==> Stored(s, e);
    } else {
      forall k, g | 0 <= k < |s.levels| && g in s.levels[k] ensures Newer(f, g) {
        forall e, x | e in f.entries && x in g.entries ensures e.sn > x.sn {
          assert InMem(s, e) && InVersion(s.levels, x);
        }
      }
      FlushKeepsVersion(s.levels, s'.levels, f, l);
      FlushKeepsNumbers(s.levels, s'.levels, f, l, s.nextFile, s'.nextFile);
      FlushMovesEntries(s.levels, s'.levels, f, l);
      assert forall e :: InMem(s', e) ==> InMem(s, e);
      assert forall e :: Stored(s', e) <==> Stored(s, e);
      if s.running.Some? {
        FlushKeepsRunning(s.levels, s'.levels, f, l, s.running.value);
      }
    }
  }

  // ---------- compactions ----------

  lemma StartInv(s: Db, s': Db, c: Compaction)
    requires Inv(s) && StartCompaction(s, s', c)
    ensures Inv(s')
  {
    assert forall e :: InMem(s', e) <==> InMem(s, e);
    assert forall e :: Stored(s', e) <==> Stored(s, e);
    PickedIsRunning(s.levels, c);
    forall g, e | g in c.Inputs() && e in g.entries ensures e.sn <= c.snapshot {
      assert InVersion(s.levels, e) && Stored(s, e);
    }
  }

  lemma PickedIsRunning(v: Levels, c: Compaction)
    requires VersionInv(v) && Picked(v, c)
    ensures RunningInv(v, c)
  {
    forall x, g | x in v[c.level] && x !in c.inputs0 && g in c.inputs0 ensures Newer(x, g) {
      assert WfFile(x) && WfFile(g);
      DisjointIsNewer(x, g);
    }
    forall k | c.level + 2 <= k < |v| ensures LaidOut(v[k]) {
      LevelIsLaidOut(v, k);
    }
    forall x, g | x in v[c.level + 1] && x !in c.inputs1 && g in c.Inputs() ensures x.Hi() < g.Lo() || g.Hi() < x.Lo() {
      assert g in c.inputs0 || g in c.inputs1;
      assert DisjointFiles(x, g);
    }
  }

  /** Outputs are made of input entries and do not share a user key. */
  ghost predicate OutputsOf(c: Compaction, outs: seq<File>) {
    && (forall o :: o in outs ==> WfFile(o))
    && (forall o, e :: o in outs && e in o.entries ==> exists g :: g in c.Inputs() && e in g.entries)
    && (forall o, p :: o in outs && p in outs && o != p ==> DisjointFiles(o, p))
  }

  /** A file of the output level that is not an input cannot touch an output: the inputs leave no gap. */
  lemma OutsideOutputs(v: Levels, c: Compaction, outs: seq<File>, x: File, o: File)
    requires Shape(v) && RunningInv(v, c) && OutputsOf(c, outs)
    requires x in v[c.level + 1] && x !in c.inputs1 && o in outs
    ensures DisjointFiles(x, o)
  {
    assert WfFile(x) && WfFile(o);
    FileCovers(x, x.entries[0]);
    var a, b := o.entries[0], o.entries[|o.entries| - 1];
    assert a in o.entries && b in o.entries;
    var g :| g in c.Inputs() && a in g.entries;
    var h :| h in c.Inputs() && b in h.entries;
    assert WfFile(g) && WfFile(h);
    FileCovers(g, a);
    FileCovers(h, b);
    assert MissesAll(c.Inputs(), x.Lo(), x.Hi());
  }

  lemma OutputIsOlder(v: Levels, c: Compaction, outs: seq<File>, k: nat, x: File, o: File)
    requires VersionInv(v) && RunningInv(v, c) && OutputsOf(c, outs)
    requires k <= c.level && x in v[k] && (k == c.level ==> x !in c.inputs0) && o in outs
    ensures Newer(x, o)
  {
    forall e, y | e in x.entries && y in o.entries && e.ukey == y.ukey ensures e.sn > y.sn {
      var g :| g in c.Inputs() && y in g.entries;
      assert Newer(x, g);
    }
  }

  lemma OutputIsNewer(v: Levels, c: Compaction, outs: seq<File>, k: nat, x: File, o: File)
    requires VersionInv(v) && RunningInv(v, c) && OutputsOf(c, outs)
    requires c.level + 1 < k < |v| && x in v[k] && o in outs
    ensures Newer(o, x)
  {
    forall e, y | e in o.entries && y in x.entries && e.ukey == y.ukey ensures e.sn > y.sn {
      var g :| g in c.Inputs() && e in g.entries;
      assert g in c.inputs0 || g in c.inputs1;
      assert Newer(g, x);
    }
  }

  lemma InstallKeepsDisjoint(v: Levels, v': Levels, c: Compaction, outs: seq<File>)
    requires VersionInv(v) && RunningInv(v, c) && OutputsOf(c, outs) && Installed(v, v', c, outs)
    ensures LevelsDisjoint(v')
  {
    forall l, f, g | 1 <= l < |v'| && f in v'[l] && g in v'[l] && f != g ensures DisjointFiles(f, g) {
      if l == c.level + 1 {
        if f in outs && g !in outs {
          OutsideOutputs(v, c, outs, g, f);
        } else if g in outs && f !in outs {
          OutsideOutputs(v, c, outs, f, g);
        }
      } else {
        assert f in v[l] && g in v[l];
      }
    }
  }

  lemma InstallKeepsNewerAbove(v: Levels, v': Levels, c: Compaction, outs: seq<File>)
    requires VersionInv(v) && RunningInv(v, c) && OutputsOf(c, outs) && Installed(v, v', c, outs)
    ensures NewerAbove(v')
  {
    forall i, j, f, g | 0 <= i < j < |v'| && f in v'[i] && g in v'[j] ensures Newer(f, g) {
      if j == c.level + 1 && g in outs {
        OutputIsOlder(v, c, outs, i, f, g);
      } else if i == c.level + 1 && f in outs {
        OutputIsNewer(v, c, outs, j, g, f);
      } else {
        assert f in v[i] && g in v[j];
      }
    }
  }

  lemma InstallKeepsVersion(v: Levels, v': Levels, c: Compaction, outs: seq<File>)
    requires VersionInv(v) && RunningInv(v, c) && OutputsOf(c, outs) && Installed(v, v', c, outs)
    ensures VersionInv(v')
  {
    InstallKeepsDisjoint(v, v', c, outs);
    InstallKeepsNewerAbove(v, v', c, outs);
    assert forall k, f :: 0 <= k < |v'| && f in v'[k] ==> f in v[k] || (k == c.level + 1 && f in outs);
  }

  lemma InputsAreStored(s: Db, c: Compaction, m: seq<Entry>, e: Entry)
    requires RunningInv(s.levels, c) && Merged(c.Inputs(), m) && e in m
    ensures InVersion(s.levels, e) && Stored(s, e)
  {
    var g :| g in c.Inputs() && e in g.entries;
    assert g in s.levels[c.level] || g in s.levels[c.level + 1];
  }

  /** Everything the drop rule needs to know about the merged inputs of a running compaction. */
  lemma MergedFacts(s: Db, m: seq<Entry>)
    requires Inv(s) && s.running.Some? && Merged(s.running.value.Inputs(), m)
    ensures Numbered(Entries(m))
    ensures forall e :: e in m ==> e.sn <= s.running.value.snapshot && e in s.history
  {
    forall e | e in m ensures e.sn <= s.running.value.snapshot && e in s.history {
      InputsAreStored(s, s.running.value, m, e);
    }
    assert forall e :: e in Entries(m) ==> e in Entries(s.history);
  }

  ghost predicate KeysIncrease(k: seq<Entry>) {
    forall i, j :: 0 <= i < j < |k| ==> k[i].ukey < k[j].ukey
  }

  lemma KeptKeysIncrease(m: seq<Entry>, snap: nat, v: Levels, level: nat)
    requires Sorted(m) && Numbered(Entries(m)) && forall y :: y in m ==> y.sn <= snap
    ensures KeysIncrease(Kept(m, |m|, snap, v, level))
  {
    var k := Kept(m, |m|, snap, v, level);
    KeptSorted(m, |m|, snap, v, level);
    forall e | e in k ensures e in Entries(m) {
      KeptMembers(m, |m|, snap, v, level, e);
    }
    forall i, j | 0 <= i < j < |k| ensures k[i].ukey < k[j].ukey {
      assert k[i] in k && k[j] in k && Before(k[i].Key(), k[j].Key());
      if k[i].ukey == k[j].ukey {
        SurvivorIsNewest(m, snap, v, level, k[i], k[j]);
        SurvivorIsNewest(m, snap, v, level, k[j], k[i]);
        assert false;
      }
    }
  }

  lemma {:induction false} FlattenMembers(outs: seq<File>)
    ensures forall e :: e in Flatten(outs) <==> exists o :: o in outs && e in o.entries
  {
    if outs != [] {
      var rest, last := outs[..|outs| - 1], outs[|outs| - 1];
      FlattenMembers(rest);
      assert outs == rest + [last];
    }
  }

  lemma {:induction false} ChunksAreDisjoint(outs: seq<File>)
    requires forall o :: o in outs ==> WfFile(o)
    requires KeysIncrease(Flatten(outs))
    ensures forall i, j :: 0 <= i < j < |outs| ==> outs[i].Hi() < outs[j].Lo()
  {
    if outs != [] {
      var rest, last := outs[..|outs| - 1], outs[|outs| - 1];
      var a := Flatten(rest);
      assert Flatten(outs) == a + last.entries;
      assert forall i :: 0 <= i < |a| ==> a[i] == Flatten(outs)[i];
      ChunksAreDisjoint(rest);
      FlattenMembers(rest);
      forall i | 0 <= i < |rest| ensures rest[i].Hi() < last.Lo() {
        var f := rest[i];
        assert f in rest && f in outs && last in outs;
        var e := f.entries[|f.entries| - 1];
        assert e in a;
        var p :| 0 <= p < |a| && a[p] == e;
        assert (a + last.entries)[p] == e && (a + last.entries)[|a|] == last.entries[0];
      }
    }
  }

  lemma OutputsAreOutputs(c: Compaction, m: seq<Entry>, outs: seq<File>)
    requires Merged(c.Inputs(), m) && Numbered(Entries(m)) && (forall e :: e in m ==> e.sn <= c.snapshot)
    requires Flatten(outs) == Kept(m, |m|, c.snapshot, c.base, c.level)
    requires forall o :: o in outs ==> WfFile(o)
    ensures OutputsOf(c, outs)
  {
    KeptKeysIncrease(m, c.snapshot, c.base, c.level);
    ChunksAreDisjoint(outs);
    forall o, e | o in outs && e in o.entries ensures exists g :: g in c.Inputs() && e in g.entries {
      OutputsComeFromInputs(c, m, outs, e);
    }
  }

  lemma OutputsComeFromInputs(c: Compaction, m: seq<Entry>, outs: seq<File>, e: Entry)
    requires Flatten(outs) == Kept(m, |m|, c.snapshot, c.base, c.level)
    requires exists o :: o in outs && e in o.entries
    ensures e in m
  {
    FlattenMembers(outs);
    KeptMembers(m, |m|, c.snapshot, c.base, c.level, e);
  }

  /** Where a base-level deletion h was dropped, no remaining table holds an older entry of its key. */
  lemma NothingUnderDeletion(s: Db, c: Compaction, h: Entry, g: File, k: nat, x: File, e: Entry)
    requires VersionInv(s.levels) && RunningInv(s.levels, c)
    requires g in c.Inputs() && h in g.entries && IsBaseLevel(c.base, c.level, h.ukey)
    requires k < |s.levels| && x in s.levels[k] && x !in c.inputs0 && (k == c.level + 1 ==> x !in c.inputs1)
    requires e in x.entries && e.sn <= h.sn
    ensures e.ukey != h.ukey
  {
    var v := s.levels;
    assert g in v[c.level] || g in v[c.level + 1];
    assert WfFile(g) && WfFile(x);
    FileCovers(g, h);
    FileCovers(x, e);
    if k <= c.level {
      assert Newer(x, g);
    }
  }

  lemma NothingAppears(s: Db, s': Db, c: Compaction, m: seq<Entry>, outs: seq<File>, e: Entry)
    requires RunningInv(s.levels, c) && Merged(c.Inputs(), m) && Installed(s.levels, s'.levels, c, outs)
    requires Flatten(outs) == Kept(m, |m|, c.snapshot, c.base, c.level) && InVersion(s'.levels, e)
    ensures InVersion(s.levels, e)
  {
    if exists o :: o in outs && e in o.entries {
      OutputsComeFromInputs(c, m, outs, e);
      InputsAreStored(s, c, m, e);
    } else {
      OldFilesStay(s.levels, s'.levels, c, outs, e);
    }
  }

  lemma OldFilesStay(v: Levels, v': Levels, c: Compaction, outs: seq<File>, e: Entry)
    requires Installed(v, v', c, outs) && InVersion(v', e) && !exists o :: o in outs && e in o.entries
    ensures InVersion(v, e)
  {
    var k, f :| 0 <= k < |v'| && f in v'[k] && e in f.entries;
    assert f in v[k];
  }

  lemma SurvivorsStay(s: Db, s': Db, m: seq<Entry>, outs: seq<File>, e: Entry)
    requires Inv(s) && FinishCompaction(s, s', m, outs) && Stored(s, e)
    requires e !in m || e in Flatten(outs)
    ensures Stored(s', e)
  {
    var c := s.running.value;
    FlattenMembers(outs);
    if e in Flatten(outs) {
      var o :| o in outs && e in o.entries;
      assert o in s'.levels[c.level + 1];
    } else if !InMem(s, e) {
      var k, f :| 0 <= k < |s.levels| && f in s.levels[k] && e in f.entries;
      assert f !in c.Inputs();
      assert f in s'.levels[k];
    }
  }

  lemma FinishKeepsComplete(s: Db, s': Db, m: seq<Entry>, outs: seq<File>)
    requires Inv(s) && FinishCompaction(s, s', m, outs)
    ensures Complete(s')
  {
    forall h | IsLatest(s'.history, h)
      ensures Stored(s', h) || (h.kind.Deletion? && forall e :: Stored(s', e) ==> e.ukey != h.ukey)
    {
      FinishKeepsLatest(s, s', m, outs, h);
    }
  }

  lemma FinishKeepsLatest(s: Db, s': Db, m: seq<Entry>, outs: seq<File>, h: Entry)
    requires Inv(s) && FinishCompaction(s, s', m, outs) && IsLatest(s.history, h)
    ensures Stored(s', h) || (h.kind.Deletion? && forall e :: Stored(s', e) ==> e.ukey != h.ukey)
  {
    var c := s.running.value;
    forall e | Stored(s', e) ensures Stored(s, e) {
      if !InMem(s', e) { NothingAppears(s, s', c, m, outs, e); }
    }
    if Stored(s, h) {
      if h in m && h !in Flatten(outs) {
        MergedFacts(s, m);
        NewestSurvives(m, c.snapshot, c.base, c.level, h);
        forall e | Stored(s', e) ensures e.ukey != h.ukey {
          InputsAreStored(s, c, m, h);
          assert InMem(s', e) <==> InMem(s, e);
          if x :| x in outs && e in x.entries {
            SurvivorIsNotDropped(s, m, outs, h, x, e);
          } else if InVersion(s'.levels, e) && e.sn <= h.sn {
            DroppedDeletion(s, s', c, m, outs, h, e);
          }
        }
      } else {
        SurvivorsStay(s, s', m, outs, h);
      }
    }
  }

  lemma DroppedDeletion(s: Db, s': Db, c: Compaction, m: seq<Entry>, outs: seq<File>, h: Entry, e: Entry)
    requires VersionInv(s.levels) && RunningInv(s.levels, c) && FileNumbers(s.levels, s.nextFile)
    requires Installed(s.levels, s'.levels, c, outs) && Merged(c.Inputs(), m)
    requires h in m && IsBaseLevel(c.base, c.level, h.ukey)
    requires InVersion(s'.levels, e) && e.sn <= h.sn
    requires forall x :: x in outs ==> e !in x.entries
    ensures e.ukey != h.ukey
  {
    var k, x :| 0 <= k < |s'.levels| && x in s'.levels[k] && e in x.entries;
    var g :| g in c.Inputs() && h in g.entries;
    NotAnInput(s, s', c, outs, k, x);
    NothingUnderDeletion(s, c, h, g, k, x, e);
  }

  lemma SurvivorIsNotDropped(s: Db, m: seq<Entry>, outs: seq<File>, h: Entry, x: File, e: Entry)
    requires Inv(s) && s.running.Some? && Merged(s.running.value.Inputs(), m)
    requires Flatten(outs) == Kept(m, |m|, s.running.value.snapshot, s.running.value.base, s.running.value.level)
    requires IsLatest(s.history, h) && h in m && h !in Flatten(outs) && x in outs && e in x.entries
    ensures e.ukey != h.ukey
  {
    var c := s.running.value;
    FlattenMembers(outs);
    MergedFacts(s, m);
    assert e in Flatten(outs) && h in Entries(m);
    OutputsComeFromInputs(c, m, outs, e);
    assert e in Entries(m);
    if e.ukey == h.ukey {
      SurvivorIsNewest(m, c.snapshot, c.base, c.level, e, h);
    }
  }

  lemma NotAnInput(s: Db, s': Db, c: Compaction, outs: seq<File>, k: nat, x: File)
    requires FileNumbers(s.levels, s.nextFile) && RunningInv(s.levels, c) && Installed(s.levels, s'.levels, c, outs)
    requires k < |s'.levels| && x in s'.levels[k] && x !in outs
    ensures x in s.levels[k] && x !in c.inputs0 && (k == c.level + 1 ==> x !in c.inputs1)
  {
  }

  lemma InstallKeepsNumbers(v: Levels, v': Levels, c: Compaction, outs: seq<File>, next: nat, next': nat)
    requires FileNumbers(v, next) && Installed(v, v', c, outs) && NewFiles(v, outs, next') && next <= next'
    ensures FileNumbers(v', next')
  {
    hide Installed, NewFiles;
    forall k, f | 0 <= k < |v'| && f in v'[k] ensures f.number < next' {
      InstalledFile(v, v', c, outs, next, next', k, f);
    }
    forall i, j, f, g | 0 <= i < |v'| && 0 <= j < |v'| && f in v'[i] && g in v'[j] && f.number == g.number
      ensures i == j && f == g
    {
      InstalledFile(v, v', c, outs, next, next', i, f);
      InstalledFile(v, v', c, outs, next, next', j, g);
      NewAndOld(v, outs, next', f, g);
    }
  }

  /** Old and new files are told apart by their numbers. */
  lemma InstalledFile(v: Levels, v': Levels, c: Compaction, outs: seq<File>, next: nat, next': nat, k: nat, f: File)
    requires FileNumbers(v, next) && Installed(v, v', c, outs) && NewFiles(v, outs, next') && next <= next'
    requires k < |v'| && f in v'[k]
    ensures f.number < next' && |v| == |v'|
    ensures if f in outs then k == c.level + 1 else f in v[k]
  {
  }

  lemma NewAndOld(v: Levels, outs: seq<File>, next: nat, f: File, g: File)
    requires NewFiles(v, outs, next) && f.number == g.number
    ensures f in outs && g in outs ==> f == g
    ensures f in outs && g !in outs ==> forall k :: 0 <= k < |v| ==> g !in v[k]
    ensures g in outs && f !in outs ==> forall k :: 0 <= k < |v| ==> f !in v[k]
  {
  }

  lemma FinishInv(s: Db, s': Db, m: seq<Entry>, outs: seq<File>)
    requires Inv(s) && FinishCompaction(s, s', m, outs)
    ensures Inv(s')
  {
    var c := s.running.value;
    MergedFacts(s, m);
    OutputsAreOutputs(c, m, outs);
    InstallKeepsVersion(s.levels, s'.levels, c, outs);
    InstallKeepsNumbers(s.levels, s'.levels, c, outs, s.nextFile, s'.nextFile);
    FinishKeepsComplete(s, s', m, outs);
    forall e | InVersion(s'.levels, e) ensures InVersion(s.levels, e) {
      NothingAppears(s, s', c, m, outs, e);
    }
    ShrinkingKeepsAges(s, s');
  }

  lemma ShrinkingKeepsAges(s: Db, s': Db)
    requires HistoryInv(s) && Ages(s) && s' == s.(levels := s'.levels, nextFile := s'.nextFile, running := s'.running)
    requires forall e :: InVersion(s'.levels, e) ==> InVersion(s.levels, e)
    ensures HistoryInv(s') && Ages(s')
  {
    assert forall e :: InMem(s', e) <==> InMem(s, e);
    assert forall e :: Stored(s', e) ==> Stored(s, e);
  }

  lemma SameEntriesStayComplete(s: Db, s': Db)
    requires Complete(s) && s'.history == s.history && forall e :: Stored(s', e) <==> Stored(s, e)
    ensures Complete(s')
  {
  }

  lemma MovedFileIsOutput(v: Levels, c: Compaction)
    requires Shape(v) && RunningInv(v, c) && |c.inputs0| == 1
    ensures OutputsOf(c, c.inputs0)
  {
    assert forall o :: o in c.inputs0 ==> o == c.inputs0[0] && o in c.Inputs();
  }

  lemma TrivialMoveInv(s: Db, s': Db, c: Compaction)
    requires Inv(s) && TrivialMove(s, s', c)
    ensures Inv(s')
  {
    PickedIsRunning(s.levels, c);
    MovedFileIsOutput(s.levels, c);
    InstallKeepsVersion(s.levels, s'.levels, c, c.inputs0);
    MoveKeepsNumbers(s.levels, s'.levels, c, s.nextFile);
    MoveKeepsEntries(s.levels, s'.levels, c);
    ShrinkingKeepsAges(s, s');
    assert forall e :: InMem(s', e) <==> InMem(s, e);
    assert forall e :: Stored(s', e) <==> Stored(s, e);
    SameEntriesStayComplete(s, s');
  }

  lemma MovedMembers(v: Levels, v': Levels, c: Compaction)
    requires RunningInv(v, c) && |c.inputs0| == 1 && c.inputs1 == [] && Installed(v, v', c, c.inputs0)
    ensures forall k, f :: 0 <= k < |v| ==>
              (f in v'[k] <==> (f == c.inputs0[0] && k == c.level + 1) || (f in v[k] && (f != c.inputs0[0] || k != c.level)))
  {
    assert c.inputs0[0] in c.inputs0 && forall f :: f in c.inputs0 ==> f == c.inputs0[0];
  }

  lemma MoveKeepsNumbers(v: Levels, v': Levels, c: Compaction, next: nat)
    requires FileNumbers(v, next) && RunningInv(v, c) && |c.inputs0| == 1 && c.inputs1 == []
    requires Installed(v, v', c, c.inputs0)
    ensures FileNumbers(v', next)
  {
    MovedMembers(v, v', c);
    assert c.inputs0[0] in v[c.level];
  }

  lemma MoveKeepsEntries(v: Levels, v': Levels, c: Compaction)
    requires RunningInv(v, c) && c.inputs1 == [] && Installed(v, v', c, c.inputs0)
    ensures forall e :: InVersion(v', e) <==> InVersion(v, e)
  {
    forall e ensures InVersion(v', e) <==> InVersion(v, e) {
      if InVersion(v, e) {
        var k, f :| 0 <= k < |v| && f in v[k] && e in f.entries;
        assert f in v'[k] || f in v'[c.level + 1];
      }
      if InVersion(v', e) {
        var k, f :| 0 <= k < |v'| && f in v'[k] && e in f.entries;
        assert f in v[k] || f in v[c.level];
      }
    }
  }

  lemma AbandonInv(s: Db, s': Db)
    requires Inv(s) && AbandonCompaction(s, s')
    ensures Inv(s')
  {
    ShrinkingKeepsAges(s, s');
    assert forall e :: InMem(s', e) <==> InMem(s, e);
    assert forall e :: Stored(s', e) <==> Stored(s, e);
  }

  // ---------- opening the database again ----------

  lemma TakeNumbersInv(s: Db, s': Db)
    requires Inv(s) && TakeNumbers(s, s')
    ensures Inv(s')
  {
    ShrinkingKeepsAges(s, s');
    assert forall e :: InMem(s', e) <==> InMem(s, e);
    assert forall e :: Stored(s', e) <==> Stored(s, e);
  }

  lemma RecoverInv(s: Db, s': Db)
    requires Inv(s) && Recover(s, s')
    ensures Inv(s')
  {
    assert forall e :: InMem(s', e) <==> InMem(s, e);
    assert forall e :: Stored(s', e) <==> Stored(s, e);
    SameEntriesStayComplete(s, s');
  }

  lemma RecoverTableInv(s: Db, s': Db, f: File)
    requires Inv(s) && RecoverTable(s, s', f)
    ensures Inv(s')
  {
    forall k, g | 0 <= k < |s.levels| && g in s.levels[k] ensures Newer(f, g) {
      forall e, x | e in f.entries && x in g.entries ensures e.sn > x.sn {
        assert InMem(s, e) && InVersion(s.levels, x);
      }
    }
    assert FileAdded(s.levels, s'.levels, f, 0);
    FlushKeepsVersion(s.levels, s'.levels, f, 0);
    FlushKeepsNumbers(s.levels, s'.levels, f, 0, s.nextFile, s'.nextFile);
    FlushMovesEntries(s.levels, s'.levels, f, 0);
    assert forall e :: InMem(s', e) ==> InMem(s, e);
    assert forall e :: Stored(s', e) <==> Stored(s, e);
    SameEntriesStayComplete(s, s');
  }

  // ---------- runs ----------

  lemma StepInv(s: Db, s': Db)
    requires Inv(s) && Next(s, s')
    ensures Inv(s')
  {
    if ops :| Write(s, s', ops) {
      WriteInv(s, s', ops);
    } else if FailedWrite(s, s') {
      FailedWriteInv(s, s');
    } else if SwitchMemTable(s, s') {
      SwitchInv(s, s');
    } else if f, l :| Flush(s, s', f, l) {
      FlushInv(s, s', f, l);
    } else if c :| StartCompaction(s, s', c) {
      StartInv(s, s', c);
    } else if m, outs :| FinishCompaction(s, s', m, outs) {
      FinishInv(s, s', m, outs);
    } else if c :| TrivialMove(s, s', c) {
      TrivialMoveInv(s, s', c);
    } else if AbandonCompaction(s, s') {
      AbandonInv(s, s');
    } else if TakeNumbers(s, s') {
      TakeNumbersInv(s, s');
    } else if Recover(s, s') {
      RecoverInv(s, s');
    } else {
      var f :| RecoverTable(s, s', f);
      RecoverTableInv(s, s', f);
    }
  }

  lemma {:induction false} RunInv(states: seq<Db>, n: nat)
    requires Run(states) && n < |states|
    ensures Inv(states[n])
  {
    if n == 0 {
      InitInv(states[0]);
    } else {
      RunInv(states, n - 1);
      StepInv(states[n - 1], states[n]);
    }
  }
}
