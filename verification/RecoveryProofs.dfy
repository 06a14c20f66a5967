/** Every step keeps the invariant, so a crash at any step loses no logged batch. */
module RecoveryProofs {
  import opened Keys
  import opened Tables
  import opened Picking
  import opened VersionBuilder
  import opened Manifest
  import opened LogFiles
  import opened Recovery
  import opened RecoveryDisk
  import DropRule
  import DbImpl
  import Lsm = LsmStates
  import LsmProofs
  import Reads

  // ---------- larger numbers ----------

  lemma NumbersLater(s: State, next: nat)
    requires LiveOk(s.d.levels, s.live, s.disk.tables, s.d.nextFile) && WorkOk(s) && FilesOk(s) && s.d.nextFile <= next
    ensures LiveOk(s.d.levels, s.live, s.disk.tables, next) && Below(s.disk.l, next)
    ensures FlushOk(s.flush, s.d.imm, s.d.levels, s.live, s.disk.manifest, s.disk.tables, s.pending, next)
    ensures CompOk(s.comp, s.d.running, s.d.levels, s.flush, s.live, s.disk.manifest, s.disk.tables, s.pending, next)
    ensures ManifestOk(s.disk.manifest, Announced(s.d.levels, s.flush, s.comp), AnnouncedLog(s.disk.l, s.vlog, s.flush), next)
  {
    hide LogsOk, LogsKept, SeqOk, Describes, SeenOk, Installs, Tabled, Names, Seen, Merges, Moves, WfFile, Placeable, Lsm.NewestNumber,
      Announced, AnnouncedLog;
  }

  // ---------- the writing threads ----------

  lemma SeqOkLogged(l: Logs, b: Batch, n: nat, last: nat)
    requires LogsOk(l) && SeqOk(l, n, last) && l.list != [] && n <= l.Last() && l.Last() in l.files
    ensures SeqOk(Logged(l, b), n, last)
  {
    hide LogsOk, Flat;
    var l' := Logged(l, b);
    forall k, e | SplitsAt(l'.list, n, k) && l'.Start(k) <= |l'.history| && e in Flat(l'.history[..l'.Start(k)]) ensures e.sn <= last {
      LogPlaceBelow(l, n, k);
      assert l'.history[..l'.Start(k)] == l.history[..l.Start(k)];
    }
  }

  lemma LogPlaceBelow(l: Logs, n: nat, k: nat)
    requires LogsOk(l) && SplitsAt(l.list, n, k) && l.list != [] && n <= l.Last()
    ensures k < |l.list| == |l.starts| && l.Start(k) <= |l.history|
  {
    assert n <= l.list[|l.list| - 1];
  }

  lemma MemOkLogged(l: Logs, b: Batch, mem: seq<Entry>, imm: Option<seq<Entry>>, vlog: nat)
    requires LogsOk(l) && MemOk(l, mem, imm, false, vlog)
    ensures MemOk(Logged(l, b), mem, imm, true, vlog)
  {
    hide LogsOk, Flat;
    var l', last := Logged(l, b), |l.list| - 1;
    assert l'.history[l.starts[last]..|l.history|] == l.history[l.starts[last]..|l.history|];
    if imm.Some? {
      assert l.starts[last] <= |l.history|;
      assert l'.history[l.starts[last - 1]..l.starts[last]] == l.history[l.starts[last - 1]..l.starts[last]];
    }
  }

  lemma StampIncreases(ops: seq<Lsm.Op>, first: nat)
    requires first + |ops| <= MAX_SEQUENCE
    ensures Increasing(Lsm.Stamp(ops, first))
  {
  }

  lemma HistoryOkLogged(l: Logs, d: Lsm.Db, ops: seq<Lsm.Op>)
    requires Lsm.Inv(d) && HistoryOk(l.history, d.history, d.lastSequence, None) && d.lastSequence + |ops| < MAX_SEQUENCE
    requires l.list != [] && l.Last() in l.files
    ensures HistoryOk(Logged(l, Lsm.Stamp(ops, d.lastSequence + 1)).history, d.history, d.lastSequence, Some(ops))
  {
    hide Lsm.Inv, Flat, Lsm.Stamp, DropRule.Numbered, Increasing, VersionInv, Shape, Lsm.FileNumbers, Lsm.Stored;
    var b := Lsm.Stamp(ops, d.lastSequence + 1);
    InvParts(d);
    LsmProofs.StampNumbers(ops, d.lastSequence + 1);
    StampIncreases(ops, d.lastSequence + 1);
    var h := l.history;
    FlatConcat(h, [b]);
    FlatOne(b);
    assert (h + [b])[..|h|] == h;
    IncreasingConcat(d.history, b);
  }

  lemma IncreasingConcat(a: seq<Entry>, b: seq<Entry>)
    requires Increasing(a) && Increasing(b) && forall x, e :: x in a && e in b ==> x.sn < e.sn
    ensures Increasing(a + b)
  {
    forall i, j | 0 <= i < j < |a + b| ensures (a + b)[i].sn < (a + b)[j].sn {
      if i < |a| <= j {
        assert a[i] in a && b[j - |a|] in b;
      }
    }
  }

  lemma AnnouncedAtMostLast(s: State)
    requires MemoryOk(s) && FilesOk(s)
    ensures s.disk.l.list != [] && s.disk.l.Last() in s.disk.l.files && MLog(s.disk.manifest) <= s.disk.l.Last()
  {
    hide Lsm.Inv, LiveOk, HistoryOk, Describes, SeenOk;
  }

  lemma LogBatchInv(s: State, s': State, ops: seq<Lsm.Op>)
    requires Inv(s) && LogBatch(s, s', ops)
    ensures Inv(s')
  {
    hide Lsm.Inv, LiveOk, FlushOk, CompOk, ManifestOk, LogsOk, LogsKept, Below, SeqOk, MemOk, HistoryOk, Lsm.Stamp;
    var l, b := s.disk.l, Lsm.Stamp(ops, s.d.lastSequence + 1);
    AnnouncedAtMostLast(s);
    LoggedOk(l, b);
    MemOkLogged(l, b, s.d.mem, s.d.imm, s.vlog);
    HistoryOkLogged(l, s.d, ops);
    SeqOkLogged(l, b, MLog(s.disk.manifest), MLast(s.disk.manifest));
    LoggedFiles(l, b, s.d.nextFile, s.vlog, s.flush);
  }

  lemma LoggedFiles(l: Logs, b: Batch, next: nat, vlog: nat, flush: Flush)
    requires l.list != [] && l.Last() in l.files && Below(l, next) && LogsKept(l, vlog)
    ensures Below(Logged(l, b), next) && LogsKept(Logged(l, b), vlog)
    ensures AnnouncedLog(Logged(l, b), vlog, flush) == AnnouncedLog(l, vlog, flush)
  {
  }

  lemma InsertBatchInv(s: State, s': State)
    requires Inv(s) && InsertBatch(s, s')
    ensures Inv(s')
  {
    hide Lsm.Inv, LiveOk, FlushOk, CompOk, ManifestOk, LogsOk, LogsKept, Below, SeqOk, MemOk, HistoryOk, Lsm.Stamp;
    var l, ops := s.disk.l, s.ins.value;
    LsmProofs.WriteInv(s.d, s'.d, ops);
    InsertedHistory(l, s.d.history, s.d.lastSequence, ops);
    InsertedMem(l, s.d.mem, s'.d.mem, s.d.imm, s.d.lastSequence, s.d.history, ops, s.vlog);
  }

  lemma InsertedHistory(l: Logs, history: seq<Entry>, lastSequence: nat, ops: seq<Lsm.Op>)
    requires HistoryOk(l.history, history, lastSequence, Some(ops))
    ensures lastSequence + |ops| < MAX_SEQUENCE
    ensures HistoryOk(l.history, history + Lsm.Stamp(ops, lastSequence + 1), lastSequence + |ops|, None)
  {
    hide Flat, Lsm.Stamp;
    var n := |l.history| - 1;
    assert l.history == l.history[..n] + [l.history[n]];
    FlatConcat(l.history[..n], [l.history[n]]);
    FlatOne(l.history[n]);
  }

  lemma InsertedMem(l: Logs, mem: seq<Entry>, mem': seq<Entry>, imm: Option<seq<Entry>>, lastSequence: nat, history: seq<Entry>,
                    ops: seq<Lsm.Op>, vlog: nat)
    requires HistoryOk(l.history, history, lastSequence, Some(ops)) && MemOk(l, mem, imm, true, vlog)
    requires forall e :: e in mem' <==> e in mem || e in Lsm.Stamp(ops, lastSequence + 1)
    ensures MemOk(l, mem', imm, false, vlog)
  {
    hide Flat, Lsm.Stamp;
    var a, n := l.starts[|l.list| - 1], |l.history| - 1;
    assert l.history[a..|l.history|] == l.history[a..n] + [l.history[n]];
    FlatConcat(l.history[a..n], [l.history[n]]);
    FlatOne(l.history[n]);
  }

  lemma SeqOkNewLog(l: Logs, n: nat, last: nat, number: nat)
    requires |l.list| == |l.starts| && SeqOk(l, n, last) && n <= number
    ensures SeqOk(WithNewLog(l, number), n, last)
  {
    hide Flat;
    var l' := WithNewLog(l, number);
    forall k, e | SplitsAt(l'.list, n, k) && l'.Start(k) <= |l'.history| && e in Flat(l'.history[..l'.Start(k)]) ensures e.sn <= last {
      NewLogPlace(l, n, number, k);
    }
  }

  /** A new log with a large number leaves the place of a log number as it is. */
  lemma NewLogPlace(l: Logs, n: nat, number: nat, k: nat)
    requires |l.list| == |l.starts| && n <= number
    ensures SplitsAt(l.list + [number], n, k) <==> SplitsAt(l.list, n, k)
    ensures SplitsAt(l.list, n, k) ==> WithNewLog(l, number).Start(k) == l.Start(k)
  {
    var list := l.list + [number];
    assert list[|l.list|] == number && forall i :: 0 <= i < |l.list| ==> list[i] == l.list[i];
  }

  lemma MemOkNewLog(l: Logs, mem: seq<Entry>, vlog: nat, number: nat)
    requires LogsOk(l) && MemOk(l, mem, None, false, vlog)
    ensures MemOk(WithNewLog(l, number), [], Some(mem), false, vlog)
  {
    hide LogsOk;
    var l' := WithNewLog(l, number);
    assert l'.history[|l.history|..|l.history|] == [];
  }

  lemma NewLogKept(l: Logs, number: nat, vlog: nat)
    requires LogsKept(l, vlog)
    ensures LogsKept(WithNewLog(l, number), vlog)
  {
  }

  lemma SwitchFacts(s: State)
    requires WorkOk(s) && FilesOk(s) && s.d.imm.None?
    ensures s.flush.NoFlush? && MLog(s.disk.manifest) <= s.d.nextFile && |s.disk.l.list| == |s.disk.l.starts|
  {
    hide CompOk, Describes, SeenOk, SeqOk, LogsKept;
  }

  lemma NoFlushOk(imm: Option<seq<Entry>>, s: State, next: nat)
    ensures FlushOk(NoFlush, imm, s.d.levels, s.live, s.disk.manifest, s.disk.tables, s.pending, next)
  {
  }

  lemma SwitchMemTableInv(s: State, s': State)
    requires Inv(s) && SwitchMemTable(s, s')
    ensures Inv(s')
  {
    hide Lsm.Inv, LiveOk, FlushOk, CompOk, ManifestOk, LogsOk, LogsKept, Below, SeqOk, MemOk, HistoryOk;
    var l, n := s.disk.l, s.d.nextFile;
    NumbersLater(s, n + 1);
    SwitchFacts(s);
    NoFlushOk(Some(s.d.mem), s, n + 1);
    LsmProofs.SwitchInv(s.d, s'.d);
    NewLogOk(l, n);
    MemOkNewLog(l, s.d.mem, s.vlog, n);
    SeqOkNewLog(l, MLog(s.disk.manifest), MLast(s.disk.manifest), n);
    NewLogKept(l, n, s.vlog);
  }

  // ---------- flush ----------

  /** The next file number is not in use anywhere. */
  lemma NextIsUnused(v: Levels, live: set<Levels>, tables: map<nat, seq<Entry>>, m: seq<Record>, a: Levels, log: nat, next: nat)
    requires LiveOk(v, live, tables, next) && ManifestOk(m, a, log, next)
    ensures Unused(live, m, next) && Lsm.NewestNumber(v, next)
  {
    hide Describes, Tabled;
    forall k, g | 0 <= k < |v| && g in v[k] ensures g.number < next {
      assert Names(v, g.number);
    }
  }

  /** The outputs of a compaction keep clear of a flush that takes the next number. */
  lemma CompBesideFlush(s: State)
    requires WorkOk(s) && s.flush.NoFlush? && !s.comp.CWriting?
    ensures CompOk(s.comp, s.d.running, s.d.levels, Building(s.d.nextFile), s.live, s.disk.manifest, s.disk.tables,
                   s.pending + {s.d.nextFile}, s.d.nextFile + 1)
  {
    hide Unused, WfFile;
  }

  lemma TookNumberInv(d: Lsm.Db, next: nat)
    requires Lsm.Inv(d) && d.nextFile <= next
    ensures Lsm.Inv(d.(nextFile := next))
  {
    LsmProofs.TakeNumbersInv(d, d.(nextFile := next));
  }

  lemma StartFlushInv(s: State, s': State)
    requires Inv(s) && StartFlush(s, s')
    ensures Inv(s')
  {
    hide Lsm.Inv, LiveOk, CompOk, ManifestOk, LogsOk, LogsKept, Below, SeqOk, MemOk, HistoryOk, Unused, Lsm.NewestNumber;
    var n := s.d.nextFile;
    NumbersLater(s, n + 1);
    NextIsUnused(s.d.levels, s.live, s.disk.tables, s.disk.manifest, Announced(s.d.levels, s.flush, s.comp),
                 AnnouncedLog(s.disk.l, s.vlog, s.flush), n);
    CompBesideFlush(s);
    TookNumberInv(s.d, n + 1);
  }

  /** A table written under a number that no live version knows disturbs none of them. */
  lemma TablesElsewhere(v: Levels, live: set<Levels>, tables: map<nat, seq<Entry>>, next: nat, n: nat, es: seq<Entry>)
    requires LiveOk(v, live, tables, next) && forall x :: x in live ==> !Names(x, n)
    ensures LiveOk(v, live, tables[n := es], next)
  {
    forall x | x in live ensures Tabled(x, tables[n := es]) {
      assert !Names(x, n);
    }
  }

  /** A finished flush leaves the outputs of a compaction alone. */
  lemma CompAfterTable(s: State, n: nat, o: Option<File>, level: nat, tables: map<nat, seq<Entry>>)
    requires WorkOk(s) && s.flush == Building(n) && (o.Some? ==> o.value.number == n)
    requires forall x :: x != n && x in s.disk.tables ==> x in tables && tables[x] == s.disk.tables[x]
    ensures CompOk(s.comp, s.d.running, s.d.levels, Built(o, level), s.live, s.disk.manifest, tables, s.pending - {n}, s.d.nextFile)
  {
    hide Unused, WfFile, FlushOk;
  }

  lemma FinishTableInv(s: State, s': State, size: nat, level: nat)
    requires Inv(s) && FinishTable(s, s', size, level)
    ensures Inv(s')
  {
    hide Lsm.Inv, LiveOk, CompOk, ManifestOk, LogsOk, LogsKept, Below, SeqOk, MemOk, HistoryOk, Lsm.NewestNumber, Placeable;
    var n, es := s.flush.number, s.d.imm.value;
    InvParts(s.d);
    if es == [] {
      CompAfterTable(s, n, None, 0, s.disk.tables);
    } else {
      TablesElsewhere(s.d.levels, s.live, s.disk.tables, s.d.nextFile, n, es);
      CompAfterTable(s, n, Some(TableOf(n, size, es)), level, s.disk.tables[n := es]);
    }
  }

  lemma CompAfterFailure(s: State, pending: set<nat>)
    requires WorkOk(s) && !s.comp.CWriting?
    requires pending == s.pending - if s.flush.Building? then {s.flush.number} else {}
    ensures CompOk(s.comp, s.d.running, s.d.levels, NoFlush, s.live, s.disk.manifest, s.disk.tables, pending, s.d.nextFile)
  {
    hide Unused, WfFile, FlushOk;
  }

  lemma FlushWithoutWriting(s: State)
    requires WorkOk(s) && !s.flush.NoFlush?
    ensures !s.comp.CWriting?
  {
    hide FlushOk;
  }

  lemma FailFlushInv(s: State, s': State)
    requires Inv(s) && FailFlush(s, s')
    ensures Inv(s')
  {
    hide Lsm.Inv, LiveOk, CompOk, ManifestOk, LogsOk, LogsKept, Below, SeqOk, MemOk, HistoryOk, FlushOk;
    FlushWithoutWriting(s);
    NoFlushOk(s.d.imm, s', s.d.nextFile);
    CompAfterFailure(s, s'.pending);
  }

  // ---------- a new MANIFEST record ----------

  /** The edit adds a file numbered n to level l. */
  ghost predicate EditAdds(e: Edit, l: nat, n: nat) { exists p :: p in e.added && p.0 == l && p.1.number == n }

  lemma MetaAdds(e: Edit, l: nat, n: nat)
    ensures EditAdds(MetaEdit(e), l, n) <==> EditAdds(e, l, n)
  {
    var r := MetaEdit(e);
    if EditAdds(e, l, n) {
      var p :| p in e.added && p.0 == l && p.1.number == n;
      var i :| 0 <= i < |e.added| && e.added[i] == p;
      assert r.added[i] in r.added;
    }
    if EditAdds(r, l, n) {
      var p :| p in r.added && p.0 == l && p.1.number == n;
      var i :| 0 <= i < |r.added| && r.added[i] == p;
      assert e.added[i] in e.added;
    }
  }

  lemma RecordSeen(m: seq<Record>, e: Edit, rec: Record, l: nat, n: nat)
    requires rec.edit == MetaEdit(e)
    ensures Seen(m + [rec], l, n) <==> Seen(m, l, n) || EditAdds(e, l, n)
  {
    hide Seen;
    SeenNext(m, rec, l, n);
    MetaAdds(e, l, n);
  }

  lemma MetaFresh(m: seq<Record>, e: Edit)
    requires FreshEdit(m, e)
    ensures FreshEdit(m, MetaEdit(e))
  {
    hide Seen;
    var r := MetaEdit(e);
    forall p | p in r.added ensures p.0 < NUM_LEVELS && !Seen(m, p.0, p.1.number) {
      var i :| 0 <= i < |r.added| && r.added[i] == p;
      assert e.added[i] in e.added;
    }
  }

  /** What an edit must be like for its record to go to the MANIFEST. */
  ghost predicate EditOk(m: seq<Record>, e: Edit, v: Levels, next: nat) {
    && FreshEdit(m, e) && (forall l: nat, n: nat :: EditAdds(e, l, n) ==> n < next) && (forall n: nat :: Names(v, n) ==> n < next)
    && (forall k, l, f :: 0 <= k < l < NUM_LEVELS && k < |v| && f in v[k] ==> !Seen(m, l, f.number) && !EditAdds(e, l, f.number))
  }

  lemma ManifestNext(m: seq<Record>, v: Levels, log: nat, e: Edit, v': Levels, log': nat, d: Lsm.Db)
    requires ManifestOk(m, v, log, d.nextFile) && Installs(v, e, v') && EditOk(m, e, v', d.nextFile)
    requires log' < d.nextFile && d.lastSequence < MAX_SEQUENCE
    ensures ManifestOk(m + [RecordOf(e, log', d)], v', log', d.nextFile)
    ensures MLast(m + [RecordOf(e, log', d)]) == d.lastSequence
  {
    hide Seen, Names, EditAdds, Describes, Installs, AllFresh, MetaEdit, EditOk;
    var rec := RecordOf(e, log', d);
    MarksNext(m, rec);
    DescribesNext(m, v, e, v', rec);
    SeenOkNext(m, e, rec, v', d.nextFile);
    EditNames(m, e, v', d.nextFile);
  }

  lemma EditNames(m: seq<Record>, e: Edit, v: Levels, next: nat)
    requires EditOk(m, e, v, next)
    ensures forall n: nat :: Names(v, n) ==> n < next
  {
    hide Names, Seen, EditAdds;
  }

  lemma SeenOkNext(m: seq<Record>, e: Edit, rec: Record, v: Levels, next: nat)
    requires AllFresh(m) && (forall l: nat, n: nat :: Seen(m, l, n) ==> n < next) && EditOk(m, e, v, next)
    requires rec.edit == MetaEdit(e) && MNext(m + [rec]) == next
    ensures SeenOk(m + [rec], v)
  {
    hide Seen, Names, EditAdds, AllFresh, MetaEdit;
    MetaFresh(m, e);
    AllFreshNext(m, rec);
    forall l: nat, n: nat ensures Seen(m + [rec], l, n) <==> Seen(m, l, n) || EditAdds(e, l, n) {
      RecordSeen(m, e, rec, l, n);
    }
  }

  lemma FlushEditOk(m: seq<Record>, o: Option<File>, level: nat, v: Levels, v': Levels, live: set<Levels>, tables: map<nat, seq<Entry>>, next: nat)
    requires SeenOk(m, v) && LiveOk(v, live, tables, next)
    requires o.Some? ==> LsmProofs.FileAdded(v, v', o.value, level) && Unused(live, m, o.value.number) && o.value.number < next
                         && Lsm.NewestNumber(v, o.value.number)
    requires o.None? ==> v' == v
    ensures EditOk(m, FlushEdit(o, level), v', next)
    ensures forall l: nat, n: nat :: EditAdds(FlushEdit(o, level), l, n) <==> o.Some? && l == level && n == o.value.number
    ensures forall n: nat :: Names(v', n) <==> Names(v, n) || (o.Some? && n == o.value.number)
  {
    hide Seen, Tabled, AllFresh;
    if o.Some? {
      var f := o.value;
      var p := (level, f);
      assert FlushEdit(o, level).added == [p];
      assert p in FlushEdit(o, level).added;
      LsmProofs.FileAddedMembers(v, v', f, level);
      forall n: nat ensures Names(v', n) <==> Names(v, n) || n == f.number {
        if Names(v, n) {
          var k, g :| 0 <= k < |v| && g in v[k] && g.number == n;
          assert g in v'[k];
        }
        assert f in v'[level];
      }
      forall k, l, g | 0 <= k < l < NUM_LEVELS && k < |v'| && g in v'[k]
        ensures !Seen(m, l, g.number) && !EditAdds(FlushEdit(o, level), l, g.number)
      {
        assert g in v[k] || (k == level && g == f);
      }
    }
  }

  /** Everything before log i has been published. */
  lemma SeqOkNow(l: Logs, d: Lsm.Db, ins: Option<seq<Lsm.Op>>, i: nat)
    requires LogsOk(l) && i < |l.list| && HistoryOk(l.history, d.history, d.lastSequence, ins)
    requires l.starts[i] <= |l.history| - if ins.Some? then 1 else 0
    requires forall e :: e in d.history ==> e.sn <= d.lastSequence
    ensures SeqOk(l, l.list[i], d.lastSequence)
  {
    SplitsAtLog(l, i);
    hide LogsOk, Flat, Increasing;
    var end := |l.history| - if ins.Some? then 1 else 0;
    assert l.history[..|l.history|] == l.history;
    var done := l.history[..end];
    FlatSplit(done, l.starts[i]);
    assert done[..l.starts[i]] == l.history[..l.starts[i]];
    forall k, e | SplitsAt(l.list, l.list[i], k) && l.Start(k) <= |l.history| && e in Flat(l.history[..l.Start(k)])
      ensures e.sn <= d.lastSequence
    {
      SplitsOnce(l.list, l.list[i], i, k);
    }
  }

  lemma LastSeqOk(s: State)
    requires MemoryOk(s) && LogsOk(s.disk.l)
    ensures s.disk.l.list != [] && SeqOk(s.disk.l, s.disk.l.Last(), s.d.lastSequence) && SeqOk(s.disk.l, s.vlog, s.d.lastSequence)
  {
    InvParts(s.d);
    hide Lsm.Inv, LiveOk, SeqOk, Flat, HistoryOk, LogsOk;
    var l := s.disk.l;
    SeqOkNow(l, s.d, s.ins, |l.list| - 1);
    if s.d.imm.Some? {
      SeqOkNow(l, s.d, s.ins, |l.list| - 2);
    }
  }

  /** Outputs of a compaction know nothing of the flushed file. */
  lemma CompAfterFlushRecord(s: State, m: seq<Record>, o: Option<File>, level: nat, v: Levels)
    requires WorkOk(s) && s.flush == Built(o, level)
    requires forall l: nat, n: nat :: Seen(m, l, n) <==> Seen(s.disk.manifest, l, n) || (o.Some? && l == level && n == o.value.number)
    ensures CompOk(s.comp, s.d.running, s.d.levels, Writing(o, level, v), s.live, m, s.disk.tables, s.pending, s.d.nextFile)
  {
    hide Seen, WfFile, FlushOk, Names, Seen;
  }

  lemma BuiltFacts(s: State)
    requires MemoryOk(s) && WorkOk(s) && FilesOk(s) && s.flush.Built?
    ensures s.d.imm.Some? && FileOk(s.flush.file, s.flush.level, s.d.imm.value, s.d.levels, s.disk.tables, s.d.nextFile)
    ensures s.flush.file.Some? ==> Unused(s.live, s.disk.manifest, s.flush.file.value.number)
    ensures !s.comp.CWriting? && !s.stuck && s.disk.l.list != [] && s.disk.l.Last() < s.d.nextFile
    ensures ManifestOk(s.disk.manifest, s.d.levels, s.vlog, s.d.nextFile) && Tabled(s.d.levels, s.disk.tables)
  {
    hide Lsm.Inv, HistoryOk, ManifestOk, Tabled, FileOk, Unused, LogsOk, SeqOk, LogsKept;
    assert s.disk.l.Last() in s.disk.l.list;
  }

  lemma WriteFlushEditInv(s: State, s': State, ok: bool, reached: bool, v: Levels)
    requires Inv(s) && WriteFlushEdit(s, s', ok, reached, v)
    ensures Inv(s')
  {
    hide Lsm.Inv, LiveOk, CompOk, ManifestOk, LogsOk, LogsKept, Below, SeqOk, MemOk, HistoryOk, FlushOk;
    BuiltFacts(s);
    if reached {
      FlushRecordOk(s, s', v);
    } else {
      NoFlushOk(s.d.imm, s', s.d.nextFile);
      CompAfterFailure(s, s'.pending);
    }
  }

  lemma FlushRecordOk(s: State, s': State, v: Levels)
    requires Inv(s) && s.mode.Running? && s.flush.Built? && s.disk.l.list != []
    requires Installs(s.d.levels, FlushEdit(s.flush.file, s.flush.level), v)
    requires s' == WithRecord(s, RecordOf(FlushEdit(s.flush.file, s.flush.level), s.disk.l.Last(), s.d)).(
                     flush := Writing(s.flush.file, s.flush.level, v), stuck := s'.stuck, bgError := s'.bgError)
    requires s'.stuck ==> s'.bgError
    ensures Inv(s')
  {
    hide Lsm.Inv, LiveOk, CompOk, ManifestOk, LogsOk, LogsKept, Below, SeqOk, MemOk, HistoryOk, FlushOk, Installs, FileOk, FlushEdit, Unused;
    var o, level, m := s.flush.file, s.flush.level, s.disk.manifest;
    var e := FlushEdit(o, level);
    BuiltFacts(s);
    AfterFlush(s.d, o, level, v, s.disk.tables);
    FlushEditOkFor(s, o, level, v);
    InvParts(s.d);
    ManifestNext(m, s.d.levels, s.vlog, e, v, s.disk.l.Last(), s.d);
    LastSeqOk(s);
    forall l: nat, n: nat ensures Seen(s'.disk.manifest, l, n) <==> Seen(m, l, n) || (o.Some? && l == level && n == o.value.number) {
      RecordSeen(m, e, RecordOf(e, s.disk.l.Last(), s.d), l, n);
    }
    CompAfterFlushRecord(s, s'.disk.manifest, o, level, v);
    WritingOk(s, s'.disk.manifest, o, level, v);
    ManifestLog(s'.disk.manifest, v, s.disk.l.Last(), s.d.nextFile);
  }

  lemma ManifestLog(m: seq<Record>, v: Levels, log: nat, next: nat)
    requires ManifestOk(m, v, log, next)
    ensures MLog(m) == log
  {
  }

  lemma WritingOk(s: State, m: seq<Record>, o: Option<File>, level: nat, v: Levels)
    requires s.d.imm.Some? && FileOk(o, level, s.d.imm.value, s.d.levels, s.disk.tables, s.d.nextFile) && Installs(s.d.levels, FlushEdit(o, level), v)
    ensures FlushOk(Writing(o, level, v), s.d.imm, s.d.levels, s.live, m, s.disk.tables, s.pending, s.d.nextFile)
  {
    hide Installs, FileOk;
  }

  lemma FlushEditOkFor(s: State, o: Option<File>, level: nat, v: Levels)
    requires MemoryOk(s) && ManifestOk(s.disk.manifest, s.d.levels, s.vlog, s.d.nextFile) && s.d.imm.Some?
    requires FileOk(o, level, s.d.imm.value, s.d.levels, s.disk.tables, s.d.nextFile)
    requires o.Some? ==> LsmProofs.FileAdded(s.d.levels, v, o.value, level) && Unused(s.live, s.disk.manifest, o.value.number)
    requires o.None? ==> v == s.d.levels
    ensures EditOk(s.disk.manifest, FlushEdit(o, level), v, s.d.nextFile)
    ensures forall l: nat, n: nat :: EditAdds(FlushEdit(o, level), l, n) <==> o.Some? && l == level && n == o.value.number
  {
    hide Lsm.Inv, HistoryOk, MemOk, LiveOk, SeenOk, Describes, LsmProofs.FileAdded, Unused, EditOk, EditAdds, FlushEdit, Placeable, Lsm.NewestNumber;
    FlushEditOk(s.disk.manifest, o, level, s.d.levels, v, s.live, s.disk.tables, s.d.nextFile);
  }

  // ---------- installing a flush ----------

  /** One more live version, with its tables on disk. */
  lemma MoreLive(v: Levels, live: set<Levels>, tables: map<nat, seq<Entry>>, next: nat, v': Levels)
    requires LiveOk(v, live, tables, next) && Tabled(v', tables) && forall n: nat :: Names(v', n) ==> n < next
    ensures LiveOk(v', live + {v'}, tables, next)
  {
    hide Tabled, Names;
  }

  lemma WritingFacts(s: State)
    requires MemoryOk(s) && WorkOk(s) && FilesOk(s) && s.flush.Writing?
    ensures s.d.imm.Some? && FileOk(s.flush.file, s.flush.level, s.d.imm.value, s.d.levels, s.disk.tables, s.d.nextFile)
    ensures Installs(s.d.levels, FlushEdit(s.flush.file, s.flush.level), s.flush.levels) && Tabled(s.d.levels, s.disk.tables)
    ensures !s.comp.CWriting? && s.disk.l.list != []
    ensures ManifestOk(s.disk.manifest, s.flush.levels, s.disk.l.Last(), s.d.nextFile)
    ensures forall n: nat :: Names(s.flush.levels, n) ==> n < s.d.nextFile
  {
    hide Lsm.Inv, HistoryOk, Tabled, FileOk, Unused, LogsOk, SeqOk, LogsKept, Describes, SeenOk, Installs;
  }

  lemma LogsKeptLast(l: Logs)
    requires LogsOk(l) && l.list != [] && l.Last() in l.files
    ensures LogsKept(l, l.Last())
  {
    assert forall i :: 0 <= i < |l.list| - 1 ==> l.list[i] < l.list[|l.list| - 1];
  }

  lemma MemOkFlushed(l: Logs, mem: seq<Entry>, imm: Option<seq<Entry>>, inserting: bool, vlog: nat)
    requires MemOk(l, mem, imm, inserting, vlog)
    ensures l.list != [] && l.Last() in l.files && MemOk(l, mem, None, inserting, l.Last())
  {
    hide Flat;
  }

  /** The outputs of a compaction are not in the version that a flush installs. */
  lemma CompAfterInstall(s: State)
    requires WorkOk(s) && s.flush.Writing?
    requires forall n: nat :: Names(s.flush.levels, n) ==> Names(s.d.levels, n) || (s.flush.file.Some? && n == s.flush.file.value.number)
    requires s.d.levels in s.live
    ensures CompOk(s.comp, s.d.running, s.flush.levels, NoFlush, s.live + {s.flush.levels}, s.disk.manifest, s.disk.tables, s.pending, s.d.nextFile)
  {
    hide WfFile, FlushOk, Names, Seen;
  }

  lemma FlushNames(v: Levels, v': Levels, o: Option<File>, level: nat)
    requires o.Some? ==> LsmProofs.FileAdded(v, v', o.value, level)
    requires o.None? ==> v' == v
    ensures forall n: nat :: Names(v', n) ==> Names(v, n) || (o.Some? && n == o.value.number)
  {
    if o.Some? { LsmProofs.FileAddedMembers(v, v', o.value, level); }
  }

  lemma InLive(s: State)
    requires MemoryOk(s)
    ensures s.d.levels in s.live
  {
    hide Lsm.Inv, HistoryOk, MemOk;
  }

  /** Dropping the immutable memtable after LogAndApply leaves every batch in the version, the memtable or the log. */
  lemma InstallFlushInv(s: State, s': State)
    requires Inv(s) && InstallFlush(s, s')
    ensures Inv(s')
  {
    hide Lsm.Inv, LiveOk, CompOk, ManifestOk, LogsOk, LogsKept, Below, SeqOk, MemOk, HistoryOk, FlushOk, Installs, FileOk, FlushEdit, Names;
    var o, level, v := s.flush.file, s.flush.level, s.flush.levels;
    WritingFacts(s);
    AfterFlush(s.d, o, level, v, s.disk.tables);
    FlushNames(s.d.levels, v, o, level);
    InLive(s);
    CompAfterInstall(s);
    MoreLive(s.d.levels, s.live, s.disk.tables, s.d.nextFile, v);
    MemOkFlushed(s.disk.l, s.d.mem, s.d.imm, s.ins.Some?, s.vlog);
    LogsKeptLast(s.disk.l);
    NoFlushOk(None, s', s.d.nextFile);
  }

  // ---------- compaction ----------

  lemma StartCompactionInv(s: State, s': State, c: Compaction)
    requires Inv(s) && StartCompaction(s, s', c)
    ensures Inv(s')
  {
    hide Lsm.Inv, LiveOk, ManifestOk, LogsOk, LogsKept, Below, SeqOk, MemOk, HistoryOk, FlushOk, Picked;
    LsmProofs.StartInv(s.d, s'.d, c);
    NoFlushOk(s'.d.imm, s', s.d.nextFile);
  }

  lemma CompWithOpen(s: State)
    requires WorkOk(s) && s.flush.NoFlush? && s.comp.Merging? && Unused(s.live, s.disk.manifest, s.d.nextFile)
    ensures CompOk(s.comp.(open := Some(s.d.nextFile)), s.d.running, s.d.levels, NoFlush, s.live, s.disk.manifest, s.disk.tables,
                   s.pending + {s.d.nextFile}, s.d.nextFile + 1)
  {
    hide Unused, WfFile, FlushOk;
    assert forall o :: o in s.comp.outs ==> o.number < s.d.nextFile;
  }

  lemma OpenOutputInv(s: State, s': State)
    requires Inv(s) && OpenOutput(s, s')
    ensures Inv(s')
  {
    hide Lsm.Inv, LiveOk, CompOk, ManifestOk, LogsOk, LogsKept, Below, SeqOk, MemOk, HistoryOk, FlushOk, Unused, Lsm.NewestNumber;
    var n := s.d.nextFile;
    NumbersLater(s, n + 1);
    NextIsUnused(s.d.levels, s.live, s.disk.tables, s.disk.manifest, Announced(s.d.levels, s.flush, s.comp),
                 AnnouncedLog(s.disk.l, s.vlog, s.flush), n);
    CompWithOpen(s);
    TookNumberInv(s.d, n + 1);
    NoFlushOk(s.d.imm, s', n + 1);
  }

  lemma CompWithOutput(s: State, f: File)
    requires WorkOk(s) && s.flush.NoFlush? && s.comp.Merging? && s.comp.open == Some(f.number) && WfFile(f)
    ensures CompOk(Merging(s.comp.outs + [f], None), s.d.running, s.d.levels, NoFlush, s.live, s.disk.manifest,
                   s.disk.tables[f.number := f.entries], s.pending, s.d.nextFile)
    ensures forall x :: x in s.live ==> !Names(x, f.number)
  {
    hide WfFile, FlushOk, Names, Seen;
    var outs := s.comp.outs + [f];
    assert forall o :: o in outs ==> o in s.comp.outs || o == f;
    assert forall i :: 0 <= i < |s.comp.outs| ==> s.comp.outs[i] in s.comp.outs;
  }

  lemma FinishOutputInv(s: State, s': State, f: File)
    requires Inv(s) && FinishOutput(s, s', f)
    ensures Inv(s')
  {
    hide Lsm.Inv, LiveOk, CompOk, ManifestOk, LogsOk, LogsKept, Below, SeqOk, MemOk, HistoryOk, FlushOk, WfFile, Names;
    CompWithOutput(s, f);
    TablesElsewhere(s.d.levels, s.live, s.disk.tables, s.d.nextFile, f.number, f.entries);
    NoFlushOk(s.d.imm, s', s.d.nextFile);
  }

  lemma AbandonedInv(d: Lsm.Db)
    requires Lsm.Inv(d)
    ensures Lsm.Inv(d.(running := None))
  {
    if d.running.Some? {
      LsmProofs.AbandonInv(d, d.(running := None));
    } else {
      assert d.(running := None) == d;
    }
  }

  lemma AbandonCompactionInv(s: State, s': State, error: bool)
    requires Inv(s) && AbandonCompaction(s, s', error)
    ensures Inv(s')
  {
    hide Lsm.Inv, LiveOk, ManifestOk, LogsOk, LogsKept, Below, SeqOk, MemOk, HistoryOk, FlushOk, OutsOk, OpenOk;
    AbandonedInv(s.d);
    NoFlushOk(s.d.imm, s', s.d.nextFile);
  }

  lemma AddToMembers(level: nat, files: seq<File>)
    ensures forall p :: p in DbImpl.AddTo(level, files) <==> p.0 == level && p.1 in files
  {
    var added := DbImpl.AddTo(level, files);
    forall p ensures p in added <==> p.0 == level && p.1 in files {
      if p.0 == level && p.1 in files {
        var i :| 0 <= i < |files| && files[i] == p.1;
        assert added[i] == p;
      }
    }
  }

  lemma AddToAdds(e: Edit, level: nat, files: seq<File>)
    requires e.added == DbImpl.AddTo(level, files)
    ensures forall l: nat, n: nat :: EditAdds(e, l, n) <==> l == level && n in NumbersOf(files)
  {
    AddToMembers(level, files);
    forall l: nat, n: nat ensures EditAdds(e, l, n) <==> l == level && n in NumbersOf(files) {
      if l == level && n in NumbersOf(files) {
        var f :| f in files && f.number == n;
        assert (level, f) in e.added;
      }
    }
  }

  /** The files of a job are new to the level they go to. */
  ghost predicate OutsUnseen(m: seq<Record>, level: nat, outs: seq<File>, next: nat) {
    && (forall o :: o in outs ==> o.number < next && forall l :: level < l ==> !Seen(m, l, o.number))
    && (forall i, j :: 0 <= i < j < |outs| ==> outs[i].number != outs[j].number)
  }

  lemma JobFresh(m: seq<Record>, c: Compaction, outs: seq<File>, next: nat)
    requires OutsUnseen(m, c.level, outs, next) && c.level + 1 < NUM_LEVELS
    ensures FreshEdit(m, DbImpl.InstallEdit(c, outs))
    ensures forall l: nat, n: nat :: EditAdds(DbImpl.InstallEdit(c, outs), l, n) <==> l == c.level + 1 && n in NumbersOf(outs)
  {
    hide Seen;
    var e := DbImpl.InstallEdit(c, outs);
    AddToMembers(c.level + 1, outs);
    AddToAdds(e, c.level + 1, outs);
  }

  /** No file above the output level has the number of an output once the job is installed. */
  ghost predicate OutsGone(v: Levels, c: Compaction, outs: seq<File>) {
    forall k, g :: 0 <= k <= c.level && k < |v| && g in v[k] ==> g.number !in NumbersOf(outs)
  }

  lemma JobEditOk(m: seq<Record>, c: Compaction, outs: seq<File>, v: Levels, v': Levels, next: nat)
    requires SeenOk(m, v) && Lsm.Installed(v, v', c, outs) && OutsUnseen(m, c.level, outs, next) && OutsGone(v', c, outs)
    requires |v| == NUM_LEVELS && forall n: nat :: Names(v, n) ==> n < next
    ensures EditOk(m, DbImpl.InstallEdit(c, outs), v', next)
  {
    JobFresh(m, c, outs, next);
    hide Seen, AllFresh, EditAdds, FreshEdit;
    var e := DbImpl.InstallEdit(c, outs);
    hide DbImpl.InstallEdit;
    forall n: nat | Names(v', n) ensures n < next {
      var k, g :| 0 <= k < |v'| && g in v'[k] && g.number == n;
      if g !in outs { assert g in v[k] && Names(v, n); }
    }
    forall k, l, f | 0 <= k < l < NUM_LEVELS && k < |v'| && f in v'[k] ensures !Seen(m, l, f.number) && !EditAdds(e, l, f.number) {
      assert f in v[k] || (k == c.level + 1 && f in outs);
    }
  }

  lemma JobFacts(s: State, job: Job)
    requires MemoryOk(s) && WorkOk(s) && s.flush.NoFlush?
    requires match job
             case Merge(c, m, outs) => s.comp == Merging(outs, None) && s.d.running == Some(c) && Merges(c, m, outs)
             case Move(c) => s.comp.NoComp? && Moves(s.d.levels, c)
    ensures JobOk(job, s.d.running, s.d.levels, s.disk.tables, s.d.nextFile)
    ensures job.Merge? ==> forall o :: o in job.outs ==> Unused(s.live, s.disk.manifest, o.number) && !Names(s.d.levels, o.number)
  {
    hide Lsm.Inv, HistoryOk, MemOk, FlushOk, Merges, Moves, Seen, Tabled;
    if job.Merge? {
      forall k, g, o | 0 <= k < |s.d.levels| && g in s.d.levels[k] && o in job.outs ensures g.number != o.number {
        assert Names(s.d.levels, g.number) && !Names(s.d.levels, o.number);
      }
    }
  }

  lemma MergeUnseen(s: State, c: Compaction, m: seq<Entry>, outs: seq<File>, v: Levels)
    requires JobOk(Merge(c, m, outs), s.d.running, s.d.levels, s.disk.tables, s.d.nextFile)
    requires forall o :: o in outs ==> Unused(s.live, s.disk.manifest, o.number) && !Names(s.d.levels, o.number)
    requires Lsm.Installed(s.d.levels, v, c, outs)
    ensures OutsUnseen(s.disk.manifest, c.level, outs, s.d.nextFile) && OutsGone(v, c, outs)
  {
    hide Seen, Merges, WfFile;
    forall k, g | 0 <= k <= c.level && k < |v| && g in v[k] ensures g.number !in NumbersOf(outs) {
      assert g in s.d.levels[k] && Names(s.d.levels, g.number);
    }
  }

  lemma MoveUnseen(s: State, c: Compaction, v: Levels)
    requires Moves(s.d.levels, c) && Lsm.Installed(s.d.levels, v, c, c.inputs0) && Lsm.FileNumbers(s.d.levels, s.d.nextFile)
    requires SeenOk(s.disk.manifest, s.d.levels) && |s.d.levels| == NUM_LEVELS
    ensures OutsUnseen(s.disk.manifest, c.level, c.inputs0, s.d.nextFile) && OutsGone(v, c, c.inputs0)
  {
    hide AllFresh;
    var f := c.inputs0[0];
    assert f in s.d.levels[c.level] && forall o :: o in c.inputs0 ==> o == f;
    forall l: nat | c.level < l ensures !Seen(s.disk.manifest, l, f.number) { SeenLevels(s.disk.manifest, l, f.number); }
    hide Seen;
    forall k, g | 0 <= k <= c.level && k < |v| && g in v[k] ensures g.number !in NumbersOf(c.inputs0) {
      assert g in s.d.levels[k];
    }
  }

  lemma SeenLevels(m: seq<Record>, l: nat, n: nat)
    requires AllFresh(m)
    ensures Seen(m, l, n) ==> l < NUM_LEVELS
  {
    if Seen(m, l, n) {
      SeenInRange(m, l, n);
    }
  }

  lemma SeenInRange(m: seq<Record>, l: nat, n: nat)
    requires AllFresh(m) && Seen(m, l, n)
    ensures l < NUM_LEVELS
  {
    var i, j :| 0 <= i < |m| && 0 <= j < |m[i].edit.added| && m[i].edit.added[j].0 == l && m[i].edit.added[j].1.number == n;
    assert FreshEdit(m[..i], m[i].edit);
    assert m[i].edit.added[j] in m[i].edit.added;
  }

  lemma JobRecordOk(s: State, job: Job, v: Levels)
    requires MemoryOk(s) && JobOk(job, s.d.running, s.d.levels, s.disk.tables, s.d.nextFile) && Installs(s.d.levels, JobEdit(job), v)
    requires job.Merge? ==> forall o :: o in job.outs ==> Unused(s.live, s.disk.manifest, o.number) && !Names(s.d.levels, o.number)
    requires ManifestOk(s.disk.manifest, s.d.levels, s.vlog, s.d.nextFile)
    ensures EditOk(s.disk.manifest, JobEdit(job), v, s.d.nextFile)
  {
    hide Lsm.Inv, HistoryOk, MemOk, Installs, Describes, SeenOk, JobOk, OutsUnseen, OutsGone, EditOk, Names, Unused;
    LiveTabled(s);
    AfterJob(s.d, job, v, s.disk.tables);
    InvParts(s.d);
    JobInputs(s.d, job, s.disk.tables);
    if job.Merge? {
      MergeUnseen(s, job.c, job.m, job.outs, v);
    } else {
      MoveFacts(s, job);
      MoveUnseen(s, job.c, v);
    }
    JobEditOk(s.disk.manifest, job.c, JobOuts(job), s.d.levels, v, s.d.nextFile);
  }

  lemma MoveFacts(s: State, job: Job)
    requires job.Move? && JobOk(job, s.d.running, s.d.levels, s.disk.tables, s.d.nextFile)
    ensures Moves(s.d.levels, job.c)
  {
  }

  lemma LiveTabled(s: State)
    requires MemoryOk(s)
    ensures Tabled(s.d.levels, s.disk.tables)
    ensures forall n: nat :: Names(s.d.levels, n) ==> n < s.d.nextFile
  {
    hide Lsm.Inv, HistoryOk, MemOk, Tabled, Names;
  }

  lemma QuietFacts(s: State)
    requires MemoryOk(s) && WorkOk(s) && FilesOk(s) && s.flush.NoFlush? && !s.comp.CWriting?
    ensures ManifestOk(s.disk.manifest, s.d.levels, s.vlog, s.d.nextFile) && s.vlog < s.d.nextFile && !s.stuck
  {
    hide Lsm.Inv, HistoryOk, MemOk, LiveOk, FlushOk, CompOk, Describes, SeenOk;
  }

  lemma WriteCompEditInv(s: State, s': State, job: Job, ok: bool, reached: bool, v: Levels)
    requires Inv(s) && WriteCompEdit(s, s', job, ok, reached, v)
    ensures Inv(s')
  {
    hide Lsm.Inv, LiveOk, ManifestOk, LogsOk, LogsKept, Below, SeqOk, MemOk, HistoryOk, FlushOk, Installs, JobOk, OutsOk, OpenOk, Merges, Moves,
      JobEdit, JobOuts, EditOk;
    JobFacts(s, job);
    QuietFacts(s);
    NoFlushOk(s'.d.imm, s', s.d.nextFile);
    if reached {
      JobRecordOk(s, job, v);
      InvParts(s.d);
      ManifestNext(s.disk.manifest, s.d.levels, s.vlog, JobEdit(job), v, s.vlog, s.d);
      ManifestLog(s'.disk.manifest, v, s.vlog, s.d.nextFile);
      LastSeqOk(s);
    } else {
      AbandonedInv(s.d);
    }
  }

  lemma JobNames(v: Levels, v': Levels, c: Compaction, outs: seq<File>, next: nat)
    requires Lsm.Installed(v, v', c, outs) && (forall n: nat :: Names(v, n) ==> n < next) && forall o :: o in outs ==> o.number < next
    ensures forall n: nat :: Names(v', n) ==> n < next
  {
    forall n: nat | Names(v', n) ensures n < next {
      var k, g :| 0 <= k < |v'| && g in v'[k] && g.number == n;
      if g !in outs { assert g in v[k] && Names(v, n); }
    }
  }

  lemma CWritingFacts(s: State)
    requires MemoryOk(s) && WorkOk(s) && FilesOk(s) && s.comp.CWriting?
    ensures s.flush.NoFlush? && JobOk(s.comp.job, s.d.running, s.d.levels, s.disk.tables, s.d.nextFile)
    ensures Installs(s.d.levels, JobEdit(s.comp.job), s.comp.levels) && Tabled(s.d.levels, s.disk.tables)
    ensures ManifestOk(s.disk.manifest, s.comp.levels, s.vlog, s.d.nextFile)
    ensures forall n: nat :: Names(s.comp.levels, n) ==> n < s.d.nextFile
  {
    hide Lsm.Inv, HistoryOk, MemOk, Tabled, JobOk, Unused, LogsOk, SeqOk, LogsKept, Describes, SeenOk, Installs, Names, FlushOk;
  }

  lemma InstallCompInv(s: State, s': State)
    requires Inv(s) && InstallComp(s, s')
    ensures Inv(s')
  {
    hide Lsm.Inv, LiveOk, ManifestOk, LogsOk, LogsKept, Below, SeqOk, MemOk, HistoryOk, FlushOk, Installs, JobOk, JobEdit, JobOuts, Names;
    CWritingFacts(s);
    AfterJob(s.d, s.comp.job, s.comp.levels, s.disk.tables);
    MoreLive(s.d.levels, s.live, s.disk.tables, s.d.nextFile, s.comp.levels);
    NoFlushOk(s.d.imm, s', s.d.nextFile);
  }

  // ---------- deleting files ----------

  lemma FewerLive(s: State, live: set<Levels>)
    requires WorkOk(s) && live <= s.live
    ensures FlushOk(s.flush, s.d.imm, s.d.levels, live, s.disk.manifest, s.disk.tables, s.pending, s.d.nextFile)
    ensures CompOk(s.comp, s.d.running, s.d.levels, s.flush, live, s.disk.manifest, s.disk.tables, s.pending, s.d.nextFile)
  {
    hide Names, Seen, FileOk, JobOk, Installs, WfFile;
  }

  lemma ReleaseInv(s: State, s': State, v: Levels)
    requires Inv(s) && Release(s, s', v)
    ensures Inv(s')
  {
    hide Lsm.Inv, FlushOk, CompOk, ManifestOk, LogsOk, LogsKept, Below, SeqOk, MemOk, HistoryOk, Tabled, Names;
    FewerLive(s, s'.live);
  }

  lemma CompWithout(s: State, n: nat)
    requires WorkOk(s) && s.flush.NoFlush? && !s.comp.CWriting? && n !in s.pending
    ensures CompOk(s.comp, s.d.running, s.d.levels, s.flush, s.live, s.disk.manifest, s.disk.tables - {n}, s.pending, s.d.nextFile)
  {
    hide Unused, WfFile, FlushOk;
  }

  lemma LiveWithout(v: Levels, live: set<Levels>, tables: map<nat, seq<Entry>>, next: nat, n: nat)
    requires LiveOk(v, live, tables, next) && forall x :: x in live ==> !Names(x, n)
    ensures LiveOk(v, live, tables - {n}, next)
  {
    forall x | x in live ensures Tabled(x, tables - {n}) {
      assert !Names(x, n);
    }
  }

  /** A deleted table is in no live version, is no output in progress and is not in the version of the MANIFEST. */
  lemma DeleteTableInv(s: State, s': State, n: nat)
    requires Inv(s) && DeleteTable(s, s', n)
    ensures Inv(s') && n !in s.pending && !Names(Announced(s.d.levels, s.flush, s.comp), n)
  {
    hide Lsm.Inv, LiveOk, CompOk, ManifestOk, LogsOk, LogsKept, Below, SeqOk, MemOk, HistoryOk, FlushOk, Names;
    InLive(s);
    LiveWithout(s.d.levels, s.live, s.disk.tables, s.d.nextFile, n);
    CompWithout(s, n);
    NoFlushOk(s.d.imm, s', s.d.nextFile);
  }

  lemma MemOkWithout(l: Logs, mem: seq<Entry>, imm: Option<seq<Entry>>, inserting: bool, vlog: nat, n: nat)
    requires LogsOk(l) && MemOk(l, mem, imm, inserting, vlog) && n < vlog && LogsKept(l, vlog)
    ensures MemOk(l.(files := l.files - {n}), mem, imm, inserting, vlog) && LogsKept(l.(files := l.files - {n}), vlog)
  {
    hide Flat;
    assert vlog <= l.Last();
  }

  lemma SeqOkWithout(l: Logs, n: nat, last: nat, files: map<nat, seq<Batch>>)
    requires SeqOk(l, n, last)
    ensures SeqOk(l.(files := files), n, last)
  {
    hide Flat;
    var l' := l.(files := files);
    forall k, e | SplitsAt(l'.list, n, k) && l'.Start(k) <= |l'.history| && e in Flat(l'.history[..l'.Start(k)]) ensures e.sn <= last {
      assert l'.Start(k) == l.Start(k);
    }
  }

  /** A deleted log lies below the log number that the MANIFEST asks for. */
  lemma DeleteLogInv(s: State, s': State, n: nat)
    requires Inv(s) && DeleteLog(s, s', n)
    ensures Inv(s') && n < MLog(s.disk.manifest)
  {
    hide Lsm.Inv, LiveOk, CompOk, ManifestOk, LogsOk, LogsKept, Below, SeqOk, MemOk, HistoryOk, FlushOk;
    QuietFacts(s);
    ManifestLog(s.disk.manifest, s.d.levels, s.vlog, s.d.nextFile);
    DeletedLogOk(s.disk.l, n);
    MemOkWithout(s.disk.l, s.d.mem, s.d.imm, s.ins.Some?, s.vlog, n);
    SeqOkWithout(s.disk.l, MLog(s.disk.manifest), MLast(s.disk.manifest), s.disk.l.files - {n});
    BelowWithout(s.disk.l, s.d.nextFile, s.disk.l.files - {n});
  }

  lemma BelowWithout(l: Logs, next: nat, files: map<nat, seq<Batch>>)
    requires Below(l, next)
    ensures Below(l.(files := files), next)
  {
  }

  // ---------- crash and opening ----------

  lemma NothingBuilt(v: Levels)
    requires Shape(v)
    ensures Installs(v, OpenEdit([]), v)
  {
    forall l | 0 <= l < NUM_LEVELS ensures FileSet(v[l]) == ApplyTo(FileSet(v[l]), OpenEdit([]), l) {
      assert OpenEdit([]).added == [];
    }
  }

  /** What DBImpl::Recover reads is the database that the disk stands for, so nothing is lost by starting over from it. */
  lemma CrashInv(s: State, s': State, nums: seq<nat>)
    requires Inv(s) && Crash(s, s', nums)
    ensures Inv(s')
  {
    hide Inv, Lsm.Inv, StandsFor;
    var dd := DiskStands(s);
    CrashFrom(s.disk, dd, nums, s'.d);
    hide BaseOk;
    assert s'.mode.replay[0..] == s'.mode.replay;
    IsInv(s');
  }

  lemma IsInv(s: State)
    requires s.mode.Opening? && BaseOk(s.disk, s.mode, s.d.nextFile) && OpeningOk(s)
    ensures Inv(s)
  {
    hide BaseOk, OpeningOk;
  }

  lemma CrashFrom(disk: Disk, dd: Lsm.Db, nums: seq<nat>, d: Lsm.Db)
    requires StandsFor(disk, dd) && Recovered(disk, nums, d)
    ensures BaseOk(disk, Opening(d, Replayed(disk.l.files, nums), 0, [], None), d.nextFile)
    ensures Lsm.Inv(d) && Tabled(d.levels, disk.tables) && Installs(d.levels, OpenEdit([]), d.levels)
    ensures d.imm.None? && d.running.None? && d.history == Flat(disk.l.history) && SameEntries(d.mem, Flat(Replayed(disk.l.files, nums)))
  {
    RecoveredIsRecover(disk, dd, nums, d);
    RecoveredParts(disk, nums, d);
    StandsParts(disk, dd);
    hide StandsFor, Recovered, Lsm.Inv, LogsOk, LogsKept, SeqOk, Increasing, Tabled, Describes, SeenOk, Flat, SameEntries;
    var k :| StandsAt(disk, dd, k);
    ReplayIsSuffix(disk.l, MLog(disk.manifest), k, nums);
    InvParts(d);
    NothingBuilt(d.levels);
  }

  lemma RecoveredParts(disk: Disk, nums: seq<nat>, d: Lsm.Db)
    requires Recovered(disk, nums, d)
    ensures LogsFrom(disk.l.files, MLog(disk.manifest), nums) && Tabled(d.levels, disk.tables) && MNext(disk.manifest) <= d.nextFile
    ensures (forall x :: x in nums ==> x in disk.l.files) && SameEntries(d.mem, Flat(Replayed(disk.l.files, nums)))
    ensures d.history == Flat(disk.l.history) && d.imm.None? && d.running.None?
  {
    hide Describes, Tabled, SameEntries, Flat;
  }

  lemma StandsParts(disk: Disk, dd: Lsm.Db)
    requires StandsFor(disk, dd)
    ensures LogsOk(disk.l) && LogsKept(disk.l, MLog(disk.manifest)) && SeqOk(disk.l, MLog(disk.manifest), MLast(disk.manifest))
    ensures Increasing(dd.history) && dd.history == Flat(disk.l.history)
    ensures ManifestOk(disk.manifest, dd.levels, MLog(disk.manifest), MNext(disk.manifest))
    ensures exists k :: StandsAt(disk, dd, k)
  {
    hide Lsm.Inv, LogsOk, LogsKept, SeqOk, Increasing, Tabled, Describes, SeenOk, Flat, ManifestOk;
  }

  lemma BaseLater(disk: Disk, mode: Mode, next: nat, next': nat)
    requires mode.Opening? && BaseOk(disk, mode, next) && next <= next'
    ensures BaseOk(disk, mode, next')
  {
    hide Lsm.Inv, LogsOk, LogsKept, SeqOk, Increasing, Tabled, Describes, SeenOk, Flat, SameEntries;
  }

  /** base, replay and the disk decide; what has been built since does not matter. */
  lemma BaseSame(disk: Disk, mode: Mode, mode': Mode, next: nat)
    requires mode.Opening? && BaseOk(disk, mode, next) && mode'.Opening? && mode'.base == mode.base && mode'.replay == mode.replay
    ensures BaseOk(disk, mode', next)
  {
    hide Lsm.Inv, LogsOk, LogsKept, SeqOk, Increasing, Tabled, Describes, SeenOk, Flat, SameEntries, ManifestOk;
  }

  lemma MarkNumbersInv(s: State, s': State)
    requires Inv(s) && MarkNumbers(s, s')
    ensures Inv(s')
  {
    hide BaseOk, Lsm.Inv, Tabled, Installs, BuiltOk, SameEntries, Flat;
    BaseLater(s.disk, s.mode, s.d.nextFile, s'.d.nextFile);
    TookNumberInv(s.d, s'.d.nextFile);
  }

  lemma RemainingReplay(replay: seq<Batch>, done: nat, n: nat)
    requires done + n <= |replay|
    ensures Flat(replay[done..]) == Flat(replay[done..done + n]) + Flat(replay[done + n..])
  {
    hide Flat;
    var rest := replay[done..];
    FlatSplit(rest, n);
    assert rest[..n] == replay[done..done + n] && rest[n..] == replay[done + n..];
  }

  lemma RecoverNothingInv(s: State, s': State, n: nat)
    requires Inv(s) && s.mode.Opening? && s.mode.newLog.None? && s.mode.done + n <= |s.mode.replay|
    requires Flat(s.mode.replay[s.mode.done..s.mode.done + n]) == []
    requires s' == s.(mode := s.mode.(done := s.mode.done + n))
    ensures Inv(s')
  {
    hide BaseOk, Lsm.Inv, Tabled, Installs, BuiltOk, Flat;
    RemainingReplay(s.mode.replay, s.mode.done, n);
    BaseSame(s.disk, s.mode, s'.mode, s.d.nextFile);
  }

  /** The part of the memtable that goes to the table is the older part. */
  lemma RestOfMem(mem: seq<Entry>, mem': seq<Entry>, es: seq<Entry>, part: seq<Entry>, rest: seq<Entry>)
    requires SameEntries(mem, part + rest) && SameEntries(es, part) && Increasing(part + rest)
    requires (forall e :: e in mem <==> e in es || e in mem') && forall e, x :: e in mem' && x in es ==> e.sn > x.sn
    ensures SameEntries(mem', rest)
  {
    IncreasingParts(part, rest);
    forall e ensures e in mem' <==> e in rest {
      assert e in part + rest <==> e in part || e in rest;
    }
  }

  lemma ReplayIncreases(disk: Disk, mode: Mode, next: nat)
    requires mode.Opening? && BaseOk(disk, mode, next) && mode.done <= |mode.replay|
    ensures Increasing(Flat(mode.replay[mode.done..]))
  {
    hide Lsm.Inv, LogsOk, LogsKept, SeqOk, Increasing, Tabled, ManifestOk, Flat, SameEntries;
    var k :| SplitsAt(disk.l.list, MLog(disk.manifest), k) && disk.l.Start(k) <= |disk.l.history|
             && mode.replay == disk.l.history[disk.l.Start(k)..];
    FlatSplit(disk.l.history, disk.l.Start(k));
    FlatSplit(mode.replay, mode.done);
    var a, b, c := Flat(disk.l.history[..disk.l.Start(k)]), Flat(mode.replay[..mode.done]), Flat(mode.replay[mode.done..]);
    assert Flat(disk.l.history) == a + (b + c);
    IncreasingParts(a, b + c);
    IncreasingParts(b, c);
  }

  /** Tables are added to level 0 one after the other. */
  lemma BuiltMore(base: Levels, v: Levels, v': Levels, built: seq<File>, f: File)
    requires Installs(base, OpenEdit(built), v) && |v'| == NUM_LEVELS
    requires Lsm.Edited(v[0], [], [f], v'[0]) && forall k :: 1 <= k < NUM_LEVELS ==> v'[k] == v[k]
    ensures Installs(base, OpenEdit(built + [f]), v')
  {
    var n := |built|;
    assert (built + [f])[..n] == built && built[..n] == built && (built + [f])[..n + 1] == built + [f];
    forall l | 0 <= l < NUM_LEVELS
      ensures SortedFiles(v'[l]) && FileSet(v'[l]) == ApplyTo(FileSet(base[l]), OpenEdit(built + [f]), l)
    {
      DbImpl.AddToLevel({}, 0, built, n, l);
      DbImpl.AddToLevel({}, 0, built + [f], n + 1, l);
      if l == 0 {
        assert FileSet(v'[0]) == FileSet(v[0]) + {f};
        assert FileSet(built + [f]) == FileSet(built) + {f};
      }
    }
  }

  lemma BuiltInVersion(base: Levels, v: Levels, built: seq<File>, f: File)
    requires Installs(base, OpenEdit(built), v) && f in built
    ensures f in v[0]
  {
    DbImpl.AddToLevel({}, 0, built, |built|, 0);
    assert built[..|built|] == built;
    assert f in FileSet(v[0]);
  }

  lemma BuiltOkMore(m: seq<Record>, base: Levels, v: Levels, built: seq<File>, f: File, next: nat)
    requires BuiltOk(m, built) && Installs(base, OpenEdit(built), v) && Lsm.FileNumbers(v, next) && MNext(m) <= next == f.number
    ensures BuiltOk(m, built + [f])
  {
    forall g | g in built ensures g.number < next { BuiltInVersion(base, v, built, g); }
    forall i | 0 <= i < |built| ensures built[i].number < next { assert built[i] in built; }
  }

  lemma TabledWith(v: Levels, tables: map<nat, seq<Entry>>, n: nat, es: seq<Entry>)
    requires Tabled(v, tables) && forall x: nat :: Names(v, x) ==> x < n
    ensures Tabled(v, tables[n := es])
  {
    forall l, f | 0 <= l < |v| && f in v[l] ensures f.number in tables[n := es] && tables[n := es][f.number] == f.entries {
      assert Names(v, f.number);
    }
  }

  lemma NumbersBound(v: Levels, next: nat)
    requires Lsm.FileNumbers(v, next)
    ensures forall n: nat :: Names(v, n) ==> n < next
  {
  }

  lemma BaseWithTable(disk: Disk, mode: Mode, next: nat, es: seq<Entry>)
    requires mode.Opening? && BaseOk(disk, mode, next)
    ensures BaseOk(disk.(tables := disk.tables[next := es]), mode, next)
    ensures MNext(disk.manifest) <= next
  {
    hide Lsm.Inv, LogsOk, LogsKept, SeqOk, Increasing, Tabled, Describes, SeenOk, Flat, SameEntries, Names;
    TabledWith(mode.base.levels, disk.tables, next, es);
  }

  lemma RecoverTableInv(s: State, s': State, n: nat, f: File)
    requires Inv(s) && RecoverTable(s, s', n, f)
    ensures Inv(s')
  {
    hide BaseOk, Lsm.Inv, Tabled, Installs, BuiltOk, Flat, Lsm.RecoverTable, SameEntries, Names;
    var part := Flat(s.mode.replay[s.mode.done..s.mode.done + n]);
    if part == [] {
      RecoverNothingInv(s, s', n);
    } else {
      BaseWithTable(s.disk, s.mode, s.d.nextFile, f.entries);
      BaseLater(s'.disk, s.mode, s.d.nextFile, s'.d.nextFile);
      BaseSame(s'.disk, s.mode, s'.mode, s'.d.nextFile);
      LsmProofs.RecoverTableInv(s.d, s'.d, f);
      RecoveredMem(s, s', n, f);
      RecoveredVersion(s, s', f);
      RecoveredSame(s.d, s'.d, f);
    }
  }

  lemma RecoveredSame(d: Lsm.Db, d': Lsm.Db, f: File)
    requires Lsm.RecoverTable(d, d', f)
    ensures d'.imm.None? && d'.running.None? && d'.history == d.history
  {
  }

  lemma RecoveredMem(s: State, s': State, n: nat, f: File)
    requires s.mode.Opening? && BaseOk(s.disk, s.mode, s.d.nextFile) && OpeningOk(s) && s.mode.done + n <= |s.mode.replay|
    requires Lsm.RecoverTable(s.d, s'.d, f) && SameEntries(f.entries, Flat(s.mode.replay[s.mode.done..s.mode.done + n]))
    ensures SameEntries(s'.d.mem, Flat(s.mode.replay[s.mode.done + n..]))
  {
    hide BaseOk, Lsm.Inv, Tabled, Installs, BuiltOk, Flat, SameEntries, Lsm.NewestNumber, Lsm.Edited, WfFile;
    ReplayIncreases(s.disk, s.mode, s.d.nextFile);
    RemainingReplay(s.mode.replay, s.mode.done, n);
    RestOfMem(s.d.mem, s'.d.mem, f.entries, Flat(s.mode.replay[s.mode.done..s.mode.done + n]), Flat(s.mode.replay[s.mode.done + n..]));
  }

  lemma RecoveredVersion(s: State, s': State, f: File)
    requires s.mode.Opening? && OpeningOk(s) && Lsm.RecoverTable(s.d, s'.d, f) && f.number == s.d.nextFile
    requires MNext(s.disk.manifest) <= s.d.nextFile && s'.disk.tables == s.disk.tables[f.number := f.entries]
    ensures Tabled(s'.d.levels, s'.disk.tables) && BuiltOk(s.disk.manifest, s.mode.built + [f])
    ensures Installs(s.mode.base.levels, OpenEdit(s.mode.built + [f]), s'.d.levels)
  {
    InvParts(s.d);
    NumbersBound(s.d.levels, s.d.nextFile);
    hide BaseOk, Lsm.Inv, Flat, SameEntries, Lsm.NewestNumber, WfFile, VersionInv, Shape, Names;
    BuiltOkMore(s.disk.manifest, s.mode.base.levels, s.d.levels, s.mode.built, f, s.d.nextFile);
    BuiltMore(s.mode.base.levels, s.d.levels, s'.d.levels, s.mode.built, f);
    TabledWith(s.d.levels, s.disk.tables, f.number, f.entries);
    TabledFile(s.d.levels, s'.d.levels, f, s'.disk.tables);
  }

  lemma TabledFile(v: Levels, v': Levels, f: File, tables: map<nat, seq<Entry>>)
    requires Tabled(v, tables) && |v| == |v'| == NUM_LEVELS && f.number in tables && tables[f.number] == f.entries
    requires Lsm.Edited(v[0], [], [f], v'[0]) && forall k :: 1 <= k < NUM_LEVELS ==> v'[k] == v[k]
    ensures Tabled(v', tables)
  {
    forall l, g | 0 <= l < |v'| && g in v'[l] ensures g.number in tables && tables[g.number] == g.entries {
      assert g in v[l] || g == f;
    }
  }

  lemma BaseNewLog(disk: Disk, mode: Mode, next: nat)
    requires mode.Opening? && BaseOk(disk, mode, next)
    requires forall x :: x in disk.l.files && MLog(disk.manifest) <= x ==> x < next
    ensures Below(disk.l, next) && BaseOk(disk.(l := WithNewLog(disk.l, next)), mode, next)
  {
    hide Lsm.Inv, LogHolds, SeqOk, Increasing, Tabled, Describes, SeenOk, Flat, SameEntries, Names;
    var l, m := disk.l, disk.manifest;
    forall x | x in l.list ensures x < next {
      var i :| 0 <= i < |l.list| && l.list[i] == x;
    }
    NewLogOk(l, next);
    NewLogKept(l, next, MLog(m));
    SeqOkNewLog(l, MLog(m), MLast(m), next);
    var k :| SplitsAt(l.list, MLog(m), k) && l.Start(k) <= |l.history| && mode.replay == l.history[l.Start(k)..];
    NewLogPlace(l, MLog(m), next, k);
    hide LogsOk, LogsKept, SplitsAt;
    var l' := WithNewLog(l, next);
    assert SplitsAt(l'.list, MLog(m), k) && l'.Start(k) <= |l'.history| && mode.replay == l'.history[l'.Start(k)..];
  }

  lemma OpenLogInv(s: State, s': State)
    requires Inv(s) && OpenLog(s, s')
    ensures Inv(s')
  {
    hide BaseOk, Lsm.Inv, Tabled, Installs, BuiltOk, Flat, SameEntries, LogsOk;
    var n := s.d.nextFile;
    BaseNewLog(s.disk, s.mode, n);
    BaseLogs(s.disk, s.mode, n);
    NewLogOk(s.disk.l, n);
    BaseLater(s'.disk, s.mode, n, n + 1);
    BaseSame(s'.disk, s.mode, s'.mode, n + 1);
    TookNumberInv(s.d, n + 1);
    assert |s'.disk.l.starts| == |s'.disk.l.list|;
  }

  lemma BaseLogs(disk: Disk, mode: Mode, next: nat)
    requires mode.Opening? && BaseOk(disk, mode, next)
    ensures LogsOk(disk.l) && |disk.l.list| == |disk.l.starts|
  {
    hide Lsm.Inv, LogHolds, SeqOk, Increasing, Tabled, ManifestOk, Flat, SameEntries;
  }

  // ---------- the new MANIFEST ----------

  lemma SnapshotAdds(v: Levels, l: nat, n: nat)
    ensures EditAdds(SnapshotEdit(v), l, n) <==> l < |v| && exists f :: f in v[l] && f.number == n
  {
    FilesFromMembers(v, 0);
    if l < |v| && exists f :: f in v[l] && f.number == n {
      var f :| f in v[l] && f.number == n;
      assert (l, f) in SnapshotEdit(v).added;
    }
  }

  /** No level is given the same number twice. */
  ghost predicate OncePerLevel(ps: seq<(nat, File)>) {
    forall i, j :: 0 <= i < j < |ps| && ps[i].0 == ps[j].0 ==> ps[i].1.number != ps[j].1.number
  }

  lemma OnceConcat(a: seq<(nat, File)>, b: seq<(nat, File)>)
    requires OncePerLevel(a) && OncePerLevel(b) && forall i, j :: 0 <= i < |a| && 0 <= j < |b| ==> a[i].0 != b[j].0
    ensures OncePerLevel(a + b)
  {
  }

  lemma {:induction false} FilesFromOnce(v: Levels, l: nat, next: nat)
    requires Shape(v) && Lsm.FileNumbers(v, next)
    ensures OncePerLevel(FilesFrom(v, l))
    decreases |v| - l
  {
    hide Shape, Lsm.FileNumbers;
    if l < |v| {
      var here, rest := seq(|v[l]|, i requires 0 <= i < |v[l]| => (l, v[l][i])), FilesFrom(v, l + 1);
      forall i, j | 0 <= i < j < |v[l]| ensures v[l][i].number != v[l][j].number { LevelOnce(v, l, next, i, j); }
      FilesFromOnce(v, l + 1, next);
      FilesFromMembers(v, l + 1);
      assert OncePerLevel(here);
      forall j | 0 <= j < |rest| ensures rest[j].0 != l { assert rest[j] in rest; }
      OnceConcat(here, rest);
    }
  }

  lemma LevelOnce(v: Levels, l: nat, next: nat, i: nat, j: nat)
    requires Shape(v) && Lsm.FileNumbers(v, next) && l < |v| && i < j < |v[l]|
    ensures v[l][i].number != v[l][j].number
  {
    var f, g := v[l][i], v[l][j];
    assert f in v[l] && g in v[l] && FileBefore(f, g);
    FileOrder(f, f, f);
  }

  lemma SnapshotFresh(v: Levels, next: nat)
    requires Shape(v) && Lsm.FileNumbers(v, next)
    ensures FreshEdit([], SnapshotEdit(v))
  {
    FilesFromMembers(v, 0);
    FilesFromOnce(v, 0, next);
  }

  /** The record of the snapshot knows exactly the numbers of the version. */
  lemma SnapshotRecord(v: Levels, rec: Record, next: nat)
    requires Shape(v) && Lsm.FileNumbers(v, next) && rec.edit == MetaEdit(SnapshotEdit(v))
    ensures AllFresh([rec]) && forall l: nat, n: nat :: Seen([rec], l, n) <==> l < |v| && exists f :: f in v[l] && f.number == n
  {
    hide SnapshotEdit, MetaEdit, EditAdds, Shape, Lsm.FileNumbers;
    SnapshotFresh(v, next);
    MetaFresh([], SnapshotEdit(v));
    AllFreshNext([], rec);
    assert [] + [rec] == [rec];
    forall l: nat, n: nat ensures Seen([rec], l, n) <==> l < |v| && exists f :: f in v[l] && f.number == n {
      RecordSeen([], SnapshotEdit(v), rec, l, n);
      SnapshotAdds(v, l, n);
    }
  }

  lemma DeeperLevelsSame(base: Levels, v: Levels, built: seq<File>, l: nat)
    requires Installs(base, OpenEdit(built), v) && 1 <= l < NUM_LEVELS
    ensures forall f :: f in v[l] <==> f in base[l]
  {
    DbImpl.AddToLevel({}, 0, built, |built|, l);
    forall f ensures f in v[l] <==> f in base[l] {
      assert f in v[l] <==> f in FileSet(v[l]);
      assert f in base[l] <==> f in FileSet(base[l]);
    }
  }

  /** The tables built while opening, after the snapshot. */
  lemma OpenEditOk(m: seq<Record>, old_: seq<Record>, base: Levels, v: Levels, built: seq<File>, next: nat)
    requires forall l: nat, n: nat :: Seen(m, l, n) <==> l < |base| && exists f :: f in base[l] && f.number == n
    requires Installs(base, OpenEdit(built), v) && Lsm.FileNumbers(v, next) && BuiltOk(old_, built)
    requires forall n: nat :: Names(base, n) ==> n < MNext(old_)
    ensures EditOk(m, OpenEdit(built), v, next)
  {
    hide Seen, FreshEdit, EditAdds, OpenEdit, Names, BuiltOk, Installs, Lsm.FileNumbers, NumbersOf;
    OpenFresh(m, old_, base, v, built, next);
    NumbersBound(v, next);
    forall k, l, f | 0 <= k < l < NUM_LEVELS && k < |v| && f in v[k] ensures !Seen(m, l, f.number) && !EditAdds(OpenEdit(built), l, f.number) {
      NotBelow(base, v, built, next, k, l, f);
    }
  }

  lemma NotBelow(base: Levels, v: Levels, built: seq<File>, next: nat, k: nat, l: nat, f: File)
    requires Installs(base, OpenEdit(built), v) && Lsm.FileNumbers(v, next) && k < l < NUM_LEVELS && f in v[k]
    ensures !exists g :: g in base[l] && g.number == f.number
  {
    DeeperLevelsSame(base, v, built, l);
    hide Installs, OpenEdit;
    forall g | g in base[l] ensures g.number != f.number { assert g in v[l]; }
  }

  lemma OpenFresh(m: seq<Record>, old_: seq<Record>, base: Levels, v: Levels, built: seq<File>, next: nat)
    requires forall l: nat, n: nat :: Seen(m, l, n) <==> l < |base| && exists f :: f in base[l] && f.number == n
    requires Installs(base, OpenEdit(built), v) && Lsm.FileNumbers(v, next) && BuiltOk(old_, built)
    requires forall n: nat :: Names(base, n) ==> n < MNext(old_)
    ensures FreshEdit(m, OpenEdit(built))
    ensures forall l: nat, n: nat :: EditAdds(OpenEdit(built), l, n) <==> l == 0 && n in NumbersOf(built)
    ensures forall n: nat :: n in NumbersOf(built) ==> n < next
  {
    AddToAdds(OpenEdit(built), 0, built);
    AddToMembers(0, built);
    hide Seen, EditAdds;
    forall f | f in built ensures f.number < next && !Seen(m, 0, f.number) {
      BuiltInVersion(base, v, built, f);
      forall g | 0 < |base| && g in base[0] ensures g.number != f.number { assert Names(base, g.number); }
    }
  }

  lemma OpenManifest(s: State, m: seq<Record>)
    requires s.mode.Opening? && BaseOk(s.disk, s.mode, s.d.nextFile) && OpeningOk(s) && s.mode.newLog.Some? && s.mode.newLog.value < s.d.nextFile
    requires m == [Record(MetaEdit(SnapshotEdit(s.mode.base.levels)), None, None, None), RecordOf(OpenEdit(s.mode.built), s.mode.newLog.value, s.d)]
    ensures ManifestOk(m, s.d.levels, s.mode.newLog.value, s.d.nextFile) && MLast(m) == s.d.lastSequence
  {
    hide BaseOk, Lsm.Inv, Tabled, SameEntries, Flat, VersionInv, AllFresh, MetaEdit, Seen, Names, Shape, Lsm.FileNumbers, Installs, BuiltOk,
      SnapshotEdit, OpenEdit, Describes, LogsOk, SeenOk, MLog, MNext, MLast;
    BaseFacts(s.disk, s.mode, s.d.nextFile);
    InvParts(s.d);
    InvParts(s.mode.base);
    OpenRecords(s.disk.manifest, s.mode.base, s.mode.built, s.mode.newLog.value, s.d, m);
  }

  lemma OpenRecords(old_: seq<Record>, base: Lsm.Db, built: seq<File>, log: nat, d: Lsm.Db, m: seq<Record>)
    requires Shape(base.levels) && Lsm.FileNumbers(base.levels, base.nextFile) && Lsm.FileNumbers(d.levels, d.nextFile)
    requires Installs(base.levels, OpenEdit(built), d.levels) && BuiltOk(old_, built)
    requires (forall n: nat :: Names(base.levels, n) ==> n < MNext(old_)) && MNext(old_) <= d.nextFile && d.lastSequence < MAX_SEQUENCE && log < d.nextFile
    requires m == [Record(MetaEdit(SnapshotEdit(base.levels)), None, None, None), RecordOf(OpenEdit(built), log, d)]
    ensures ManifestOk(m, d.levels, log, d.nextFile) && MLast(m) == d.lastSequence
  {
    hide EditOk, AllFresh, MetaEdit, Seen, Names, Shape, Lsm.FileNumbers, Installs, BuiltOk, SnapshotEdit, OpenEdit, Describes, SeenOk, MLog, MNext, MLast;
    var r1, r2 := m[0], m[1];
    assert m == [r1] + [r2];
    SnapshotRecord(base.levels, r1, base.nextFile);
    LevelsSorted(base.levels);
    SnapshotDescribes(base.levels, r1);
    DescribesNext([r1], base.levels, OpenEdit(built), d.levels, r2);
    MarksNext([r1], r2);
    OpenEditOk([r1], old_, base.levels, d.levels, built, d.nextFile);
    SeenBelow(r1, base.levels, MNext(old_), d.nextFile);
    SeenOkNext([r1], OpenEdit(built), r2, d.levels, d.nextFile);
    EditNames([r1], OpenEdit(built), d.levels, d.nextFile);
  }

  lemma LevelsSorted(v: Levels)
    requires Shape(v)
    ensures |v| == NUM_LEVELS && forall l :: 0 <= l < NUM_LEVELS ==> SortedFiles(v[l])
  {
  }

  lemma SeenBelow(rec: Record, v: Levels, bound: nat, next: nat)
    requires forall l: nat, n: nat :: Seen([rec], l, n) <==> l < |v| && exists f :: f in v[l] && f.number == n
    requires (forall n: nat :: Names(v, n) ==> n < bound) && bound <= next
    ensures forall l: nat, n: nat :: Seen([rec], l, n) ==> n < next
  {
    hide Seen;
    forall l: nat, n: nat | Seen([rec], l, n) ensures n < next {
      assert Names(v, n);
    }
  }

  lemma BaseFacts(disk: Disk, mode: Mode, next: nat)
    requires mode.Opening? && BaseOk(disk, mode, next)
    ensures Lsm.Inv(mode.base) && LogsOk(disk.l) && Increasing(Flat(disk.l.history))
    ensures MNext(disk.manifest) <= next && forall n: nat :: Names(mode.base.levels, n) ==> n < MNext(disk.manifest)
  {
    hide Lsm.Inv, LogsOk, SeqOk, Increasing, Tabled, Describes, SeenOk, Flat, SameEntries, Names;
  }

  lemma OpenedMem(s: State)
    requires s.mode.Opening? && OpeningOk(s) && s.mode.newLog.Some?
    ensures MemOk(s.disk.l, s.d.mem, None, false, s.mode.newLog.value) && s.mode.newLog.value in s.disk.l.list
  {
    hide Lsm.Inv, Tabled, BuiltOk, Installs, Below;
    var h, replay := s.disk.l.history, s.mode.replay;
    assert h[|h|..|h|] == [] && replay[|replay|..] == [];
    assert s.disk.l.Last() in s.disk.l.list;
  }

  lemma OpenInstallInv(s: State, s': State)
    requires Inv(s) && OpenInstall(s, s')
    ensures Inv(s')
  {
    hide BaseOk, Lsm.Inv, Tabled, SameEntries, Flat, MemOk, Installs, BuiltOk, ManifestOk, SeqOk, LogsOk, Increasing, Names, LogsKept;
    BaseFacts(s.disk, s.mode, s.d.nextFile);
    OpenedMem(s);
    OpenManifest(s, s'.disk.manifest);
    ManifestLog(s'.disk.manifest, s.d.levels, s.mode.newLog.value, s.d.nextFile);
    LogsKeptLast(s.disk.l);
    InvParts(s.d);
    NumbersBound(s.d.levels, s.d.nextFile);
    SeqOkNow(s.disk.l, s.d, None, |s.disk.l.list| - 1);
  }

  // ---------- runs ----------

  lemma EmptyInv(next: nat)
    ensures Lsm.Inv(Empty(next))
  {
    LsmProofs.InitInv(Empty(next));
  }

  lemma InitManifest(next: nat)
    requires 2 <= next
    ensures ManifestOk([Record(Edit({}, []), Some(0), Some(2), Some(0))], Empty(next).levels, 0, next)
  {
    var rec := Record(Edit({}, []), Some(0), Some(2), Some(0));
    var m, v := [rec], Empty(next).levels;
    assert Edits(m) == [rec.edit] && [rec.edit][..0] == [];
    forall l | 0 <= l < NUM_LEVELS ensures FileSet(MetaFiles(v[l])) == Contents(m, l) {
      assert ApplyAll({}, [rec.edit], l) == ApplyTo(ApplyAll({}, [], l), rec.edit, l);
      assert ApplyTo({}, rec.edit, l) == {};
    }
    assert AllFresh(m);
  }

  lemma InitInv(s: State)
    requires Init(s)
    ensures Inv(s)
  {
    EmptyInv(s.d.nextFile);
    InitManifest(s.d.nextFile);
    InvParts(s.d);
    NothingBuilt(s.d.levels);
    hide Lsm.Inv, ManifestOk;
    var m := s.disk.manifest;
    assert MLog(m) == 0 && MLast(m) == 0;
    assert SplitsAt(s.disk.l.list, 0, 0) && s.mode.replay == s.disk.l.history[0..];
  }

  lemma WorkInv(s: State, s': State)
    requires Inv(s) && (WriteStep(s, s') || FlushStep(s, s'))
    ensures Inv(s')
  {
    hide Inv, LogBatch, InsertBatch, SwitchMemTable, StartFlush, FinishTable, FailFlush, WriteFlushEdit, InstallFlush;
    if ops :| LogBatch(s, s', ops) {
      LogBatchInv(s, s', ops);
    } else if InsertBatch(s, s') {
      InsertBatchInv(s, s');
    } else if SwitchMemTable(s, s') {
      SwitchMemTableInv(s, s');
    } else if StartFlush(s, s') {
      StartFlushInv(s, s');
    } else if size, level :| FinishTable(s, s', size, level) {
      FinishTableInv(s, s', size, level);
    } else if FailFlush(s, s') {
      FailFlushInv(s, s');
    } else if ok, r, v :| WriteFlushEdit(s, s', ok, r, v) {
      WriteFlushEditInv(s, s', ok, r, v);
    } else {
      InstallFlushInv(s, s');
    }
  }

  lemma CompInv(s: State, s': State)
    requires Inv(s) && (CompStep(s, s') || FileStep(s, s'))
    ensures Inv(s')
  {
    hide Inv, StartCompaction, OpenOutput, FinishOutput, AbandonCompaction, WriteCompEdit, InstallComp, Release, DeleteTable, DeleteLog;
    if c :| StartCompaction(s, s', c) {
      StartCompactionInv(s, s', c);
    } else if OpenOutput(s, s') {
      OpenOutputInv(s, s');
    } else if f :| FinishOutput(s, s', f) {
      FinishOutputInv(s, s', f);
    } else if e :| AbandonCompaction(s, s', e) {
      AbandonCompactionInv(s, s', e);
    } else if j, ok, r, v :| WriteCompEdit(s, s', j, ok, r, v) {
      WriteCompEditInv(s, s', j, ok, r, v);
    } else if InstallComp(s, s') {
      InstallCompInv(s, s');
    } else if v :| Release(s, s', v) {
      ReleaseInv(s, s', v);
    } else if n :| DeleteTable(s, s', n) {
      DeleteTableInv(s, s', n);
    } else {
      var n :| DeleteLog(s, s', n);
      DeleteLogInv(s, s', n);
    }
  }

  lemma OpenInv(s: State, s': State)
    requires Inv(s) && OpenStep(s, s')
    ensures Inv(s')
  {
    hide Inv, Crash, MarkNumbers, RecoverTable, OpenLog, OpenInstall;
    if nums :| Crash(s, s', nums) {
      CrashInv(s, s', nums);
    } else if MarkNumbers(s, s') {
      MarkNumbersInv(s, s');
    } else if n, f :| RecoverTable(s, s', n, f) {
      RecoverTableInv(s, s', n, f);
    } else if OpenLog(s, s') {
      OpenLogInv(s, s');
    } else {
      OpenInstallInv(s, s');
    }
  }

  lemma NextInv(s: State, s': State)
    requires Inv(s) && Next(s, s')
    ensures Inv(s')
  {
    hide Inv, WriteStep, FlushStep, CompStep, FileStep, OpenStep;
    if WriteStep(s, s') || FlushStep(s, s') {
      WorkInv(s, s');
    } else if CompStep(s, s') || FileStep(s, s') {
      CompInv(s, s');
    } else {
      OpenInv(s, s');
    }
  }

  lemma {:induction false} RunInv(states: seq<State>, n: nat)
    requires Run(states) && n < |states|
    ensures Inv(states[n])
  {
    hide Inv, Init, Next;
    if n == 0 {
      InitInv(states[0]);
    } else {
      RunInv(states, n - 1);
      assert Next(states[n - 1], states[n - 1 + 1]);
      NextInv(states[n - 1], states[n]);
    }
  }

  /**
   In every state of every run, crashes included, whatever opening makes of the disk has the whole history of logged
   batches, meets the invariant of the level structure, and a read of it returns the last logged write.
   */
  lemma EveryRunRecovers(states: seq<State>, n: nat, nums: seq<nat>, d: Lsm.Db, u: UserKey)
    requires Run(states) && n < |states| && Recovered(states[n].disk, nums, d)
    ensures Lsm.Inv(d) && d.history == Flat(states[n].disk.l.history) && Reads.ReadsLastWrite(d, u)
  {
    hide Inv, Recovered, Lsm.Inv, StandsFor, Reads.ReadsLastWrite, Flat;
    RunInv(states, n);
    var dd := DiskStands(states[n]);
    RecoveredIsRecover(states[n].disk, dd, nums, d);
    RecoveredParts(states[n].disk, nums, d);
    Reads.GetIsLastWrite(d, u);
  }

  /** And opening succeeds: the logs are found, and no table that the MANIFEST names is missing. */
  lemma EveryRunOpens(states: seq<State>, n: nat) returns (nums: seq<nat>, d: Lsm.Db)
    requires Run(states) && n < |states|
    ensures Recovered(states[n].disk, nums, d)
  {
    hide Inv, Recovered, Lsm.Inv, StandsFor, LogsFrom;
    RunInv(states, n);
    var dd := DiskStands(states[n]);
    nums := LogsToReplay(states[n].disk, dd);
    d := RecoverySucceeds(states[n].disk, dd, nums);
  }

  lemma LogsToReplay(disk: Disk, dd: Lsm.Db) returns (nums: seq<nat>)
    requires StandsFor(disk, dd)
    ensures LogsFrom(disk.l.files, MLog(disk.manifest), nums)
  {
    StandsParts(disk, dd);
    var k: nat :| StandsAt(disk, dd, k);
    hide StandsFor, LogsOk, LogsKept, SplitsAt, LogsFrom, SeqOk, ManifestOk, Increasing, Flat, InTail;
    nums := disk.l.list[k..];
    SuffixOfLogs(disk.l, MLog(disk.manifest), k);
  }

  /** While running, a read returns the last write of the logged batches, apart from one that is still to be inserted. */
  lemma MemoryIsHistory(states: seq<State>, n: nat, u: UserKey)
    requires Run(states) && n < |states| && states[n].mode.Running?
    ensures Reads.ReadsLastWrite(states[n].d, u)
    ensures var bs := states[n].disk.l.history;
            if states[n].ins.None? then states[n].d.history == Flat(bs) else bs != [] && states[n].d.history == Flat(bs[..|bs| - 1])
  {
    hide Lsm.Inv, MemOk, LiveOk, WorkOk, FilesOk, Reads.ReadsLastWrite, Flat, Increasing;
    RunInv(states, n);
    Reads.GetIsLastWrite(states[n].d, u);
  }
}
