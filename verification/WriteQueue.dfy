/** DBImpl::Write: the queue of writers, of which the first writes for a group of those behind it. */
module WriteQueue {
  import opened Keys
  import opened WriteBatch

  /** A writer in DBImpl::Write; a NULL batch only asks for room. */
  datatype Writer = Writer(batch: Option<seq<Op>>, sync: bool) {
    function Ops(): seq<Op> { if batch.Some? then batch.value else [] }
  }

  // ---------- groups ----------

  function ByteSize(ops: seq<Op>): nat { HEADER + |EncodeOps(ops)| }

  function MaxSize(first: nat): nat { if first <= 0x2_0000 then first + 0x2_0000 else 0x10_0000 }

  /** The updates of the first n writers, in queue order. */
  function GroupOps(ws: seq<Writer>, n: nat): seq<Op>
    requires n <= |ws|
  {
    if n == 0 then [] else GroupOps(ws, n - 1) + ws[n - 1].Ops()
  }

  function GroupBytes(ws: seq<Writer>, n: nat): nat
    requires n <= |ws|
  {
    if n == 0 then 0
    else GroupBytes(ws, n - 1) + if ws[n - 1].batch.Some? then ByteSize(ws[n - 1].batch.value) else 0
  }

  /** No sync write behind a non-sync leader, and not too many bytes in all. */
  predicate MayJoin(ws: seq<Writer>, n: nat)
    requires 0 < |ws| && n < |ws| && ws[0].batch.Some?
  {
    && (ws[n].sync ==> ws[0].sync)
    && (ws[n].batch.Some? ==> GroupBytes(ws, n + 1) <= MaxSize(ByteSize(ws[0].batch.value)))
  }

  /** The group is the longest prefix whose writers may all join. */
  predicate IsGroup(ws: seq<Writer>, n: nat) {
    && 1 <= n <= |ws| && ws[0].batch.Some?
    && (forall i :: 1 <= i < n ==> MayJoin(ws, i))
    && (n < |ws| ==> !MayJoin(ws, n))
  }

  /** BuildBatchGroup: the combined batch and the number of writers up to last_writer. */
  method BuildBatchGroup(ws: seq<Writer>) returns (updates: seq<Op>, n: nat)
    requires 0 < |ws| && ws[0].batch.Some?
    ensures IsGroup(ws, n) && updates == GroupOps(ws, n)
  {
    hide ByteSize;
    updates := ws[0].batch.value;
    var size := ByteSize(updates);
    var maxSize := if size <= 0x2_0000 then size + 0x2_0000 else 0x10_0000;
    n := 1;
    assert GroupOps(ws, 1) == GroupOps(ws, 0) + ws[0].Ops();
    assert GroupBytes(ws, 1) == GroupBytes(ws, 0) + size;
    while n < |ws|
      invariant 1 <= n <= |ws| && size == GroupBytes(ws, n) && updates == GroupOps(ws, n)
      invariant forall i :: 1 <= i < n ==> MayJoin(ws, i)
    {
      var w := ws[n];
      if w.sync && !ws[0].sync { break; }
      if w.batch.Some? {
        size := size + ByteSize(w.batch.value);
        if size > maxSize { break; }
        updates := updates + w.batch.value;
      }
      n := n + 1;
    }
  }

  // ---------- the protocol ----------

  /** What has become of a writer that has left the queue. */
  datatype Fate = Fate(ok: bool, first: Option<nat>, logged: bool, synced: bool)

  /** Where the leader is between releasing and taking the mutex again. */
  datatype Stage = ToLog | ToSync | Inserting(done: nat) | Failing(reached: bool)

  datatype Phase = Idle | Working(n: nat, first: nat, ops: seq<Op>, stage: Stage)

  datatype Record = Record(first: nat, ops: seq<Op>)

  /**
   writers holds every writer that ever entered, in order of arrival; those before |fates| have left,
   the others are the queue. log, mem and last are the log, the memtable and LastSequence.
   */
  datatype State = State(
    writers: seq<Writer>, fates: seq<Fate>, phase: Phase,
    last: nat, log: seq<Record>, synced: nat, mem: seq<(nat, Op)>, bgError: bool) {

    function Queue(): seq<Writer>
      requires |fates| <= |writers|
    {
      writers[|fates|..]
    }
  }

  ghost predicate Init(s: State, base: nat) {
    s == State([], [], Idle, base, [], 0, [], false)
  }

  /** A writer joins the queue, at any time. */
  ghost predicate Enqueue(s: State, s': State, w: Writer) { s' == s.(writers := s.writers + [w]) }

  /** The first writer gets no room, or only asked for room: it leaves alone. */
  ghost predicate LeaveAlone(s: State, s': State, ok: bool) {
    && s.phase.Idle? && |s.fates| < |s.writers|
    && (ok ==> !s.bgError && s.Queue()[0].batch.None?)
    && s' == s.(fates := s.fates + [Fate(ok, None, false, false)])
  }

  /** The first writer has room: it numbers the updates of its group and releases the mutex. */
  ghost predicate Lead(s: State, s': State) {
    && s.phase.Idle? && !s.bgError && |s.fates| < |s.writers| && s.Queue()[0].batch.Some?
    && exists n :: IsGroup(s.Queue(), n)
                   && s' == s.(phase := Working(n, s.last + 1, GroupOps(s.Queue(), n), ToLog))
  }

  /** AddRecord succeeds, or fails after the record may or may not have reached the log. */
  ghost predicate AddRecord(s: State, s': State, ok: bool, reached: bool) {
    && s.phase.Working? && s.phase.stage.ToLog? && |s.fates| < |s.writers| && (ok ==> reached)
    && s' == s.(log := if reached then s.log + [Record(s.phase.first, s.phase.ops)] else s.log,
                phase := s.phase.(stage := if !ok then Failing(reached) else if s.Queue()[0].sync then ToSync else Inserting(0)))
  }

  /** A failed Sync makes all future writes fail. */
  ghost predicate Sync(s: State, s': State, ok: bool) {
    && s.phase.Working? && s.phase.stage.ToSync?
    && s' == if ok then s.(synced := |s.log|, phase := s.phase.(stage := Inserting(0)))
             else s.(bgError := true, phase := s.phase.(stage := Failing(true)))
  }

  /** One update enters the memtable. */
  ghost predicate Insert(s: State, s': State) {
    && s.phase.Working? && s.phase.stage.Inserting? && s.phase.stage.done < |s.phase.ops|
    && var k := s.phase.stage.done;
       s' == s.(mem := s.mem + [(s.phase.first + k, s.phase.ops[k])], phase := s.phase.(stage := Inserting(k + 1)))
  }

  /** Where the updates of the i-th writer of a group start. */
  function FateInGroup(q: seq<Writer>, first: nat, i: nat, ok: bool, logged: bool, synced: bool): Fate
    requires i < |q|
  {
    Fate(ok, if q[i].batch.Some? then Some(first + |GroupOps(q, i)|) else None, logged, synced)
  }

  function GroupFates(q: seq<Writer>, n: nat, first: nat, ok: bool, logged: bool, synced: bool): (fs: seq<Fate>)
    requires n <= |q|
    ensures |fs| == n
  {
    if n == 0 then []
    else GroupFates(q, n - 1, first, ok, logged, synced) + [FateInGroup(q, first, n - 1, ok, logged, synced)]
  }

  /** With the mutex again: LastSequence advances, also after a failure, and the whole group leaves. */
  ghost predicate Finish(s: State, s': State) {
    && s.phase.Working? && s.phase.n <= |s.writers| - |s.fates| && 0 < s.phase.n
    && (s.phase.stage.Failing? || s.phase.stage == Inserting(|s.phase.ops|))
    && var ok := s.phase.stage.Inserting?;
       var logged := ok || s.phase.stage.reached;
       s' == s.(phase := Idle, last := s.last + |s.phase.ops|,
                fates := s.fates + GroupFates(s.Queue(), s.phase.n, s.phase.first, ok, logged, ok && s.Queue()[0].sync))
  }

  /** A background error is recorded. */
  ghost predicate BackgroundError(s: State, s': State) { s' == s.(bgError := true) }

  ghost predicate Next(s: State, s': State) {
    || (exists w :: Enqueue(s, s', w))
    || (exists ok :: LeaveAlone(s, s', ok))
    || Lead(s, s')
    || (exists ok, reached :: AddRecord(s, s', ok, reached))
    || (exists ok :: Sync(s, s', ok))
    || Insert(s, s') || Finish(s, s') || BackgroundError(s, s')
  }

  ghost predicate Run(states: seq<State>, base: nat) {
    && 0 < |states| && Init(states[0], base)
    && forall i :: 0 <= i < |states| - 1 ==> Next(states[i], states[i + 1])
  }

  // ---------- invariant ----------

  /** The number after those given to the first n writers. */
  function NextNumber(base: nat, ws: seq<Writer>, fs: seq<Fate>, n: nat): nat
    requires n <= |fs| <= |ws|
  {
    if n == 0 then base + 1
    else NextNumber(base, ws, fs, n - 1) + if fs[n - 1].first.Some? then |ws[n - 1].Ops()| else 0
  }

  datatype Place = InMem | InLog

  /** Whether the updates of a writer that has left are in the memtable, or in the log. */
  predicate Reaches(f: Fate, place: Place) { if place.InMem? then f.ok else f.logged }

  /** The numbered updates of those of the first n writers that reached a place. */
  function Effects(ws: seq<Writer>, fs: seq<Fate>, n: nat, place: Place): seq<(nat, Op)>
    requires n <= |fs| <= |ws|
  {
    if n == 0 then []
    else Effects(ws, fs, n - 1, place)
         + if fs[n - 1].first.Some? && Reaches(fs[n - 1], place) then Numbered(fs[n - 1].first.value, ws[n - 1].Ops()) else []
  }

  function Flatten(log: seq<Record>): seq<(nat, Op)> {
    if log == [] then []
    else Flatten(log[..|log| - 1]) + Numbered(log[|log| - 1].first, log[|log| - 1].ops)
  }

  /** Each writer that left with a batch and a success was numbered and logged, and synced if it asked for it. */
  ghost predicate FateOk(w: Writer, f: Fate) {
    && (f.first.Some? ==> w.batch.Some?)
    && (f.ok && w.batch.Some? ==> f.first.Some? && f.logged)
    && (f.ok && w.batch.Some? && w.sync ==> f.synced)
  }

  ghost predicate NumbersOk(base: nat, ws: seq<Writer>, fs: seq<Fate>, last: nat) {
    && |fs| <= |ws| && last + 1 == NextNumber(base, ws, fs, |fs|)
    && (forall i :: 0 <= i < |fs| ==> FateOk(ws[i], fs[i]))
    && (forall i :: 0 <= i < |fs| && fs[i].first.Some? ==> fs[i].first.value == NextNumber(base, ws, fs, i))
  }

  ghost predicate PhaseOk(s: State)
    requires |s.fates| <= |s.writers|
  {
    s.phase.Working? ==>
      && 1 <= s.phase.n <= |s.Queue()| && s.Queue()[0].batch.Some?
      && (forall i :: 0 <= i < s.phase.n ==> s.Queue()[i].sync ==> s.Queue()[0].sync)
      && s.phase.first == s.last + 1 && s.phase.ops == GroupOps(s.Queue(), s.phase.n)
      && (s.phase.stage.Inserting? ==> s.phase.stage.done <= |s.phase.ops|)
  }

  /** What the group being written has put into the memtable and the log so far. */
  function PendingMem(p: Phase): seq<(nat, Op)> {
    if p.Working? && p.stage.Inserting? && p.stage.done <= |p.ops| then Numbered(p.first, p.ops[..p.stage.done]) else []
  }

  function PendingLog(p: Phase): seq<(nat, Op)> {
    if p.Working? && (p.stage.ToSync? || p.stage.Inserting? || (p.stage.Failing? && p.stage.reached)) then Numbered(p.first, p.ops) else []
  }

  ghost predicate Inv(s: State, base: nat) {
    && NumbersOk(base, s.writers, s.fates, s.last) && PhaseOk(s)
    && s.mem == Effects(s.writers, s.fates, |s.fates|, InMem) + PendingMem(s.phase)
    && Flatten(s.log) == Effects(s.writers, s.fates, |s.fates|, InLog) + PendingLog(s.phase)
  }

  // ---------- steps keep it ----------

  lemma {:induction false} MoreWriters(base: nat, ws: seq<Writer>, w: Writer, fs: seq<Fate>, n: nat, place: Place)
    requires n <= |fs| <= |ws|
    ensures NextNumber(base, ws + [w], fs, n) == NextNumber(base, ws, fs, n)
    ensures Effects(ws + [w], fs, n, place) == Effects(ws, fs, n, place)
  {
    if n > 0 { MoreWriters(base, ws, w, fs, n - 1, place); }
  }

  lemma {:induction false} MoreFates(base: nat, ws: seq<Writer>, fs: seq<Fate>, gs: seq<Fate>, n: nat, place: Place)
    requires n <= |fs| && |fs + gs| <= |ws|
    ensures NextNumber(base, ws, fs + gs, n) == NextNumber(base, ws, fs, n)
    ensures Effects(ws, fs + gs, n, place) == Effects(ws, fs, n, place)
  {
    if n > 0 { MoreFates(base, ws, fs, gs, n - 1, place); }
  }

  lemma {:induction false} MoreInQueue(q: seq<Writer>, w: Writer, n: nat)
    requires n <= |q|
    ensures GroupOps(q + [w], n) == GroupOps(q, n)
  {
    if n > 0 { MoreInQueue(q, w, n - 1); }
  }

  lemma EnqueueInv(s: State, s': State, w: Writer, base: nat)
    requires Inv(s, base) && Enqueue(s, s', w)
    ensures Inv(s', base)
  {
    forall i | 0 <= i <= |s.fates| ensures NextNumber(base, s'.writers, s.fates, i) == NextNumber(base, s.writers, s.fates, i) {
      MoreWriters(base, s.writers, w, s.fates, i, InMem);
    }
    MoreWriters(base, s.writers, w, s.fates, |s.fates|, InMem);
    MoreWriters(base, s.writers, w, s.fates, |s.fates|, InLog);
    assert s'.Queue() == s.Queue() + [w];
    if s.phase.Working? { MoreInQueue(s.Queue(), w, s.phase.n); }
  }

  /** One more writer leaves, without a number or with the next one. */
  lemma OneLeaves(base: nat, ws: seq<Writer>, fs: seq<Fate>, f: Fate, last: nat)
    requires NumbersOk(base, ws, fs, last) && |fs| < |ws| && FateOk(ws[|fs|], f)
    requires f.first.Some? ==> f.first.value == last + 1
    ensures NumbersOk(base, ws, fs + [f], last + if f.first.Some? then |ws[|fs|].Ops()| else 0)
  {
    hide FateOk;
    var fs' := fs + [f];
    forall i | 0 <= i <= |fs| ensures NextNumber(base, ws, fs', i) == NextNumber(base, ws, fs, i) {
      MoreFates(base, ws, fs, [f], i, InMem);
    }
  }

  lemma OneLeavesEffects(ws: seq<Writer>, fs: seq<Fate>, f: Fate, place: Place)
    requires |fs| < |ws|
    ensures Effects(ws, fs + [f], |fs| + 1, place)
            == Effects(ws, fs, |fs|, place) + if f.first.Some? && Reaches(f, place) then Numbered(f.first.value, ws[|fs|].Ops()) else []
  {
    MoreFates(0, ws, fs, [f], |fs|, place);
  }

  lemma LeaveAloneInv(s: State, s': State, ok: bool, base: nat)
    requires Inv(s, base) && LeaveAlone(s, s', ok)
    ensures Inv(s', base)
  {
    hide Effects, NumbersOk, Numbered, GroupOps, Flatten;
    NumbersSize(base, s.writers, s.fates, s.last);
    var f := Fate(ok, None, false, false);
    OneLeaves(base, s.writers, s.fates, f, s.last);
    OneLeavesEffects(s.writers, s.fates, f, InMem);
    OneLeavesEffects(s.writers, s.fates, f, InLog);
  }

  /** The writers of a group leave one after the other, numbered through. */
  lemma {:induction false} GroupLeaves(base: nat, ws: seq<Writer>, fs: seq<Fate>, q: seq<Writer>, k: nat, last: nat, ok: bool, logged: bool, synced: bool)
    requires NumbersOk(base, ws, fs, last) && q == ws[|fs|..] && k <= |q| && (ok ==> logged)
    requires forall i :: 0 <= i < k ==> ok && q[i].sync ==> synced
    ensures NumbersOk(base, ws, fs + GroupFates(q, k, last + 1, ok, logged, synced), last + |GroupOps(q, k)|)
  {
    hide NumbersOk, GroupFates;
    NumbersSize(base, ws, fs, last);
    if k == 0 {
      NoneInGroup(fs, q, last + 1, ok, logged, synced);
    } else {
      GroupLeaves(base, ws, fs, q, k - 1, last, ok, logged, synced);
      var gs, f := GroupFates(q, k - 1, last + 1, ok, logged, synced), FateInGroup(q, last + 1, k - 1, ok, logged, synced);
      assert ws[|fs + gs|] == q[k - 1];
      OneLeaves(base, ws, fs + gs, f, last + |GroupOps(q, k - 1)|);
      OneMoreInGroup(fs, q, k, last + 1, ok, logged, synced);
    }
  }

  lemma GroupNumbered(q: seq<Writer>, k: nat, first: nat)
    requires k < |q|
    ensures Numbered(first, GroupOps(q, k + 1))
            == Numbered(first, GroupOps(q, k)) + if q[k].batch.Some? then Numbered(first + |GroupOps(q, k)|, q[k].Ops()) else []
  {
    NumberedAppend(first, GroupOps(q, k), q[k].Ops());
    assert q[k].batch.None? ==> Numbered(first + |GroupOps(q, k)|, q[k].Ops()) == [];
  }

  lemma Assoc<T>(a: seq<T>, x: seq<T>, y: seq<T>)
    ensures (a + x) + y == a + (x + y)
  {
  }

  /** The effects of a group are its combined updates, numbered through. */
  lemma {:induction false} GroupEffects(ws: seq<Writer>, fs: seq<Fate>, q: seq<Writer>, k: nat, first: nat, ok: bool, logged: bool, synced: bool, place: Place)
    requires |fs| <= |ws| && q == ws[|fs|..] && k <= |q|
    ensures Effects(ws, fs + GroupFates(q, k, first, ok, logged, synced), |fs| + k, place)
            == Effects(ws, fs, |fs|, place) + if Reaches(Fate(ok, None, logged, synced), place) then Numbered(first, GroupOps(q, k)) else []
  {
    hide Effects, GroupFates, Numbered, GroupOps;
    if k == 0 {
      NoneInGroup(fs, q, first, ok, logged, synced);
    } else {
      GroupEffects(ws, fs, q, k - 1, first, ok, logged, synced, place);
      var gs, f := GroupFates(q, k - 1, first, ok, logged, synced), FateInGroup(q, first, k - 1, ok, logged, synced);
      OneMoreInGroup(fs, q, k, first, ok, logged, synced);
      assert ws[|fs + gs|] == q[k - 1];
      OneLeavesEffects(ws, fs + gs, f, place);
      GroupNumbered(q, k - 1, first);
      Assoc(Effects(ws, fs, |fs|, place), Numbered(first, GroupOps(q, k - 1)),
            if q[k - 1].batch.Some? then Numbered(first + |GroupOps(q, k - 1)|, q[k - 1].Ops()) else []);
    }
  }

  lemma NoneInGroup(fs: seq<Fate>, q: seq<Writer>, first: nat, ok: bool, logged: bool, synced: bool)
    ensures fs + GroupFates(q, 0, first, ok, logged, synced) == fs && Numbered(first, GroupOps(q, 0)) == []
  {
  }

  lemma OneMoreInGroup(fs: seq<Fate>, q: seq<Writer>, k: nat, first: nat, ok: bool, logged: bool, synced: bool)
    requires 0 < k <= |q|
    ensures fs + GroupFates(q, k, first, ok, logged, synced)
            == (fs + GroupFates(q, k - 1, first, ok, logged, synced)) + [FateInGroup(q, first, k - 1, ok, logged, synced)]
  {
  }

  lemma LeadInv(s: State, s': State, base: nat)
    requires Inv(s, base) && Lead(s, s')
    ensures Inv(s', base)
  {
    var n, q := s'.phase.n, s.Queue();
    assert IsGroup(q, n);
    forall i | 0 <= i < n && q[i].sync ensures q[0].sync {
      assert i == 0 || MayJoin(q, i);
    }
  }

  lemma AddRecordInv(s: State, s': State, ok: bool, reached: bool, base: nat)
    requires Inv(s, base) && AddRecord(s, s', ok, reached)
    ensures Inv(s', base)
  {
    hide NumbersOk, Effects, GroupOps, NextNumber;
    NumbersSize(base, s.writers, s.fates, s.last);
    assert reached ==> s'.log[..|s'.log| - 1] == s.log;
    assert s.phase.ops[..0] == [];
  }

  lemma SyncInv(s: State, s': State, ok: bool, base: nat)
    requires Inv(s, base) && Sync(s, s', ok)
    ensures Inv(s', base)
  {
    hide NumbersOk, Effects, GroupOps, NextNumber;
    NumbersSize(base, s.writers, s.fates, s.last);
  }

  lemma InsertInv(s: State, s': State, base: nat)
    requires Inv(s, base) && Insert(s, s')
    ensures Inv(s', base)
  {
    hide NumbersOk, Effects, GroupOps, NextNumber;
    NumbersSize(base, s.writers, s.fates, s.last);
    var p, k := s.phase, s.phase.stage.done;
    assert p.ops[..k + 1] == p.ops[..k] + [p.ops[k]];
    assert PendingMem(s'.phase) == PendingMem(p) + [(p.first + k, p.ops[k])];
  }

  lemma FinishInv(s: State, s': State, base: nat)
    requires Inv(s, base) && Finish(s, s')
    ensures Inv(s', base)
  {
    hide Effects, NumbersOk, Numbered, GroupOps, Flatten, GroupFates;
    var p, q, ws, fs := s.phase, s.Queue(), s.writers, s.fates;
    var ok := p.stage.Inserting?;
    var logged := ok || p.stage.reached;
    var synced := ok && q[0].sync;
    assert |fs| <= |ws| by { NumbersSize(base, ws, fs, s.last); }
    GroupLeaves(base, ws, fs, q, p.n, s.last, ok, logged, synced);
    GroupEffects(ws, fs, q, p.n, p.first, ok, logged, synced, InMem);
    GroupEffects(ws, fs, q, p.n, p.first, ok, logged, synced, InLog);
    assert p.ops[..|p.ops|] == p.ops;
    assert s'.fates == fs + GroupFates(q, p.n, p.first, ok, logged, synced);
    assert |s'.fates| == |fs| + p.n;
  }

  lemma NumbersSize(base: nat, ws: seq<Writer>, fs: seq<Fate>, last: nat)
    requires NumbersOk(base, ws, fs, last)
    ensures |fs| <= |ws|
  {
  }

  lemma NextInv(s: State, s': State, base: nat)
    requires Inv(s, base) && Next(s, s')
    ensures Inv(s', base)
  {
    hide Inv;
    if w :| Enqueue(s, s', w) {
      EnqueueInv(s, s', w, base);
    } else if ok :| LeaveAlone(s, s', ok) {
      LeaveAloneInv(s, s', ok, base);
    } else if Lead(s, s') {
      LeadInv(s, s', base);
    } else if ok, reached :| AddRecord(s, s', ok, reached) {
      AddRecordInv(s, s', ok, reached, base);
    } else if ok :| Sync(s, s', ok) {
      SyncInv(s, s', ok, base);
    } else if Insert(s, s') {
      InsertInv(s, s', base);
    } else if Finish(s, s') {
      FinishInv(s, s', base);
    } else {
      ErrorInv(s, s', base);
    }
  }

  lemma ErrorInv(s: State, s': State, base: nat)
    requires Inv(s, base) && BackgroundError(s, s')
    ensures Inv(s', base)
  {
    hide NumbersOk, Effects, GroupOps, NextNumber;
    NumbersSize(base, s.writers, s.fates, s.last);
  }

  lemma {:induction false} RunInv(states: seq<State>, base: nat, n: nat)
    requires Run(states, base) && n < |states|
    ensures Inv(states[n], base)
  {
    if n > 0 {
      RunInv(states, base, n - 1);
      NextInv(states[n - 1], states[n], base);
    }
  }

  // ---------- what every run guarantees ----------

  lemma {:induction false} NumbersGrow(base: nat, ws: seq<Writer>, fs: seq<Fate>, m: nat, n: nat)
    requires m <= n <= |fs| <= |ws|
    ensures NextNumber(base, ws, fs, m) <= NextNumber(base, ws, fs, n)
  {
    if m < n { NumbersGrow(base, ws, fs, m, n - 1); }
  }

  /** Batches get disjoint intervals of sequence numbers, in queue order and without gaps. */
  lemma IntervalsInQueueOrder(s: State, base: nat, i: nat, j: nat)
    requires Inv(s, base) && i < j < |s.fates| && s.fates[i].first.Some? && s.fates[j].first.Some?
    ensures s.fates[i].first.value + |s.writers[i].Ops()| <= s.fates[j].first.value
    ensures (forall k :: i < k < j ==> s.fates[k].first.None?) ==>
              s.fates[i].first.value + |s.writers[i].Ops()| == s.fates[j].first.value
  {
    NumbersGrow(base, s.writers, s.fates, i + 1, j);
    if forall k :: i < k < j ==> s.fates[k].first.None? {
      NumbersStay(base, s.writers, s.fates, i + 1, j);
    }
  }

  lemma {:induction false} NumbersStay(base: nat, ws: seq<Writer>, fs: seq<Fate>, m: nat, n: nat)
    requires m <= n <= |fs| <= |ws| && forall k :: m <= k < n ==> fs[k].first.None?
    ensures NextNumber(base, ws, fs, m) == NextNumber(base, ws, fs, n)
  {
    if m < n { NumbersStay(base, ws, fs, m, n - 1); }
  }

  /** Strictly increasing numbers within [lo, hi): each number occurs at most once. */
  ghost predicate Increasing(es: seq<(nat, Op)>, lo: nat, hi: nat) {
    && (forall i :: 0 <= i < |es| ==> lo <= es[i].0 < hi)
    && (forall i, j :: 0 <= i < j < |es| ==> es[i].0 < es[j].0)
  }

  lemma {:induction false} EffectsIncreasing(base: nat, ws: seq<Writer>, fs: seq<Fate>, last: nat, n: nat, place: Place)
    requires NumbersOk(base, ws, fs, last) && n <= |fs|
    ensures Increasing(Effects(ws, fs, n, place), base + 1, NextNumber(base, ws, fs, n))
  {
    hide NumbersOk, Increasing, Numbered;
    NumbersSize(base, ws, fs, last);
    if n == 0 {
      IncreasingNone(base + 1);
    } else {
      EffectsIncreasing(base, ws, fs, last, n - 1, place);
      NumbersGrow(base, ws, fs, 0, n - 1);
      NumberOf(base, ws, fs, last, n - 1);
      var es := Effects(ws, fs, n - 1, place);
      IncreasingThen(es, base + 1, NextNumber(base, ws, fs, n - 1), ws[n - 1].Ops());
      assert es + [] == es;
    }
  }

  lemma NumberOf(base: nat, ws: seq<Writer>, fs: seq<Fate>, last: nat, i: nat)
    requires NumbersOk(base, ws, fs, last) && i < |fs|
    ensures FateOk(ws[i], fs[i]) && (fs[i].first.Some? ==> fs[i].first.value == NextNumber(base, ws, fs, i))
  {
    hide NextNumber;
  }

  lemma IncreasingNone(lo: nat)
    ensures Increasing([], lo, lo)
  {
  }

  lemma IncreasingThen(es: seq<(nat, Op)>, lo: nat, hi: nat, ops: seq<Op>)
    requires Increasing(es, lo, hi) && lo <= hi
    ensures Increasing(es, lo, hi + |ops|) && Increasing(es + Numbered(hi, ops), lo, hi + |ops|)
  {
  }

  lemma {:induction false} EffectsContain(ws: seq<Writer>, fs: seq<Fate>, n: nat, place: Place, i: nat, k: nat)
    requires i < n <= |fs| <= |ws| && fs[i].first.Some? && Reaches(fs[i], place) && k < |ws[i].Ops()|
    ensures (fs[i].first.value + k, ws[i].Ops()[k]) in Effects(ws, fs, n, place)
  {
    if i == n - 1 {
      assert Numbered(fs[i].first.value, ws[i].Ops())[k] == (fs[i].first.value + k, ws[i].Ops()[k]);
    } else {
      EffectsContain(ws, fs, n - 1, place, i, k);
    }
  }

  ghost predicate ExactlyOnce(es: seq<(nat, Op)>, number: nat, op: Op) {
    (number, op) in es && forall i, j :: 0 <= i < |es| && 0 <= j < |es| && es[i].0 == number && es[j].0 == number ==> i == j
  }

  /** A batch reported OK is in the memtable and in the log, each of its updates exactly once; and synced if asked for. */
  lemma OkMeansExactlyOnce(s: State, base: nat, i: nat, k: nat)
    requires Inv(s, base) && i < |s.fates| && s.fates[i].ok && s.writers[i].batch.Some? && k < |s.writers[i].Ops()|
    ensures s.fates[i].first.Some? && (s.writers[i].sync ==> s.fates[i].synced)
    ensures ExactlyOnce(s.mem, s.fates[i].first.value + k, s.writers[i].Ops()[k])
    ensures ExactlyOnce(Flatten(s.log), s.fates[i].first.value + k, s.writers[i].Ops()[k])
  {
    assert FateOk(s.writers[i], s.fates[i]);
    var n := |s.fates|;
    EffectsContain(s.writers, s.fates, n, InMem, i, k);
    EffectsContain(s.writers, s.fates, n, InLog, i, k);
    EffectsIncreasing(base, s.writers, s.fates, s.last, n, InMem);
    EffectsIncreasing(base, s.writers, s.fates, s.last, n, InLog);
    hide Effects;
    WithPending(Effects(s.writers, s.fates, n, InMem), PendingMem(s.phase), base + 1, s.last + 1);
    WithPending(Effects(s.writers, s.fates, n, InLog), PendingLog(s.phase), base + 1, s.last + 1);
  }

  /** Updates numbered from hi on keep the numbers increasing. */
  lemma WithPending(es: seq<(nat, Op)>, more: seq<(nat, Op)>, lo: nat, hi: nat)
    requires Increasing(es, lo, hi) && forall i :: 0 <= i < |more| ==> more[i].0 == hi + i
    ensures forall i, j :: 0 <= i < j < |es + more| ==> (es + more)[i].0 < (es + more)[j].0
  {
  }

  /** What a reader at snapshot s sees of the memtable. */
  function Seen(mem: seq<(nat, Op)>, s: nat): seq<(nat, Op)> {
    if mem == [] then []
    else Seen(mem[..|mem| - 1], s) + if mem[|mem| - 1].0 <= s then [mem[|mem| - 1]] else []
  }

  lemma {:induction false} SeenAll(a: seq<(nat, Op)>, s: nat)
    requires forall i :: 0 <= i < |a| ==> a[i].0 <= s
    ensures Seen(a, s) == a
  {
    if a != [] {
      SeenAll(a[..|a| - 1], s);
      assert a == a[..|a| - 1] + [a[|a| - 1]];
    }
  }

  lemma {:induction false} SeenSplit(a: seq<(nat, Op)>, b: seq<(nat, Op)>, s: nat)
    requires forall i :: 0 <= i < |a| ==> a[i].0 <= s
    requires forall i :: 0 <= i < |b| ==> b[i].0 > s
    ensures Seen(a + b, s) == a
  {
    if b == [] {
      SeenAll(a, s);
      assert a + b == a;
    } else {
      var m, c := a + b, b[..|b| - 1];
      SeenSplit(a, c, s);
      assert m[|m| - 1] == b[|b| - 1] && m[..|m| - 1] == a + c;
      assert Seen(m, s) == Seen(a + c, s) + [];
    }
  }

  /** Later effects only add updates with larger numbers. */
  lemma {:induction false} EffectsSplit(base: nat, ws: seq<Writer>, fs: seq<Fate>, last: nat, m: nat, n: nat)
      returns (more: seq<(nat, Op)>)
    requires NumbersOk(base, ws, fs, last) && m <= n <= |fs|
    ensures Effects(ws, fs, n, InMem) == Effects(ws, fs, m, InMem) + more
    ensures forall i :: 0 <= i < |more| ==> more[i].0 >= NextNumber(base, ws, fs, m)
    decreases n
  {
    hide NumbersOk;
    NumbersSize(base, ws, fs, last);
    if m == n {
      more := [];
    } else {
      NumberOf(base, ws, fs, last, n - 1);
      var rest := EffectsSplit(base, ws, fs, last, m, n - 1);
      NumbersGrow(base, ws, fs, m, n - 1);
      var added := if fs[n - 1].first.Some? && Reaches(fs[n - 1], InMem) then Numbered(fs[n - 1].first.value, ws[n - 1].Ops()) else [];
      more := rest + added;
      Assoc(Effects(ws, fs, m, InMem), rest, added);
    }
  }

  ghost predicate Extends(s: State, s': State) { s.writers <= s'.writers && s.fates <= s'.fates }

  lemma NextExtends(s: State, s': State)
    requires Next(s, s')
    ensures Extends(s, s')
  {
  }

  lemma {:induction false} RunExtends(states: seq<State>, base: nat, m: nat, n: nat)
    requires Run(states, base) && m <= n < |states|
    ensures Extends(states[m], states[n])
  {
    if m < n {
      RunExtends(states, base, m, n - 1);
      NextExtends(states[n - 1], states[n]);
    }
  }

  lemma {:induction false} PrefixFunctions(base: nat, s: State, s': State, n: nat)
    requires Extends(s, s') && n <= |s.fates| <= |s.writers| && |s'.fates| <= |s'.writers|
    ensures NextNumber(base, s'.writers, s'.fates, n) == NextNumber(base, s.writers, s.fates, n)
    ensures Effects(s'.writers, s'.fates, n, InMem) == Effects(s.writers, s.fates, n, InMem)
  {
    if n > 0 { PrefixFunctions(base, s, s', n - 1); }
  }

  /**
   A reader at any LastSequence that was ever published sees, then and at any later time, exactly the
   batches reported OK before it was published, each of them whole; nothing of any other batch.
   */
  lemma ReadersSeeWholeBatches(states: seq<State>, base: nat, m: nat, n: nat)
    requires Run(states, base) && m <= n < |states|
    ensures |states[m].fates| <= |states[m].writers|
    ensures Seen(states[n].mem, states[m].last) == Effects(states[m].writers, states[m].fates, |states[m].fates|, InMem)
  {
    RunInv(states, base, m);
    RunInv(states, base, n);
    RunExtends(states, base, m, n);
    var s, s' := states[m], states[n];
    var k := |s.fates|;
    PrefixFunctions(base, s, s', k);
    EffectsIncreasing(base, s.writers, s.fates, s.last, k, InMem);
    var more := EffectsSplit(base, s'.writers, s'.fates, s'.last, k, |s'.fates|);
    NumbersGrow(base, s'.writers, s'.fates, k, |s'.fates|);
    hide Effects, NextNumber, Extends;
    var seen := Effects(s.writers, s.fates, k, InMem);
    Assoc(seen, more, PendingMem(s'.phase));
    SeenSplit(seen, more + PendingMem(s'.phase), s.last);
  }

  /** No published LastSequence lies inside the interval of a batch, not even of one that failed. */
  lemma PublishedNeverSplits(states: seq<State>, base: nat, m: nat, n: nat, i: nat)
    requires Run(states, base) && m <= n < |states| && i < |states[n].fates| && states[n].fates[i].first.Some?
    ensures |states[n].fates| <= |states[n].writers|
    ensures var first, s := states[n].fates[i].first.value, states[m].last;
            first + |states[n].writers[i].Ops()| <= s + 1 || s < first
  {
    RunInv(states, base, m);
    RunInv(states, base, n);
    RunExtends(states, base, m, n);
    var s, s' := states[m], states[n];
    PrefixFunctions(base, s, s', |s.fates|);
    if i < |s.fates| {
      NumbersGrow(base, s'.writers, s'.fates, i + 1, |s.fates|);
    } else {
      NumbersGrow(base, s'.writers, s'.fates, |s.fates|, i);
    }
  }
}
