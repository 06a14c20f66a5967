/** DoCompactionWork: which merged entries survive a compaction, and why nothing visible is lost. */
module DropRule {
  import opened Keys
  import opened Tables
  import opened Overlaps
  import opened Picking

  /** Stateless form of IsBaseLevelForKey: no file two or more levels down covers u. */
  ghost predicate IsBaseLevel(v: Levels, level: nat, u: UserKey) {
    forall k, f :: level + 2 <= k < |v| && f in v[k] ==> u < f.Lo() || f.Hi() < u
  }

  /** Rule (A): the previous entry of the same user key is already visible to every snapshot. */
  predicate Hidden(m: seq<Entry>, i: nat, snap: nat)
    requires i < |m|
  {
    0 < i && m[i - 1].ukey == m[i].ukey && m[i - 1].sn <= snap
  }

  ghost predicate ObsoleteDeletion(m: seq<Entry>, i: nat, snap: nat, v: Levels, level: nat)
    requires i < |m|
  {
    m[i].kind.Deletion? && m[i].sn <= snap && IsBaseLevel(v, level, m[i].ukey)
  }

  ghost predicate Dropped(m: seq<Entry>, i: nat, snap: nat, v: Levels, level: nat)
    requires i < |m|
  {
    Hidden(m, i, snap) || ObsoleteDeletion(m, i, snap, v, level)
  }

  /** The survivors among the first n merged entries, in order. */
  ghost function Kept(m: seq<Entry>, n: nat, snap: nat, v: Levels, level: nat): seq<Entry>
    requires n <= |m|
  {
    if n == 0 then []
    else
      var rest := Kept(m, n - 1, snap, v, level);
      if Dropped(m, n - 1, snap, v, level) then rest else rest + [m[n - 1]]
  }

  lemma KeptMembers(m: seq<Entry>, n: nat, snap: nat, v: Levels, level: nat, e: Entry)
    requires n <= |m|
    ensures e in Kept(m, n, snap, v, level) <==> exists i :: 0 <= i < n && m[i] == e && !Dropped(m, i, snap, v, level)
  {
    if n != 0 {
      KeptMembers(m, n - 1, snap, v, level, e);
    }
  }

  lemma {:induction false} KeptSorted(m: seq<Entry>, n: nat, snap: nat, v: Levels, level: nat)
    requires n <= |m| && Sorted(m)
    ensures Sorted(Kept(m, n, snap, v, level))
  {
    if n != 0 {
      KeptSorted(m, n - 1, snap, v, level);
      var rest := Kept(m, n - 1, snap, v, level);
      forall i | 0 <= i < |rest| && !Dropped(m, n - 1, snap, v, level)
        ensures Before(rest[i].Key(), m[n - 1].Key())
      {
        assert rest[i] in rest;
        KeptMembers(m, n - 1, snap, v, level, rest[i]);
      }
    }
  }

  /** r is the newest entry of u in es that snapshot s can see. */
  ghost predicate NewestOf(es: set<Entry>, u: UserKey, s: nat, r: Option<Entry>) {
    match r
    case Some(e) => e in es && e.ukey == u && e.sn <= s
                    && (forall x :: x in es && x.ukey == u && x.sn <= s ==> x.sn <= e.sn)
    case None => forall x :: x in es && x.ukey == u ==> s < x.sn
  }

  /** What a reader gets from the entry found. */
  function Seen(r: Option<Entry>): Option<Bytes> {
    if r.Some? && r.value.kind.Value? then Some(r.value.value) else None
  }

  ghost function Entries(m: seq<Entry>): set<Entry> { set e | e in m }

  lemma SortedRun(m: seq<Entry>, i: nat, j: nat)
    requires Sorted(m) && i < j < |m| && m[i].ukey == m[j].ukey
    ensures m[j - 1].ukey == m[i].ukey && m[j - 1].sn <= m[i].sn && m[j].sn <= m[i].sn
  {
    assert Before(m[i].Key(), m[j].Key());
    if i < j - 1 {
      assert Before(m[i].Key(), m[j - 1].Key()) && Before(m[j - 1].Key(), m[j].Key());
    }
  }

  /** A sequence number names one entry. */
  ghost predicate Numbered(es: set<Entry>) {
    forall x, y :: x in es && y in es && x.sn == y.sn ==> x == y
  }

  /** A survivor of u that s can see is never older than a dropped newest entry of u. */
  lemma NothingUnderObsolete(m: seq<Entry>, i: nat, j: nat, snap: nat, v: Levels, level: nat)
    requires Sorted(m) && i < |m| && j < |m| && m[i].ukey == m[j].ukey && m[j].sn <= m[i].sn <= snap
    requires Numbered(Entries(m)) && !Dropped(m, j, snap, v, level)
    ensures i == j
  {
    assert m[i] in Entries(m) && m[j] in Entries(m);
    if i < j {
      SortedRun(m, i, j);
    }
  }

  lemma NewestIsNotHidden(m: seq<Entry>, i: nat, snap: nat, deep: set<Entry>, s: nat)
    requires Sorted(m) && i < |m| && snap <= s && Numbered(Entries(m))
    requires NewestOf(Entries(m) + deep, m[i].ukey, s, Some(m[i]))
    ensures !Hidden(m, i, snap)
  {
    assert 0 < i ==> m[i - 1] in Entries(m) && m[i] in Entries(m) && Before(m[i - 1].Key(), m[i].Key());
  }

  /**
   For every snapshot at or above the smallest one held, and every key, compacting the
   merged entries m over the deeper entries changes nothing a reader can see.
   */
  lemma DropRuleKeepsView(m: seq<Entry>, snap: nat, v: Levels, level: nat, deep: set<Entry>,
                          u: UserKey, s: nat, before: Option<Entry>, after: Option<Entry>)
    requires Sorted(m) && snap <= s && Numbered(Entries(m) + deep)
    requires forall x :: x in deep ==> !IsBaseLevel(v, level, x.ukey)
    requires NewestOf(Entries(m) + deep, u, s, before)
    requires NewestOf(Entries(Kept(m, |m|, snap, v, level)) + deep, u, s, after)
    ensures Seen(before) == Seen(after)
  {
    var kept := Kept(m, |m|, snap, v, level);
    forall e ensures e in kept <==> exists i :: 0 <= i < |m| && m[i] == e && !Dropped(m, i, snap, v, level) {
      KeptMembers(m, |m|, snap, v, level, e);
    }
    assert forall x :: x in Entries(kept) + deep ==> x in Entries(m) + deep;
    if before.Some? && before.value !in deep && before.value !in kept {
      var e := before.value;
      var i :| 0 <= i < |m| && m[i] == e;
      assert Numbered(Entries(m));
      NewestIsNotHidden(m, i, snap, deep, s);
      if after.Some? {
        var x := after.value;
        assert x in kept;
        var j :| 0 <= j < |m| && m[j] == x && !Dropped(m, j, snap, v, level);
        NothingUnderObsolete(m, i, j, snap, v, level);
      }
    } else if before.Some? {
      assert before.value in Entries(kept) + deep;
    }
  }

  /** With no snapshot held, a survivor is the newest merged entry of its key. */
  lemma SurvivorIsNewest(m: seq<Entry>, snap: nat, v: Levels, level: nat, e: Entry, x: Entry)
    requires Sorted(m) && (forall y :: y in m ==> y.sn <= snap)
    requires e in Kept(m, |m|, snap, v, level) && x in m && x.ukey == e.ukey
    ensures e in m && x.sn <= e.sn
  {
    KeptMembers(m, |m|, snap, v, level, e);
    var i :| 0 <= i < |m| && m[i] == e && !Dropped(m, i, snap, v, level);
    var j :| 0 <= j < |m| && m[j] == x;
    assert 0 < i ==> m[i - 1] in m;
    if j < i {
      SortedRun(m, j, i);
    } else if i < j {
      SortedRun(m, i, j);
    }
  }

  /** The newest merged entry of a key survives unless it is a deletion with nothing below it. */
  lemma NewestSurvives(m: seq<Entry>, snap: nat, v: Levels, level: nat, e: Entry)
    requires Sorted(m) && Numbered(Entries(m)) && e in m
    requires forall x :: x in m && x.ukey == e.ukey ==> x.sn <= e.sn
    requires forall y :: y in m ==> y.sn <= snap
    ensures e in Kept(m, |m|, snap, v, level) || (e.kind.Deletion? && IsBaseLevel(v, level, e.ukey))
  {
    KeptMembers(m, |m|, snap, v, level, e);
    var i :| 0 <= i < |m| && m[i] == e;
    NewestIsNotHidden(m, i, snap, {}, snap);
  }

  /** The loop state of a running compaction: the level_ptrs_ cursors and the key being handled. */
  class CompactionCursor {
    const level: nat
    const v: Levels
    const ptrs: array<nat>
    ghost var last: Option<UserKey>
    var currentUserKey: Option<UserKey>
    var lastSequenceForKey: nat

    /** Files before a cursor end before the last key asked for. */
    ghost predicate CursorsBehind(p: seq<nat>, last: Option<UserKey>) {
      && |v| == NUM_LEVELS == |p| && level + 1 < NUM_LEVELS
      && (forall k :: level + 2 <= k < NUM_LEVELS ==> LaidOut(v[k]) && p[k] <= |v[k]|)
      && (forall k, i :: level + 2 <= k < NUM_LEVELS && 0 <= i < p[k] ==> last.Some? && v[k][i].Hi() < last.value)
    }

    ghost predicate Valid()
      reads this, ptrs
    {
      CursorsBehind(ptrs[..], last)
    }

    constructor (level: nat, v: Levels)
      requires |v| == NUM_LEVELS && level + 1 < NUM_LEVELS
      requires forall k :: level + 2 <= k < NUM_LEVELS ==> LaidOut(v[k])
      ensures Valid() && fresh(ptrs) && this.level == level && this.v == v && last == None && currentUserKey == None
    {
      this.level, this.v, last := level, v, None;
      currentUserKey, lastSequenceForKey := None, MAX_SEQUENCE;
      ptrs := new nat[NUM_LEVELS](_ => 0);
    }

    /** Advance one level's cursor past the files that end before u. */
    method SearchLevel(u: UserKey, lvl: nat) returns (r: bool)
      requires Valid() && last == Some(u) && level + 2 <= lvl < NUM_LEVELS
      modifies ptrs
      ensures Valid()
      ensures r <==> exists f :: f in v[lvl] && f.Lo() <= u <= f.Hi()
    {
      while ptrs[lvl] < |v[lvl]| && v[lvl][ptrs[lvl]].Hi() < u
        invariant Valid()
        decreases |v[lvl]| - ptrs[lvl]
      {
        ptrs[lvl] := ptrs[lvl] + 1;
      }
      var p := ptrs[lvl];
      r := p < |v[lvl]| && v[lvl][p].Lo() <= u;
      assert r ==> v[lvl][p] in v[lvl];
      forall f | f in v[lvl] && f.Lo() <= u <= f.Hi() ensures r {
        var i :| 0 <= i < |v[lvl]| && v[lvl][i] == f;
      }
    }

    /** For non-decreasing queries the cursors answer as a search of all deeper files would. */
    method IsBaseLevelForKey(u: UserKey) returns (r: bool)
      requires Valid() && (last.Some? ==> last.value <= u)
      modifies ptrs, `last
      ensures Valid() && last == Some(u)
      ensures r <==> IsBaseLevel(v, level, u)
    {
      last := Some(u);
      for lvl := level + 2 to NUM_LEVELS
        invariant Valid() && last == Some(u)
        invariant forall k, f :: level + 2 <= k < lvl && f in v[k] ==> u < f.Lo() || f.Hi() < u
      {
        var covered := SearchLevel(u, lvl);
        if covered {
          return false;
        }
      }
      return true;
    }

    /** The first i entries of m have been handled. */
    ghost predicate At(m: seq<Entry>, i: nat)
      reads this, ptrs
      requires i <= |m|
    {
      && Valid()
      && (last.Some? ==> 0 < i && last.value <= m[i - 1].ukey)
      && currentUserKey == (if i == 0 then None else Some(m[i - 1].ukey))
      && (0 < i ==> lastSequenceForKey == m[i - 1].sn)
    }

    /** The drop decision for the next merged entry. */
    method ShouldDrop(m: seq<Entry>, i: nat, snap: nat) returns (drop: bool)
      requires i < |m| && Sorted(m) && snap < MAX_SEQUENCE && At(m, i)
      modifies this, ptrs
      ensures At(m, i + 1)
      ensures drop <==> Dropped(m, i, snap, v, level)
    {
      var e := m[i];
      assert 0 < i ==> Before(m[i - 1].Key(), e.Key());
      drop := false;
      if currentUserKey != Some(e.ukey) {
        currentUserKey := Some(e.ukey);
        lastSequenceForKey := MAX_SEQUENCE;
      }
      if lastSequenceForKey <= snap {
        drop := true;
      } else if e.kind.Deletion? && e.sn <= snap {
        drop := IsBaseLevelForKey(e.ukey);
      }
      lastSequenceForKey := e.sn;
    }
  }
}
