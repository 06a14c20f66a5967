/** db_iter.cc: one entry for each user key visible at a sequence number, in both directions. */
module DbIter {
  import opened Keys
  import opened Tables

  // ---------- what the iterator ranges over ----------

  /** The ordered map: u is in it if its newest entry at s is a value. */
  predicate Shows(list: seq<Entry>, s: SeqNum, u: UserKey) {
    Newest(list, u, s).Some? && Newest(list, u, s).value.kind.Value?
  }

  function Shown(list: seq<Entry>, s: SeqNum, u: UserKey): Bytes
    requires Shows(list, s, u)
  {
    Newest(list, u, s).value.value
  }

  /** Entry i is the one that the map takes for its user key. */
  ghost predicate Yields(list: seq<Entry>, s: SeqNum, i: int) {
    && 0 <= i < |list| && list[i].sn <= s && list[i].kind.Value?
    && forall j :: 0 <= j < i && list[j].ukey == list[i].ukey ==> list[j].sn > s
  }

  lemma {:induction false} NewestIsFirst(list: seq<Entry>, s: SeqNum, u: UserKey)
    ensures match Newest(list, u, s)
            case None => forall i :: 0 <= i < |list| && list[i].ukey == u ==> list[i].sn > s
            case Some(e) => exists i :: FirstFor(list, s, u, i) && list[i] == e
  {
    if list == [] {
    } else if list[0].ukey == u && list[0].sn <= s {
      assert FirstFor(list, s, u, 0);
    } else {
      NewestIsFirst(list[1..], s, u);
      if Newest(list, u, s).Some? {
        var i :| FirstFor(list[1..], s, u, i) && list[1..][i] == Newest(list, u, s).value;
        assert forall j :: 0 <= j < |list| ==> j == 0 || list[j] == list[1..][j - 1];
        assert FirstFor(list, s, u, i + 1);
      } else {
        assert forall j :: 0 < j < |list| ==> list[j] == list[1..][j - 1];
      }
    }
  }

  ghost predicate FirstFor(list: seq<Entry>, s: SeqNum, u: UserKey, i: int) {
    && 0 <= i < |list| && list[i].ukey == u && list[i].sn <= s
    && forall j :: 0 <= j < i && list[j].ukey == u ==> list[j].sn > s
  }

  /** The yielded entries are those of the map. */
  lemma YieldsIsShown(list: seq<Entry>, s: SeqNum, i: int)
    requires Yields(list, s, i)
    ensures Shows(list, s, list[i].ukey) && Shown(list, s, list[i].ukey) == list[i].value
  {
    var u := list[i].ukey;
    NewestIsFirst(list, s, u);
    var k :| FirstFor(list, s, u, k) && list[k] == Newest(list, u, s).value;
    assert k == i;
  }

  lemma ShownIsYielded(list: seq<Entry>, s: SeqNum, u: UserKey) returns (i: int)
    requires Shows(list, s, u)
    ensures Yields(list, s, i) && list[i].ukey == u
  {
    NewestIsFirst(list, s, u);
    i :| FirstFor(list, s, u, i) && list[i] == Newest(list, u, s).value;
  }

  ghost predicate SortedUsers(list: seq<Entry>) {
    forall i, j :: 0 <= i < j < |list| ==> list[i].ukey <= list[j].ukey
  }

  lemma YieldsAreOrdered(list: seq<Entry>, s: SeqNum, i: int, j: int)
    requires SortedUsers(list) && Yields(list, s, i) && Yields(list, s, j) && i < j
    ensures list[i].ukey < list[j].ukey
  {
  }

  // ---------- where a move may lead ----------

  /** at is the first yielded entry from position from on, or the end of the list. */
  ghost predicate FirstFrom(list: seq<Entry>, s: SeqNum, from: int, at: int) {
    && from <= at && (at == |list| || Yields(list, s, at))
    && forall y :: from <= y < at ==> !Yields(list, s, y)
  }

  /** at is the last yielded entry up to position to, or -1. */
  ghost predicate LastUpTo(list: seq<Entry>, s: SeqNum, to: int, at: int) {
    && at <= to && (at == -1 || Yields(list, s, at))
    && forall y :: at < y <= to ==> !Yields(list, s, y)
  }

  /** The smallest shown key that is at least u (more than u, if strict). */
  ghost predicate LeastShown(list: seq<Entry>, s: SeqNum, u: UserKey, strict: bool, k: UserKey) {
    && Shows(list, s, k) && (if strict then u < k else u <= k)
    && forall x :: Shows(list, s, x) && (if strict then u < x else u <= x) ==> k <= x
  }

  ghost predicate NoneAbove(list: seq<Entry>, s: SeqNum, u: UserKey, strict: bool) {
    forall x :: Shows(list, s, x) ==> if strict then x <= u else x < u
  }

  ghost predicate GreatestBelow(list: seq<Entry>, s: SeqNum, u: UserKey, k: UserKey) {
    Shows(list, s, k) && k < u && forall x :: Shows(list, s, x) && x < u ==> x <= k
  }

  ghost predicate NoneBelow(list: seq<Entry>, s: SeqNum, u: UserKey) {
    forall x :: Shows(list, s, x) ==> u <= x
  }

  lemma ForwardMove(list: seq<Entry>, s: SeqNum, from: int, at: int, u: UserKey, strict: bool)
    requires SortedUsers(list) && 0 <= from && FirstFrom(list, s, from, at)
    requires forall y :: Yields(list, s, y) ==> (y < from <==> if strict then list[y].ukey <= u else list[y].ukey < u)
    ensures if at < |list| then LeastShown(list, s, u, strict, list[at].ukey) else NoneAbove(list, s, u, strict)
  {
    if at < |list| { YieldsIsShown(list, s, at); }
    forall x | Shows(list, s, x) ensures (if strict then x <= u else x < u) || (at < |list| && list[at].ukey <= x) {
      var y := ShownIsYielded(list, s, x);
      assert y < from || at <= y;
    }
  }

  lemma BackwardMove(list: seq<Entry>, s: SeqNum, to: int, at: int, u: UserKey)
    requires SortedUsers(list) && LastUpTo(list, s, to, at)
    requires forall y :: Yields(list, s, y) ==> (y <= to <==> list[y].ukey < u)
    ensures if at >= 0 then GreatestBelow(list, s, u, list[at].ukey) else NoneBelow(list, s, u)
  {
    if at >= 0 { YieldsIsShown(list, s, at); }
    forall x | Shows(list, s, x) ensures u <= x || (at >= 0 && x <= list[at].ukey) {
      var y := ShownIsYielded(list, s, x);
      assert y > to || y <= at;
    }
  }

  // ---------- the iterator ----------

  datatype Direction = Forward | Reverse

  class DBIter {
    const list: seq<Entry>  // the entries of the internal iterator
    const sequence: SeqNum
    var pos: int            // where the internal iterator stands; invalid outside the list
    var direction: Direction
    var valid: bool
    var savedKey: UserKey
    var savedValue: Bytes
    ghost var at: int       // the yielded entry the iterator stands on

    predicate IterValid()
      reads this
    {
      0 <= pos < |list|
    }

    /** Moving forward the internal iterator is on the entry; moving backward it is before all visible entries of the key. */
    ghost predicate Inv()
      reads this
    {
      && SortedUsers(list)
      && (valid ==>
            && Yields(list, sequence, at)
            && match direction
               case Forward => pos == at
               case Reverse => savedKey == list[at].ukey && savedValue == list[at].value && Passed(pos, at))
    }

    /** Between pos and at there is no entry visible at the sequence number, and pos is on a smaller key. */
    ghost predicate Passed(p: int, a: int) {
      && 0 <= a < |list| && -1 <= p < a && (p >= 0 ==> list[p].ukey < list[a].ukey)
      && forall i :: p < i < a ==> list[i].sn > sequence
    }

    function Key(): UserKey
      reads this
      requires Inv() && valid
    {
      if direction.Forward? then list[pos].ukey else savedKey
    }

    function Value(): Bytes
      reads this
      requires Inv() && valid
    {
      if direction.Forward? then list[pos].value else savedValue
    }

    /** The iterator shows an entry of the map. */
    lemma OnEntry()
      requires Inv() && valid
      ensures Shows(list, sequence, Key()) && Value() == Shown(list, sequence, Key())
      ensures Key() == list[at].ukey
    {
      YieldsIsShown(list, sequence, at);
    }

    constructor (list: seq<Entry>, sequence: SeqNum)
      requires Sorted(list)
      ensures Inv() && !valid && this.list == list && this.sequence == sequence
    {
      this.list, this.sequence := list, sequence;
      pos, direction, valid, savedKey, savedValue, at := -1, Forward, false, 0.0, [], -1;
    }

    ghost predicate Hidden(skipping: bool, skip: UserKey, j: int)
      requires 0 <= j < |list|
    {
      skipping && list[j].ukey <= skip
    }

    /** Every visible entry before p has a smaller key than those from p on, or is hidden by skip. */
    ghost predicate Behind(p: int, skipping: bool, skip: UserKey) {
      && (forall j :: 0 <= j < p && j < |list| && list[j].sn <= sequence ==>
            Hidden(skipping, skip, j) || (forall i :: p <= i < |list| ==> list[j].ukey < list[i].ukey))
      && (skipping ==> forall i :: 0 <= p <= i < |list| && list[i].sn <= sequence ==> skip <= list[i].ukey)
    }

    method FindNextUserEntry(skipping0: bool, skip0: UserKey)
      requires IterValid() && direction.Forward? && SortedUsers(list) && Behind(pos, skipping0, skip0)
      modifies this
      ensures Inv() && direction.Forward?
      ensures valid <==> at < |list|
      ensures old(pos) <= at && (at == |list| || Yields(list, sequence, at))
      ensures forall y :: old(pos) <= y < at && Yields(list, sequence, y) ==> Hidden(skipping0, skip0, y)
      ensures at < |list| ==> !Hidden(skipping0, skip0, at)
    {
      hide Behind, Yields, Deleted;
      ghost var p0 := pos;
      var skipping, skip := skipping0, skip0;
      while true
        invariant p0 <= pos < |list| && direction.Forward?
        invariant Behind(pos, skipping, skip)
        invariant forall y :: p0 <= y < pos && Yields(list, sequence, y) ==> Hidden(skipping0, skip0, y)
        invariant skipping0 ==> skipping && skip0 <= skip
        invariant skipping ==> (skipping0 && skip == skip0) || Deleted(p0, pos, skip)
        decreases |list| - pos
      {
        var e := list[pos];
        if e.sn <= sequence {
          match e.kind {
            case Deletion =>
              DeletionHides(p0, pos, skipping, skip);
              skip, skipping := e.ukey, true;
            case Value =>
              if skipping && e.ukey <= skip {
                HiddenStays(p0, pos, skipping0, skip0, skip);
              } else {
                ValueYields(pos, skipping, skip);
                valid := true;
                savedKey := 0.0;
                at := pos;
                return;
              }
          }
        } else {
          TooNew(p0, pos, skipping, skip);
        }
        pos := pos + 1;
        if pos >= |list| { break; }
      }
      savedKey := 0.0;
      valid := false;
      at := |list|;
    }

    lemma DeletionHides(p0: int, p: int, skipping: bool, skip: UserKey)
      requires SortedUsers(list) && 0 <= p0 <= p < |list| && Behind(p, skipping, skip)
      requires list[p].sn <= sequence && list[p].kind.Deletion?
      ensures Behind(p + 1, true, list[p].ukey) && Deleted(p0, p + 1, list[p].ukey) && !Yields(list, sequence, p)
      ensures skipping ==> skip <= list[p].ukey
    {
    }

    lemma TooNew(p0: int, p: int, skipping: bool, skip: UserKey)
      requires SortedUsers(list) && 0 <= p0 <= p < |list| && Behind(p, skipping, skip) && list[p].sn > sequence
      ensures Behind(p + 1, skipping, skip) && !Yields(list, sequence, p)
      ensures Deleted(p0, p, skip) ==> Deleted(p0, p + 1, skip)
    {
    }

    lemma HiddenStays(p0: int, p: int, skipping0: bool, skip0: UserKey, skip: UserKey)
      requires SortedUsers(list) && 0 <= p0 <= p < |list| && Behind(p, true, skip) && list[p].sn <= sequence && list[p].ukey <= skip
      requires (skipping0 && skip == skip0) || Deleted(p0, p, skip)
      ensures Behind(p + 1, true, skip) && (Deleted(p0, p, skip) ==> Deleted(p0, p + 1, skip))
      ensures Yields(list, sequence, p) ==> Hidden(skipping0, skip0, p)
    {
    }

    lemma ValueYields(p: int, skipping: bool, skip: UserKey)
      requires SortedUsers(list) && 0 <= p < |list| && Behind(p, skipping, skip)
      requires list[p].sn <= sequence && list[p].kind.Value? && !Hidden(skipping, skip, p)
      ensures Yields(list, sequence, p)
    {
    }

    ghost predicate Deleted(from: int, to: int, u: UserKey) {
      exists d :: 0 <= from <= d < to && d < |list| && list[d].sn <= sequence && list[d].kind.Deletion? && list[d].ukey == u
    }

    method Next()
      requires Inv() && valid
      modifies this
      ensures Inv()
      ensures if valid then LeastShown(list, sequence, old(Key()), true, Key())
              else NoneAbove(list, sequence, old(Key()), true)
    {
      ghost var a, k := at, Key();
      OnEntry();
      if direction.Reverse? {
        direction := Forward;
        if !IterValid() { pos := 0; } else { pos := pos + 1; }
        if !IterValid() {
          assert false;
        }
      } else {
        savedKey := list[pos].ukey;
      }
      assert Behind(pos, true, savedKey) by { BehindAfter(pos, a); }
      assert pos <= a;
      FindNextUserEntry(true, savedKey);
      assert FirstFrom(list, sequence, a + 1, at);
      forall y | Yields(list, sequence, y) ensures y < a + 1 <==> list[y].ukey <= k {
        if y < a { YieldsAreOrdered(list, sequence, y, a); }
        if a < y { YieldsAreOrdered(list, sequence, a, y); }
      }
      ForwardMove(list, sequence, a + 1, at, k, true);
    }

    /** Advancing into the entries of the current key from either direction. */
    lemma BehindAfter(p: int, a: int)
      requires SortedUsers(list) && Yields(list, sequence, a) && 0 <= p <= a
      requires forall i :: p <= i < a ==> list[i].sn > sequence
      ensures Behind(p, true, list[a].ukey)
    {
    }

    method Seek(target: UserKey)
      requires Inv() && Sorted(list)
      modifies this
      ensures Inv()
      ensures if valid then LeastShown(list, sequence, target, false, Key()) else NoneAbove(list, sequence, target, false)
    {
      direction := Forward;
      savedValue := [];
      pos := SeekIndex(list, IKey(target, sequence, Kind.Value));
      ghost var p0 := pos;
      SeekLands(target, pos);
      if IterValid() {
        savedKey := target;
        FindNextUserEntry(false, savedKey);
      } else {
        valid := false;
        at := |list|;
      }
      forall y | Yields(list, sequence, y) ensures y < p0 <==> list[y].ukey < target { }
      ForwardMove(list, sequence, p0, at, target, false);
    }

    /** Seeking (target, sequence) skips exactly the smaller keys and the versions that are too new. */
    lemma SeekLands(target: UserKey, p: int)
      requires Sorted(list) && p == SeekIndex(list, IKey(target, sequence, Kind.Value))
      ensures forall j :: 0 <= j < p && list[j].sn <= sequence ==> list[j].ukey < target
      ensures forall i :: p <= i < |list| ==> target <= list[i].ukey
      ensures Behind(p, false, target)
    {
      forall i | p <= i < |list| ensures target <= list[i].ukey {
        assert i == p || Before(list[p].Key(), list[i].Key());
      }
    }

    method SeekToFirst()
      requires Inv()
      modifies this
      ensures Inv()
      ensures if valid then Shows(list, sequence, Key()) && NoneBelow(list, sequence, Key())
              else forall x :: !Shows(list, sequence, x)
    {
      direction := Forward;
      savedValue := [];
      pos := 0;
      if IterValid() {
        FindNextUserEntry(false, savedKey);
      } else {
        valid := false;
        at := |list|;
      }
      FirstMove();
    }

    lemma FirstMove()
      requires SortedUsers(list) && FirstFrom(list, sequence, 0, at)
      ensures if at < |list| then Shows(list, sequence, list[at].ukey) && NoneBelow(list, sequence, list[at].ukey)
              else forall x :: !Shows(list, sequence, x)
    {
      if at < |list| { YieldsIsShown(list, sequence, at); }
      forall x | Shows(list, sequence, x) ensures at < |list| && list[at].ukey <= x {
        var y := ShownIsYielded(list, sequence, x);
      }
    }

    method FindPrevUserEntry()
      requires direction.Reverse? && SortedUsers(list) && -1 <= pos <= |list|
      modifies this
      ensures Inv() && LastUpTo(list, sequence, if old(pos) < |list| then old(pos) else -1, at)
      ensures valid <==> at >= 0
      ensures valid ==> direction.Reverse?
    {
      ghost var p0 := pos;
      ghost var m := -1;
      var valueType := Deletion;
      if IterValid() {
        while true
          invariant 0 <= pos <= p0 && direction.Reverse?
          invariant m == -1 ==> valueType.Deletion? && forall i :: pos < i <= p0 ==> list[i].sn > sequence
          invariant m != -1 ==> pos < m <= p0 && list[m].sn <= sequence && valueType == list[m].kind
                                && forall i :: pos < i < m ==> list[i].sn > sequence
          invariant valueType.Value? ==> savedKey == list[m].ukey && savedValue == list[m].value
          invariant forall y :: pos < y <= p0 && Yields(list, sequence, y) ==> y == m
          decreases pos
        {
          var e := list[pos];
          if e.sn <= sequence {
            if !valueType.Deletion? && e.ukey < savedKey {
              break;
            }
            assert m > pos ==> !Yields(list, sequence, m);
            valueType := e.kind;
            m := pos;
            if valueType.Deletion? {
              savedKey := 0.0;
              savedValue := [];
            } else {
              savedKey, savedValue := e.ukey, e.value;
            }
          }
          pos := pos - 1;
          if pos < 0 { break; }
        }
      }
      if valueType.Deletion? {
        valid := false;
        savedKey := 0.0;
        savedValue := [];
        direction := Forward;
        at := -1;
      } else {
        valid := true;
        at := m;
      }
    }

    method SeekToLast()
      requires Inv()
      modifies this
      ensures Inv()
      ensures if valid then Shows(list, sequence, Key()) && NoneAbove(list, sequence, Key(), true)
              else forall x :: !Shows(list, sequence, x)
    {
      direction := Reverse;
      savedValue := [];
      pos := |list| - 1;
      FindPrevUserEntry();
      LastMove();
    }

    lemma LastMove()
      requires SortedUsers(list) && LastUpTo(list, sequence, |list| - 1, at)
      ensures if at >= 0 then Shows(list, sequence, list[at].ukey) && NoneAbove(list, sequence, list[at].ukey, true)
              else forall x :: !Shows(list, sequence, x)
    {
      if at >= 0 { YieldsIsShown(list, sequence, at); }
      forall x | Shows(list, sequence, x) ensures at >= 0 && x <= list[at].ukey {
        var y := ShownIsYielded(list, sequence, x);
      }
    }

    method Prev()
      requires Inv() && valid
      modifies this
      ensures Inv()
      ensures if valid then GreatestBelow(list, sequence, old(Key()), Key()) else NoneBelow(list, sequence, old(Key()))
    {
      ghost var a, k := at, Key();
      OnEntry();
      if direction.Forward? {
        savedKey := list[pos].ukey;
        while true
          invariant 0 <= pos <= a && savedKey == k && SortedUsers(list) && a == at
          invariant forall i :: pos <= i <= a ==> list[i].ukey == k
          decreases pos
        {
          pos := pos - 1;
          if pos < 0 {
            valid := false;
            savedKey := 0.0;
            savedValue := [];
            at := -1;
            BackwardMove(list, sequence, -1, -1, k);
            return;
          }
          if list[pos].ukey < savedKey { break; }
        }
        direction := Reverse;
      }
      ghost var p := pos;
      FindPrevUserEntry();
      forall y | Yields(list, sequence, y) ensures y <= p <==> list[y].ukey < k { }
      BackwardMove(list, sequence, p, at, k);
    }
  }
}
