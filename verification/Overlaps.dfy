/** Which files of a level meet a key range, and where a flushed memtable may be placed. */
module Overlaps {
  import opened Keys
  import opened Tables

  /** An end of a user-key range; None is the NULL pointer, an open end. */
  type Bound = Option<UserKey>

  predicate AfterFile(u: Bound, f: File) { u.Some? && u.value > f.Hi() }

  predicate BeforeFile(u: Bound, f: File) { u.Some? && u.value < f.Lo() }

  predicate Meets(f: File, lo: Bound, hi: Bound) { !AfterFile(lo, f) && !BeforeFile(hi, f) }

  function Meeting(fs: seq<File>, lo: Bound, hi: Bound): seq<File> {
    if fs == [] then []
    else
      var rest := Meeting(fs[..|fs| - 1], lo, hi);
      var f := fs[|fs| - 1];
      if Meets(f, lo, hi) then rest + [f] else rest
  }

  lemma MeetingMembers(fs: seq<File>, lo: Bound, hi: Bound)
    ensures forall f :: f in Meeting(fs, lo, hi) <==> f in fs && Meets(f, lo, hi)
  {
    if fs != [] {
      MeetingMembers(fs[..|fs| - 1], lo, hi);
      assert fs == fs[..|fs| - 1] + [fs[|fs| - 1]];
    }
  }

  /** A wider range meets at least as many files, and no more only if it meets the same ones. */
  lemma {:induction false} MeetingWider(fs: seq<File>, lo: Bound, hi: Bound, lo': Bound, hi': Bound)
    requires Contains(lo', hi', lo, hi)
    ensures |Meeting(fs, lo, hi)| <= |Meeting(fs, lo', hi')|
    ensures |Meeting(fs, lo, hi)| == |Meeting(fs, lo', hi')| ==> Meeting(fs, lo, hi) == Meeting(fs, lo', hi')
  {
    if fs != [] {
      MeetingWider(fs[..|fs| - 1], lo, hi, lo', hi');
    }
  }

  ghost predicate ByLargest(fs: seq<File>) {
    forall i, j :: 0 <= i < j < |fs| ==> Before(fs[i].largest, fs[j].largest)
  }

  ghost predicate LaidOut(fs: seq<File>) {
    && (forall i :: 0 <= i < |fs| ==> fs[i].Lo() <= fs[i].Hi())
    && (forall i, j :: 0 <= i < j < |fs| ==> fs[i].Hi() < fs[j].Lo())
  }

  method FindFile(files: seq<File>, key: IKey) returns (right: nat)
    requires ByLargest(files)
    ensures right <= |files|
    ensures forall i :: 0 <= i < right ==> Before(files[i].largest, key)
    ensures forall i :: right <= i < |files| ==> !Before(files[i].largest, key)
  {
    var left := 0;
    right := |files|;
    while left < right
      invariant 0 <= left <= right <= |files|
      invariant forall i :: 0 <= i < left ==> Before(files[i].largest, key)
      invariant forall i :: right <= i < |files| ==> !Before(files[i].largest, key)
    {
      var mid := (left + right) / 2;
      if Before(files[mid].largest, key) {
        left := mid + 1;
      } else {
        right := mid;
      }
    }
  }

  method SomeFileOverlapsRange(disjointSorted: bool, files: seq<File>, lo: Bound, hi: Bound) returns (b: bool)
    requires disjointSorted ==> LaidOut(files)
    ensures b <==> exists f :: f in files && Meets(f, lo, hi)
  {
    if !disjointSorted {
      for i := 0 to |files|
        invariant forall j :: 0 <= j < i ==> !Meets(files[j], lo, hi)
      {
        if AfterFile(lo, files[i]) || BeforeFile(hi, files[i]) {
        } else {
          assert files[i] in files;
          return true;
        }
      }
      return false;
    }
    var index := 0;
    if lo.Some? {
      index := FindFile(files, IKey(lo.value, MAX_SEQUENCE, Value));
    }
    if index >= |files| {
      return false;
    }
    b := !BeforeFile(hi, files[index]);
    if b { assert files[index] in files; }
  }

  /** [lo', hi'] contains [lo, hi]. */
  predicate Contains(lo': Bound, hi': Bound, lo: Bound, hi: Bound) {
    && (lo'.None? || (lo.Some? && lo'.value <= lo.value))
    && (hi'.None? || (hi.Some? && hi.value <= hi'.value))
  }

  /** Every file that meets the range lies inside it. */
  ghost predicate Closed(fs: seq<File>, lo: Bound, hi: Bound) {
    forall f :: f in fs && Meets(f, lo, hi) ==> Contains(lo, hi, Some(f.Lo()), Some(f.Hi()))
  }

  /** The interval [a, b] has no key in common with [lo, hi]. */
  predicate MissesRange(a: UserKey, b: UserKey, lo: Bound, hi: Bound) {
    (hi.Some? && hi.value < a) || (lo.Some? && b < lo.value)
  }

  ghost predicate MissesAll(fs: seq<File>, a: UserKey, b: UserKey) {
    forall g :: g in fs ==> b < g.Lo() || g.Hi() < a
  }

  /** Nothing fits between the files that meet [lo, hi] and the range [begin, end] they grew from. */
  ghost predicate GrownWithoutGaps(fs: seq<File>, lo: Bound, hi: Bound, begin: Bound, end: Bound) {
    forall a, b :: a <= b && MissesAll(Meeting(fs, lo, hi), a, b) && MissesRange(a, b, begin, end)
                   ==> MissesRange(a, b, lo, hi)
  }

  /** [lo, hi] is inside every closed range that contains [begin, end]. */
  ghost predicate Least(fs: seq<File>, lo: Bound, hi: Bound, begin: Bound, end: Bound) {
    forall a, b :: Closed(fs, a, b) && Contains(a, b, begin, end) ==> Contains(a, b, lo, hi)
  }

  ghost function StartsBelow(fs: seq<File>, lo: Bound): set<int> {
    set i | 0 <= i < |fs| && lo.Some? && fs[i].Lo() < lo.value
  }

  ghost function EndsAbove(fs: seq<File>, hi: Bound): set<int> {
    set i | 0 <= i < |fs| && hi.Some? && hi.value < fs[i].Hi()
  }

  lemma WidenStep(fs: seq<File>, f: File, lo: Bound, hi: Bound, lo': Bound, hi': Bound, begin: Bound, end: Bound)
    requires f in fs && f.Lo() <= f.Hi() && Meets(f, lo, hi)
    requires Contains(lo, hi, begin, end) && Least(fs, lo, hi, begin, end)
    requires GrownWithoutGaps(fs, lo, hi, begin, end)
    requires (lo' == lo && hi' == Some(f.Hi()) && hi.Some? && hi.value < f.Hi())
          || (hi' == hi && lo' == Some(f.Lo()) && lo.Some? && f.Lo() < lo.value)
    ensures Contains(lo', hi', begin, end) && Least(fs, lo', hi', begin, end)
    ensures GrownWithoutGaps(fs, lo', hi', begin, end)
  {
    MeetingMembers(fs, lo, hi);
    MeetingMembers(fs, lo', hi');
    forall a, b | Closed(fs, a, b) && Contains(a, b, begin, end) ensures Contains(a, b, lo', hi') {
      assert Contains(a, b, lo, hi) && Meets(f, a, b);
    }
    forall a, b | a <= b && MissesAll(Meeting(fs, lo', hi'), a, b) && MissesRange(a, b, begin, end)
      ensures MissesRange(a, b, lo', hi')
    {
      assert MissesAll(Meeting(fs, lo, hi), a, b);
      assert f in Meeting(fs, lo', hi');
    }
  }

  /**
   Version::GetOverlappingInputs. At level 0 (expand) a file that sticks out of the range
   widens it and restarts the scan. [lo, hi] is the range the scan ends with.
   */
  method GetOverlappingInputs(files: seq<File>, expand: bool, begin: Bound, end: Bound)
    returns (inputs: seq<File>, ghost lo: Bound, ghost hi: Bound)
    requires forall f :: f in files ==> f.Lo() <= f.Hi()
    ensures inputs == Meeting(files, lo, hi)
    ensures Contains(lo, hi, begin, end)
    ensures !expand ==> lo == begin && hi == end
    ensures expand ==> Closed(files, lo, hi) && Least(files, lo, hi, begin, end)
    ensures GrownWithoutGaps(files, lo, hi, begin, end)
  {
    inputs := [];
    var userBegin, userEnd := begin, end;
    var i := 0;
    while i < |files|
      invariant 0 <= i <= |files|
      invariant Contains(userBegin, userEnd, begin, end)
      invariant inputs == Meeting(files[..i], userBegin, userEnd)
      invariant !expand ==> userBegin == begin && userEnd == end
      invariant expand ==> Closed(files[..i], userBegin, userEnd)
      invariant Least(files, userBegin, userEnd, begin, end)
      invariant GrownWithoutGaps(files, userBegin, userEnd, begin, end)
      decreases StartsBelow(files, userBegin), EndsAbove(files, userEnd), |files| - i
    {
      var f := files[i];
      assert files[..i + 1][..i] == files[..i];
      assert forall g :: g in files[..i + 1] <==> g in files[..i] || g == f;
      ghost var was := i;
      i := i + 1;
      if AfterFile(userBegin, f) {
      } else if BeforeFile(userEnd, f) {
      } else {
        inputs := inputs + [f];
        if expand {
          if userBegin.Some? && f.Lo() < userBegin.value {
            WidenStep(files, f, userBegin, userEnd, Some(f.Lo()), userEnd, begin, end);
            assert was in StartsBelow(files, userBegin) && was !in StartsBelow(files, Some(f.Lo()));
            userBegin := Some(f.Lo());
            inputs := [];
            i := 0;
          } else if userEnd.Some? && userEnd.value < f.Hi() {
            WidenStep(files, f, userBegin, userEnd, userBegin, Some(f.Hi()), begin, end);
            assert was in EndsAbove(files, userEnd) && was !in EndsAbove(files, Some(f.Hi()));
            userEnd := Some(f.Hi());
            inputs := [];
            i := 0;
          }
        }
      }
    }
    assert files[..i] == files;
    lo, hi := userBegin, userEnd;
  }
}
