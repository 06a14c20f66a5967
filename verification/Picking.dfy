/** Choosing the inputs of an automatic compaction and the level of a flushed memtable. */
module Picking {
  import opened Keys
  import opened Tables
  import opened Overlaps

  const MAX_MEM_COMPACT_LEVEL: nat := 2

  /** input_version_ is kept in base; snapshot is smallest_snapshot. */
  datatype Compaction = Compaction(level: nat, inputs0: seq<File>, inputs1: seq<File>, base: Levels, snapshot: nat) {
    function Inputs(): seq<File> { inputs0 + inputs1 }
  }

  ghost predicate BeforeAll(fs: seq<File>, b: UserKey) { forall g :: g in fs ==> b < g.Lo() }

  ghost predicate AfterAll(fs: seq<File>, a: UserKey) { forall g :: g in fs ==> g.Hi() < a }

  /** The key ranges of fs form one interval: what misses every file lies wholly to one side. */
  ghost predicate GapFree(fs: seq<File>) {
    forall a, b :: a <= b && MissesAll(fs, a, b) ==> BeforeAll(fs, b) || AfterAll(fs, a)
  }

  /** The inputs chosen from a level and the one below it. */
  ghost predicate PickedFrom(upper: seq<File>, lower: seq<File>, inputs0: seq<File>, inputs1: seq<File>) {
    && inputs0 != []
    && (forall g :: g in inputs0 ==> g in upper)
    && (forall g :: g in inputs1 ==> g in lower)
    && (forall x, g :: x in upper && x !in inputs0 && g in inputs0 ==> DisjointFiles(x, g))
    && (forall x, g :: x in lower && x !in inputs1 && g in inputs0 ==> DisjointFiles(x, g))
    && GapFree(inputs0 + inputs1)
  }

  /** What PickCompaction and SetupOtherInputs promise about the inputs they choose in v. */
  ghost predicate Picked(v: Levels, c: Compaction) {
    c.level + 1 < |v| && c.base == v && PickedFrom(v[c.level], v[c.level + 1], c.inputs0, c.inputs1)
  }

  lemma PickedAt(v: Levels, level: nat, inputs0: seq<File>, inputs1: seq<File>)
    requires level + 1 < |v| && PickedFrom(v[level], v[level + 1], inputs0, inputs1)
    ensures Picked(v, Compaction(level, inputs0, inputs1, v, 0))
  {
  }

  ghost predicate PairwiseDisjoint(fs: seq<File>) {
    forall f, g :: f in fs && g in fs && f != g ==> DisjointFiles(f, g)
  }

  method GetRange(inputs: seq<File>) returns (smallest: IKey, largest: IKey)
    requires inputs != []
    ensures forall g :: g in inputs ==> !Before(g.smallest, smallest) && !Before(largest, g.largest)
    ensures exists g :: g in inputs && g.smallest == smallest
    ensures exists g :: g in inputs && g.largest == largest
  {
    smallest, largest := inputs[0].smallest, inputs[0].largest;
    ghost var p, q := 0, 0;
    for i := 1 to |inputs|
      invariant 0 <= p < i && inputs[p].smallest == smallest
      invariant 0 <= q < i && inputs[q].largest == largest
      invariant forall j :: 0 <= j < i ==> !Before(inputs[j].smallest, smallest) && !Before(largest, inputs[j].largest)
    {
      var f := inputs[i];
      if Before(f.smallest, smallest) {
        smallest := f.smallest;
        p := i;
      }
      if Before(largest, f.largest) {
        largest := f.largest;
        q := i;
      }
    }
    assert inputs[p] in inputs && inputs[q] in inputs;
  }

  ghost predicate IsRange(fs: seq<File>, lo: UserKey, hi: UserKey) {
    && (forall g :: g in fs ==> lo <= g.Lo() && g.Hi() <= hi)
    && (exists g :: g in fs && g.Lo() == lo)
    && (exists g :: g in fs && g.Hi() == hi)
  }

  /** Growing a gap-free set by files that meet its range (or a range grown from it) leaves no gap. */
  lemma GrowGapFree(core: seq<File>, lo: UserKey, hi: UserKey, level: seq<File>, lo': Bound, hi': Bound, all: seq<File>)
    requires GapFree(core) && IsRange(core, lo, hi)
    requires Contains(lo', hi', Some(lo), Some(hi))
    requires GrownWithoutGaps(level, lo', hi', Some(lo), Some(hi))
    requires forall g :: g in all <==> g in core || g in Meeting(level, lo', hi')
    ensures GapFree(all)
  {
    MeetingMembers(level, lo', hi');
    forall a, b | a <= b && MissesAll(all, a, b) ensures BeforeAll(all, b) || AfterAll(all, a) {
      assert MissesAll(core, a, b) && MissesAll(Meeting(level, lo', hi'), a, b);
      assert MissesRange(a, b, Some(lo), Some(hi));
      assert MissesRange(a, b, lo', hi');
    }
  }

  lemma SingletonGapFree(f: File)
    ensures GapFree([f])
  {
    forall a, b | a <= b && MissesAll([f], a, b) ensures BeforeAll([f], b) || AfterAll([f], a) {
      assert f in [f];
    }
  }

  function TotalFileSize(fs: seq<File>): nat {
    if fs == [] then 0 else fs[0].size + TotalFileSize(fs[1..])
  }

  lemma LevelIsLaidOut(v: Levels, l: nat)
    requires Shape(v) && LevelsDisjoint(v) && 1 <= l < |v|
    ensures LaidOut(v[l])
  {
    forall i | 0 <= i < |v[l]| ensures v[l][i].Lo() <= v[l][i].Hi() {
      assert v[l][i] in v[l] && WfFile(v[l][i]);
      FileCovers(v[l][i], v[l][i].entries[0]);
    }
    forall i, j | 0 <= i < j < |v[l]| ensures v[l][i].Hi() < v[l][j].Lo() {
      LevelLaidOut(v[l], i, j);
    }
  }

  lemma RangesAreOrdered(v: Levels)
    requires Shape(v)
    ensures forall l, f :: 0 <= l < |v| && f in v[l] ==> f.Lo() <= f.Hi()
  {
    forall l, f | 0 <= l < |v| && f in v[l] ensures f.Lo() <= f.Hi() {
      assert WfFile(f);
      FileCovers(f, f.entries[0]);
    }
  }

  /** Level-0 inputs are a closed set; a deeper level starts from one file. */
  ghost predicate SeedInputs(v: Levels, level: nat, inputs0: seq<File>)
    requires level < |v|
  {
    && inputs0 != []
    && (forall g :: g in inputs0 ==> g in v[level])
    && GapFree(inputs0)
    && (level == 0 ==> exists lo, hi :: inputs0 == Meeting(v[0], lo, hi) && Closed(v[0], lo, hi))
  }

  lemma SeedIsDisjoint(v: Levels, level: nat, inputs0: seq<File>)
    requires Shape(v) && LevelsDisjoint(v) && level < |v| && SeedInputs(v, level, inputs0)
    ensures forall x, g :: x in v[level] && x !in inputs0 && g in inputs0 ==> DisjointFiles(x, g)
  {
    if level == 0 {
      var lo, hi :| inputs0 == Meeting(v[0], lo, hi) && Closed(v[0], lo, hi);
      MeetingMembers(v[0], lo, hi);
    }
  }

  lemma NextLevelInputs(v: Levels, level: nat, inputs0: seq<File>, inputs1: seq<File>, lo: UserKey, hi: UserKey)
    requires Shape(v) && LevelsDisjoint(v) && level + 1 < |v|
    requires SeedInputs(v, level, inputs0) && IsRange(inputs0, lo, hi)
    requires inputs1 == Meeting(v[level + 1], Some(lo), Some(hi))
    ensures GapFree(inputs0 + inputs1)
    ensures Picked(v, Compaction(level, inputs0, inputs1, v, 0))
  {
    MeetingMembers(v[level + 1], Some(lo), Some(hi));
    GrowGapFree(inputs0, lo, hi, v[level + 1], Some(lo), Some(hi), inputs0 + inputs1);
    SeedIsDisjoint(v, level, inputs0);
  }

  lemma RangeOfKeys(fs: seq<File>, smallest: IKey, largest: IKey)
    requires forall g :: g in fs ==> !Before(g.smallest, smallest) && !Before(largest, g.largest)
    requires exists g :: g in fs && g.smallest == smallest
    requires exists g :: g in fs && g.largest == largest
    ensures IsRange(fs, smallest.ukey, largest.ukey)
  {
  }

  /** An accepted expansion keeps exactly the level+1 inputs there were. */
  lemma ExpansionKeepsNextLevel(inputs0: seq<File>, expanded0: seq<File>, next: seq<File>,
                                narrow: (UserKey, UserKey), wide: (UserKey, UserKey))
    requires IsRange(inputs0, narrow.0, narrow.1) && IsRange(expanded0, wide.0, wide.1)
    requires forall g :: g in inputs0 ==> g in expanded0
    requires |Meeting(next, Some(narrow.0), Some(narrow.1))| == |Meeting(next, Some(wide.0), Some(wide.1))|
    ensures Meeting(next, Some(narrow.0), Some(narrow.1)) == Meeting(next, Some(wide.0), Some(wide.1))
  {
    MeetingWider(next, Some(narrow.0), Some(narrow.1), Some(wide.0), Some(wide.1));
  }

  lemma ExpandedIsSuperset(level: seq<File>, inputs: seq<File>, all: (UserKey, UserKey), lo: Bound, hi: Bound)
    requires IsRange(inputs, all.0, all.1) && Contains(lo, hi, Some(all.0), Some(all.1))
    requires forall g :: g in inputs ==> g.Lo() <= g.Hi()
    ensures forall g :: g in inputs && g in level ==> g in Meeting(level, lo, hi)
  {
    MeetingMembers(level, lo, hi);
  }

  lemma ExpandedIsPicked(upper: seq<File>, lower: seq<File>, inputs0: seq<File>, inputs1: seq<File>,
                         all: (UserKey, UserKey), lo: Bound, hi: Bound, wide: (UserKey, UserKey))
    requires PairwiseDisjoint(upper) || Closed(upper, lo, hi)
    requires GapFree(inputs0 + inputs1) && IsRange(inputs0 + inputs1, all.0, all.1)
    requires Contains(lo, hi, Some(all.0), Some(all.1)) && GrownWithoutGaps(upper, lo, hi, Some(all.0), Some(all.1))
    requires forall g :: g in inputs0 ==> g in Meeting(upper, lo, hi)
    requires Meeting(upper, lo, hi) != [] && IsRange(Meeting(upper, lo, hi), wide.0, wide.1)
    requires inputs1 == Meeting(lower, Some(wide.0), Some(wide.1))
    ensures PickedFrom(upper, lower, Meeting(upper, lo, hi), inputs1)
  {
    var expanded0 := Meeting(upper, lo, hi);
    assert GapFree(expanded0 + inputs1) by {
      GrowGapFree(inputs0 + inputs1, all.0, all.1, upper, lo, hi, expanded0 + inputs1);
    }
    OutsideMeeting(upper, lo, hi, Closed(upper, lo, hi));
    OutsideMeeting(lower, Some(wide.0), Some(wide.1), false);
  }

  /** A file left out by a range has nothing in common with the range, nor with a file inside it. */
  lemma OutsideMeeting(fs: seq<File>, lo: Bound, hi: Bound, closed: bool)
    requires closed ==> Closed(fs, lo, hi)
    ensures forall g :: g in Meeting(fs, lo, hi) ==> g in fs
    ensures forall x, g: File :: x in fs && x !in Meeting(fs, lo, hi) && Contains(lo, hi, Some(g.Lo()), Some(g.Hi()))
              ==> DisjointFiles(x, g)
    ensures closed ==> forall x, g :: x in fs && x !in Meeting(fs, lo, hi) && g in Meeting(fs, lo, hi) ==> DisjointFiles(x, g)
  {
    MeetingMembers(fs, lo, hi);
  }

  /** The attempt of SetupOtherInputs to take in more files of the lower level. */
  method TryExpand(v: Levels, level: nat, inputs0: seq<File>, inputs1: seq<File>,
                   ghost range: (UserKey, UserKey), sizeLimit: nat)
    returns (expanded0: seq<File>, ok: bool, limit: Option<IKey>)
    requires Shape(v) && LevelsDisjoint(v) && level + 1 < |v|
    requires inputs0 != [] && GapFree(inputs0 + inputs1)
    requires forall g :: g in inputs0 ==> g in v[level]
    requires forall g :: g in inputs1 ==> g in v[level + 1]
    requires IsRange(inputs0, range.0, range.1) && inputs1 == Meeting(v[level + 1], Some(range.0), Some(range.1))
    ensures ok ==> Picked(v, Compaction(level, expanded0, inputs1, v, 0))
    ensures ok ==> forall g :: g in inputs0 ==> g in expanded0
    ensures ok ==> limit.Some? && exists g :: g in expanded0 && g.largest == limit.value
  {
    ok, limit := false, None;
    RangesAreOrdered(v);
    var upper, lower := v[level], v[level + 1];
    ghost var ins := inputs0 + inputs1;
    assert forall g :: g in ins ==> g in upper || g in lower;
    var allStart, allLimit := GetRange(inputs0 + inputs1);
    RangeOfKeys(ins, allStart, allLimit);
    ghost var lo, hi;
    expanded0, lo, hi := GetOverlappingInputs(upper, level == 0, Some(allStart.ukey), Some(allLimit.ukey));
    if |expanded0| > |inputs0| && TotalFileSize(inputs1) + TotalFileSize(expanded0) < sizeLimit {
      ghost var all := (allStart.ukey, allLimit.ukey);
      assert forall g :: g in inputs0 ==> g in expanded0 by {
        ExpandedIsSuperset(upper, ins, all, lo, hi);
        assert forall g :: g in inputs0 ==> g in ins;
      }
      var newStart, newLimit := GetRange(expanded0);
      ghost var wide := (newStart.ukey, newLimit.ukey);
      RangeOfKeys(expanded0, newStart, newLimit);
      var expanded1, _, _ := GetOverlappingInputs(lower, false, Some(newStart.ukey), Some(newLimit.ukey));
      if |expanded1| == |inputs1| {
        ok, limit := true, Some(newLimit);
        assert inputs1 == Meeting(lower, Some(wide.0), Some(wide.1)) by {
          ExpansionKeepsNextLevel(inputs0, expanded0, lower, range, wide);
        }
        assert PickedFrom(upper, lower, expanded0, inputs1) by {
          assert level == 0 || PairwiseDisjoint(upper);
          ExpandedIsPicked(upper, lower, inputs0, inputs1, all, lo, hi, wide);
        }
        PickedAt(v, level, expanded0, inputs1);
        hide PickedFrom;
      }
    }
  }

  /** VersionSet::SetupOtherInputs; sizeLimit is ExpandedCompactionByteSizeLimit. */
  method SetupOtherInputs(v: Levels, level: nat, seed: seq<File>, sizeLimit: nat)
    returns (c: Compaction, pointer: IKey)
    requires Shape(v) && LevelsDisjoint(v) && level + 1 < |v| && SeedInputs(v, level, seed)
    ensures c.level == level && c.snapshot == 0 && Picked(v, c)
    ensures forall g :: g in seed ==> g in c.inputs0
    ensures exists lo, hi :: IsRange(seed, lo, hi) && c.inputs1 == Meeting(v[level + 1], Some(lo), Some(hi))
    ensures exists g :: g in c.inputs0 && g.largest == pointer
  {
    RangesAreOrdered(v);
    var smallest, largest := GetRange(seed);
    RangeOfKeys(seed, smallest, largest);
    var inputs1, _, _ := GetOverlappingInputs(v[level + 1], false, Some(smallest.ukey), Some(largest.ukey));
    NextLevelInputs(v, level, seed, inputs1, smallest.ukey, largest.ukey);
    c := Compaction(level, seed, inputs1, v, 0);
    pointer := largest;
    if inputs1 != [] {
      var expanded0, ok, limit := TryExpand(v, level, seed, inputs1, (smallest.ukey, largest.ukey), sizeLimit);
      if ok {
        c := Compaction(level, expanded0, inputs1, v, 0);
        pointer := limit.value;
      }
    }
  }

  /** Why a compaction is due: the level is too big, or one file was sought too often. */
  datatype Trigger = BySize(pointer: Option<IKey>) | BySeek(file: File)

  method PickCompaction(v: Levels, level: nat, why: Trigger, sizeLimit: nat) returns (c: Compaction, pointer: IKey)
    requires Shape(v) && LevelsDisjoint(v) && level + 1 < |v|
    requires why.BySize? ==> v[level] != []
    requires why.BySeek? ==> why.file in v[level]
    ensures c.level == level && c.snapshot == 0 && Picked(v, c)
    ensures why.BySeek? ==> why.file in c.inputs0
    ensures exists g :: g in c.inputs0 && g.largest == pointer
  {
    var f;
    match why {
      case BySize(compactPointer) =>
        f := v[level][0];  // wrap-around to the beginning of the key space
        for i := 0 to |v[level]|
          invariant f in v[level]
        {
          if compactPointer.None? || Before(compactPointer.value, v[level][i].largest) {
            f := v[level][i];
            break;
          }
        }
      case BySeek(file) => f := file;
    }
    var inputs0 := [f];
    SingletonGapFree(f);
    if level == 0 {
      RangesAreOrdered(v);
      var smallest, largest := GetRange(inputs0);
      RangeOfKeys(inputs0, smallest, largest);
      ghost var lo, hi;
      inputs0, lo, hi := GetOverlappingInputs(v[0], true, Some(smallest.ukey), Some(largest.ukey));
      MeetingMembers(v[0], lo, hi);
      assert f in [f];
      GrowGapFree([f], smallest.ukey, largest.ukey, v[0], lo, hi, inputs0);
    }
    assert SeedInputs(v, level, inputs0);
    c, pointer := SetupOtherInputs(v, level, inputs0, sizeLimit);
  }

  /** A file may go to level l only past levels that have no key of its range. */
  ghost predicate Placeable(v: Levels, f: File, l: nat)
    requires |v| == NUM_LEVELS
  {
    l == 0 || (l <= MAX_MEM_COMPACT_LEVEL && forall k, g :: 0 <= k <= l && g in v[k] ==> DisjointFiles(f, g))
  }

  method PickLevelForMemTableOutput(v: Levels, f: File, overlapLimit: nat) returns (level: nat)
    requires Shape(v) && LevelsDisjoint(v) && f.Lo() <= f.Hi()
    ensures Placeable(v, f, level)
  {
    level := 0;
    var lo, hi := Some(f.Lo()), Some(f.Hi());
    var overlap := SomeFileOverlapsRange(false, v[0], lo, hi);
    if !overlap {
      RangesAreOrdered(v);
      while level < MAX_MEM_COMPACT_LEVEL
        invariant level <= MAX_MEM_COMPACT_LEVEL
        invariant forall k, g :: 0 <= k <= level && g in v[k] ==> DisjointFiles(f, g)
      {
        LevelIsLaidOut(v, level + 1);
        overlap := SomeFileOverlapsRange(true, v[level + 1], lo, hi);
        if overlap { break; }
        if level + 2 < NUM_LEVELS {
          var overlaps, _, _ := GetOverlappingInputs(v[level + 2], false, lo, hi);
          if TotalFileSize(overlaps) > overlapLimit { break; }
        }
        level := level + 1;
      }
    }
  }
}
