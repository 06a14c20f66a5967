/** version_edit.cc: the MANIFEST record of a version edit. */
module EditCodec {
  import opened Keys
  import opened Coding
  import opened Tables

  datatype FileEntry = FileEntry(number: nat, size: nat, smallest: Bytes, largest: Bytes)

  /** The fields of VersionEdit; an absent has_ flag is None, and the std::set of deleted files is a set. */
  datatype VersionEdit = VersionEdit(
    comparator: Option<Bytes>, logNumber: Option<nat>, prevLogNumber: Option<nat>, nextFile: Option<nat>, lastSequence: Option<nat>,
    compactPointers: seq<(nat, Bytes)>, deleted: set<(nat, nat)>, newFiles: seq<(nat, FileEntry)>)

  const Empty: VersionEdit := VersionEdit(None, None, None, None, None, [], {}, [])

  /** One tagged field of the encoding. */
  datatype Field = Comparator(name: Bytes) | LogNumber(n: nat) | NextFile(n: nat) | LastSequence(n: nat) | PrevLog(n: nat)
                 | Pointer(level: nat, key: Bytes) | Deleted(level: nat, n: nat) | NewFile(level: nat, file: FileEntry)

  datatype Status = Ok | Corruption

  /** What the widths of the format can hold. */
  predicate Fits(f: Field) {
    match f
    case Comparator(name) => |name| < TWO32
    case LogNumber(n) => n < TWO64
    case NextFile(n) => n < TWO64
    case LastSequence(n) => n < TWO64
    case PrevLog(n) => n < TWO64
    case Pointer(level, key) => level < NUM_LEVELS && |key| < TWO32
    case Deleted(level, n) => level < NUM_LEVELS && n < TWO64
    case NewFile(level, file) =>
      level < NUM_LEVELS && file.number < TWO64 && file.size < TWO64 && |file.smallest| < TWO32 && |file.largest| < TWO32
  }

  function TagOf(f: Field): nat {
    match f
    case Comparator(_) => 1
    case LogNumber(_) => 2
    case NextFile(_) => 3
    case LastSequence(_) => 4
    case Pointer(_, _) => 5
    case Deleted(_, _) => 6
    case NewFile(_, _) => 7
    case PrevLog(_) => 9
  }

  function Body(f: Field): Bytes {
    match f
    case Comparator(name) => Slice(name)
    case LogNumber(n) => Varint(n)
    case NextFile(n) => Varint(n)
    case LastSequence(n) => Varint(n)
    case PrevLog(n) => Varint(n)
    case Pointer(level, key) => Varint(level) + Slice(key)
    case Deleted(level, n) => Varint(level) + Varint(n)
    case NewFile(level, file) => Varint(level) + Varint(file.number) + Varint(file.size) + Slice(file.smallest) + Slice(file.largest)
  }

  function EncodeField(f: Field): Bytes { Varint(TagOf(f)) + Body(f) }

  function GetLevel(s: Bytes): Option<(nat, Bytes)> {
    match GetVarint32(s)
    case None => None
    case Some((v, rest)) => if v < NUM_LEVELS then Some((v, rest)) else None
  }

  function DecodeNumber(tag: nat, s: Bytes): Option<(Field, Bytes)>
    requires tag in {2, 3, 4, 9}
  {
    match GetVarint64(s)
    case None => None
    case Some((n, rest)) =>
      Some((if tag == 2 then LogNumber(n) else if tag == 3 then NextFile(n) else if tag == 4 then LastSequence(n) else PrevLog(n), rest))
  }

  function DecodeNewFile(s: Bytes): Option<(Field, Bytes)> {
    match GetLevel(s)
    case None => None
    case Some((level, s1)) =>
      match GetVarint64(s1)
      case None => None
      case Some((number, s2)) =>
        match GetVarint64(s2)
        case None => None
        case Some((size, s3)) =>
          match GetSlice(s3)
          case None => None
          case Some((smallest, s4)) =>
            match GetSlice(s4)
            case None => None
            case Some((largest, s5)) => Some((NewFile(level, FileEntry(number, size, smallest, largest)), s5))
  }

  /** One case of the switch in DecodeFrom: the field after its tag, or an error. */
  function DecodeBody(tag: nat, s: Bytes): Option<(Field, Bytes)> {
    if tag == 1 then
      match GetSlice(s) case None => None case Some((name, rest)) => Some((Comparator(name), rest))
    else if tag in {2, 3, 4, 9} then DecodeNumber(tag, s)
    else if tag == 5 then
      match GetLevel(s)
      case None => None
      case Some((level, s1)) =>
        match GetSlice(s1) case None => None case Some((key, rest)) => Some((Pointer(level, key), rest))
    else if tag == 6 then
      match GetLevel(s)
      case None => None
      case Some((level, s1)) =>
        match GetVarint64(s1) case None => None case Some((n, rest)) => Some((Deleted(level, n), rest))
    else if tag == 7 then DecodeNewFile(s)
    else None
  }

  lemma LevelRoundTrip(level: nat, rest: Bytes)
    requires level < NUM_LEVELS
    ensures GetLevel(Varint(level) + rest) == Some((level, rest))
  {
    hide GetVarint32;
    Varint32RoundTrip(level, rest);
  }

  lemma NewFileRoundTrip(level: nat, file: FileEntry, rest: Bytes)
    requires Fits(NewFile(level, file))
    ensures DecodeNewFile(Body(NewFile(level, file)) + rest) == Some((NewFile(level, file), rest))
  {
    hide GetLevel, GetVarint64, GetSlice, Varint, Slice;
    var s4 := Slice(file.largest) + rest;
    var s3 := Slice(file.smallest) + s4;
    var s2 := Varint(file.size) + s3;
    var s1 := Varint(file.number) + s2;
    LevelRoundTrip(level, s1);
    Varint64RoundTrip(file.number, s2);
    Varint64RoundTrip(file.size, s3);
    SliceRoundTrip(file.smallest, s4);
    SliceRoundTrip(file.largest, rest);
    Regroup(Varint(level), Varint(file.number), Varint(file.size), Slice(file.smallest), Slice(file.largest), rest);
  }

  lemma Regroup(a: Bytes, b: Bytes, c: Bytes, d: Bytes, e: Bytes, t: Bytes)
    ensures a + b + c + d + e + t == a + (b + (c + (d + (e + t))))
  {
    assert a + b + c + d + e + t == (a + b) + (c + (d + (e + t)));
    assert (a + b) + (c + (d + (e + t))) == a + (b + (c + (d + (e + t))));
  }

  lemma BodyRoundTrip(f: Field, rest: Bytes)
    requires Fits(f)
    ensures DecodeBody(TagOf(f), Body(f) + rest) == Some((f, rest))
  {
    hide GetLevel, GetVarint64, GetSlice, Varint, Slice, DecodeNewFile;
    match f {
      case Comparator(name) => SliceRoundTrip(name, rest);
      case LogNumber(n) => Varint64RoundTrip(n, rest);
      case NextFile(n) => Varint64RoundTrip(n, rest);
      case LastSequence(n) => Varint64RoundTrip(n, rest);
      case PrevLog(n) => Varint64RoundTrip(n, rest);
      case Pointer(level, key) =>
        LevelRoundTrip(level, Slice(key) + rest);
        SliceRoundTrip(key, rest);
        assert Varint(level) + Slice(key) + rest == Varint(level) + (Slice(key) + rest);
      case Deleted(level, n) =>
        LevelRoundTrip(level, Varint(n) + rest);
        Varint64RoundTrip(n, rest);
        assert Varint(level) + Varint(n) + rest == Varint(level) + (Varint(n) + rest);
      case NewFile(level, file) => NewFileRoundTrip(level, file, rest);
    }
  }

  // ---------- the whole edit ----------

  /** Storing one decoded field. */
  function Stored(e: VersionEdit, f: Field): VersionEdit {
    match f
    case Comparator(name) => e.(comparator := Some(name))
    case LogNumber(n) => e.(logNumber := Some(n))
    case NextFile(n) => e.(nextFile := Some(n))
    case LastSequence(n) => e.(lastSequence := Some(n))
    case PrevLog(n) => e.(prevLogNumber := Some(n))
    case Pointer(level, key) => e.(compactPointers := e.compactPointers + [(level, key)])
    case Deleted(level, n) => e.(deleted := e.deleted + {(level, n)})
    case NewFile(level, file) => e.(newFiles := e.newFiles + [(level, file)])
  }

  function StoredAll(e: VersionEdit, fs: seq<Field>): VersionEdit {
    if fs == [] then e else Stored(StoredAll(e, fs[..|fs| - 1]), fs[|fs| - 1])
  }

  function EncodeFields(fs: seq<Field>): Bytes {
    if fs == [] then [] else EncodeFields(fs[..|fs| - 1]) + EncodeField(fs[|fs| - 1])
  }

  /** Clear keeps compact_pointers_. */
  function Cleared(e: VersionEdit): VersionEdit { Empty.(compactPointers := e.compactPointers) }

  /** What DecodeFrom makes of the rest of its input. */
  function Decoded(e: VersionEdit, input: Bytes): (VersionEdit, Status)
    decreases |input|
  {
    match GetVarint32(input)
    case None => (e, if input == [] then Ok else Corruption)
    case Some((tag, body)) =>
      match DecodeBody(tag, body)
      case None => (e, Corruption)
      case Some((f, rest)) => if |rest| < |input| then Decoded(Stored(e, f), rest) else (e, Corruption)
  }

  /** A decoded field leaves less input. */
  lemma DecodeShrinks(tag: nat, s: Bytes)
    ensures DecodeBody(tag, s).Some? ==> |DecodeBody(tag, s).value.1| <= |s|
  {
  }

  method DecodeFrom(e0: VersionEdit, src: Bytes) returns (e: VersionEdit, status: Status)
    ensures (e, status) == Decoded(Cleared(e0), src)
  {
    hide GetVarint32, DecodeBody, Stored;
    e := Empty.(compactPointers := e0.compactPointers);
    var input := src;
    while true
      invariant Decoded(e, input) == Decoded(Cleared(e0), src)
      decreases |input|
    {
      var tag := GetVarint32(input);
      if tag.None? {
        return e, if input == [] then Ok else Corruption;
      }
      var field := DecodeBody(tag.value.0, tag.value.1);
      if field.None? {
        return e, Corruption;
      }
      TagShrinks(input);
      DecodeShrinks(tag.value.0, tag.value.1);
      e := Stored(e, field.value.0);
      input := field.value.1;
    }
  }

  lemma TagShrinks(s: Bytes)
    ensures GetVarint32(s).Some? ==> |GetVarint32(s).value.1| < |s|
  {
  }

  lemma DecodedField(e: VersionEdit, f: Field, rest: Bytes)
    requires Fits(f)
    ensures Decoded(e, EncodeField(f) + rest) == Decoded(Stored(e, f), rest)
  {
    hide GetVarint32, DecodeBody, Stored, Varint, Body;
    Varint32RoundTrip(TagOf(f), Body(f) + rest);
    BodyRoundTrip(f, rest);
    assert EncodeField(f) + rest == Varint(TagOf(f)) + (Body(f) + rest);
    assert |Varint(TagOf(f))| > 0;
  }

  lemma {:induction false} DecodedFields(e: VersionEdit, fs: seq<Field>, rest: Bytes)
    requires forall i :: 0 <= i < |fs| ==> Fits(fs[i])
    ensures Decoded(e, EncodeFields(fs) + rest) == Decoded(StoredAll(e, fs), rest)
  {
    hide Decoded, EncodeField, Stored, Fits;
    if fs == [] {
      assert EncodeFields(fs) + rest == rest;
    } else {
      var init, f := fs[..|fs| - 1], fs[|fs| - 1];
      assert EncodeFields(fs) + rest == EncodeFields(init) + (EncodeField(f) + rest);
      DecodedFields(e, init, EncodeField(f) + rest);
      DecodedField(StoredAll(e, init), f, rest);
    }
  }

  // ---------- the fields of an edit, in the order EncodeTo writes them ----------

  function Header(e: VersionEdit): seq<Field> {
    (if e.comparator.Some? then [Comparator(e.comparator.value)] else [])
    + (if e.logNumber.Some? then [LogNumber(e.logNumber.value)] else [])
    + (if e.prevLogNumber.Some? then [PrevLog(e.prevLogNumber.value)] else [])
    + (if e.nextFile.Some? then [NextFile(e.nextFile.value)] else [])
    + (if e.lastSequence.Some? then [LastSequence(e.lastSequence.value)] else [])
  }

  function Pointers(ps: seq<(nat, Bytes)>): (fs: seq<Field>)
    ensures |fs| == |ps|
  {
    seq(|ps|, i requires 0 <= i < |ps| => Pointer(ps[i].0, ps[i].1))
  }

  function Deletions(ds: seq<(nat, nat)>): (fs: seq<Field>)
    ensures |fs| == |ds|
  {
    seq(|ds|, i requires 0 <= i < |ds| => Deleted(ds[i].0, ds[i].1))
  }

  function Additions(ns: seq<(nat, FileEntry)>): (fs: seq<Field>)
    ensures |fs| == |ns|
  {
    seq(|ns|, i requires 0 <= i < |ns| => NewFile(ns[i].0, ns[i].1))
  }

  /** order is the order in which the set of deleted files is walked. */
  function Fields(e: VersionEdit, order: seq<(nat, nat)>): seq<Field> {
    Header(e) + Pointers(e.compactPointers) + Deletions(order) + Additions(e.newFiles)
  }

  ghost predicate Enumerates(order: seq<(nat, nat)>, deleted: set<(nat, nat)>) { forall d :: d in order <==> d in deleted }

  lemma {:induction false} StoredAppend(e: VersionEdit, a: seq<Field>, b: seq<Field>)
    ensures StoredAll(e, a + b) == StoredAll(StoredAll(e, a), b)
  {
    if b == [] {
      assert a + b == a;
    } else {
      var n := |b| - 1;
      assert (a + b)[..|a + b| - 1] == a + b[..n];
      StoredAppend(e, a, b[..n]);
    }
  }

  lemma {:induction false} StoredPointers(e: VersionEdit, ps: seq<(nat, Bytes)>)
    ensures StoredAll(e, Pointers(ps)) == e.(compactPointers := e.compactPointers + ps)
  {
    if ps == [] {
      assert e.compactPointers + [] == e.compactPointers;
    } else {
      var n := |ps| - 1;
      StoredPointers(e, ps[..n]);
      assert Pointers(ps)[..n] == Pointers(ps[..n]);
      assert ps == ps[..n] + [ps[n]];
    }
  }

  ghost function ElementsOf(ds: seq<(nat, nat)>): set<(nat, nat)> { set d | d in ds }

  lemma ElementsStep(ds: seq<(nat, nat)>)
    requires ds != []
    ensures ElementsOf(ds) == ElementsOf(ds[..|ds| - 1]) + {ds[|ds| - 1]}
  {
    assert ds == ds[..|ds| - 1] + [ds[|ds| - 1]];
  }

  lemma {:induction false} StoredDeletions(e: VersionEdit, ds: seq<(nat, nat)>)
    ensures StoredAll(e, Deletions(ds)) == e.(deleted := e.deleted + ElementsOf(ds))
  {
    if ds == [] {
      assert e.deleted + ElementsOf(ds) == e.deleted;
    } else {
      var n := |ds| - 1;
      StoredDeletions(e, ds[..n]);
      ElementsStep(ds);
      hide ElementsOf;
      assert Deletions(ds)[..n] == Deletions(ds[..n]);
      assert e.deleted + (ElementsOf(ds[..n]) + {ds[n]}) == (e.deleted + ElementsOf(ds[..n])) + {ds[n]};
    }
  }

  lemma {:induction false} StoredAdditions(e: VersionEdit, ns: seq<(nat, FileEntry)>)
    ensures StoredAll(e, Additions(ns)) == e.(newFiles := e.newFiles + ns)
  {
    if ns == [] {
      assert e.newFiles + [] == e.newFiles;
    } else {
      var n := |ns| - 1;
      StoredAdditions(e, ns[..n]);
      assert Additions(ns)[..n] == Additions(ns[..n]);
      assert ns == ns[..n] + [ns[n]];
    }
  }

  lemma StoredHeader(e0: VersionEdit, e: VersionEdit)
    ensures StoredAll(Cleared(e0), Header(e))
            == VersionEdit(e.comparator, e.logNumber, e.prevLogNumber, e.nextFile, e.lastSequence, e0.compactPointers, {}, [])
  {
    var c := if e.comparator.Some? then [Comparator(e.comparator.value)] else [];
    var l := if e.logNumber.Some? then [LogNumber(e.logNumber.value)] else [];
    var p := if e.prevLogNumber.Some? then [PrevLog(e.prevLogNumber.value)] else [];
    var n := if e.nextFile.Some? then [NextFile(e.nextFile.value)] else [];
    var s := if e.lastSequence.Some? then [LastSequence(e.lastSequence.value)] else [];
    var z := Cleared(e0);
    StoredAppend(z, c + l + p + n, s);
    StoredAppend(z, c + l + p, n);
    StoredAppend(z, c + l, p);
    StoredAppend(z, c, l);
    StoredOne(z, c);
    StoredOne(StoredAll(z, c), l);
    StoredOne(StoredAll(z, c + l), p);
    StoredOne(StoredAll(z, c + l + p), n);
    StoredOne(StoredAll(z, c + l + p + n), s);
  }

  lemma StoredOne(e: VersionEdit, fs: seq<Field>)
    requires |fs| <= 1
    ensures StoredAll(e, fs) == if fs == [] then e else Stored(e, fs[0])
  {
    if fs != [] { assert fs[..0] == []; }
  }

  ghost predicate FitsEdit(e: VersionEdit, order: seq<(nat, nat)>) {
    forall i :: 0 <= i < |Fields(e, order)| ==> Fits(Fields(e, order)[i])
  }

  /** EncodeTo, appending to an empty string. */
  function EncodeTo(e: VersionEdit, order: seq<(nat, nat)>): Bytes { EncodeFields(Fields(e, order)) }

  /** EncodeTo as it is written: each field in turn is appended to dst. */
  method AppendEncoded(dst: Bytes, e: VersionEdit, order: seq<(nat, nat)>) returns (r: Bytes)
    ensures r == dst + EncodeTo(e, order)
  {
    hide EncodeField, EncodeFields;
    NoFields();
    r := dst;
    ghost var done: seq<Field> := [];
    if e.comparator.Some? { r := AppendField(r, Comparator(e.comparator.value), dst, done); done := done + [Comparator(e.comparator.value)]; }
    if e.logNumber.Some? { r := AppendField(r, LogNumber(e.logNumber.value), dst, done); done := done + [LogNumber(e.logNumber.value)]; }
    if e.prevLogNumber.Some? { r := AppendField(r, PrevLog(e.prevLogNumber.value), dst, done); done := done + [PrevLog(e.prevLogNumber.value)]; }
    if e.nextFile.Some? { r := AppendField(r, NextFile(e.nextFile.value), dst, done); done := done + [NextFile(e.nextFile.value)]; }
    if e.lastSequence.Some? { r := AppendField(r, LastSequence(e.lastSequence.value), dst, done); done := done + [LastSequence(e.lastSequence.value)]; }
    assert done == Header(e);
    r := AppendLists(r, e, order, dst);
  }

  /** The three loops of EncodeTo. */
  method AppendLists(r0: Bytes, e: VersionEdit, order: seq<(nat, nat)>, ghost dst: Bytes) returns (r: Bytes)
    requires r0 == dst + EncodeFields(Header(e))
    ensures r == dst + EncodeTo(e, order)
  {
    hide EncodeField, EncodeFields, Header;
    r := r0;
    ghost var h, p, d, a := Header(e), Pointers(e.compactPointers), Deletions(order), Additions(e.newFiles);
    assert h + p[..0] == h;
    for i := 0 to |e.compactPointers|
      invariant r == dst + EncodeFields(h + p[..i])
    {
      r := AppendField(r, Pointer(e.compactPointers[i].0, e.compactPointers[i].1), dst, h + p[..i]);
      assert h + p[..i + 1] == h + p[..i] + [p[i]];
    }
    assert h + p[..|p|] == h + p && h + p + d[..0] == h + p;
    for i := 0 to |order|
      invariant r == dst + EncodeFields(h + p + d[..i])
    {
      r := AppendField(r, Deleted(order[i].0, order[i].1), dst, h + p + d[..i]);
      assert h + p + d[..i + 1] == h + p + d[..i] + [d[i]];
    }
    assert h + p + d[..|d|] == h + p + d && h + p + d + a[..0] == h + p + d;
    for i := 0 to |e.newFiles|
      invariant r == dst + EncodeFields(h + p + d + a[..i])
    {
      r := AppendField(r, NewFile(e.newFiles[i].0, e.newFiles[i].1), dst, h + p + d + a[..i]);
      assert h + p + d + a[..i + 1] == h + p + d + a[..i] + [a[i]];
    }
    assert h + p + d + a[..|a|] == Fields(e, order);
  }

  lemma NoFields()
    ensures EncodeFields([]) == []
  {
  }

  method AppendField(r0: Bytes, f: Field, ghost dst: Bytes, ghost done: seq<Field>) returns (r: Bytes)
    requires r0 == dst + EncodeFields(done)
    ensures r == dst + EncodeFields(done + [f])
  {
    hide EncodeField, EncodeFields;
    OneMoreField(done, f);
    r := r0 + EncodeField(f);
  }

  lemma OneMoreField(done: seq<Field>, f: Field)
    ensures EncodeFields(done + [f]) == EncodeFields(done) + EncodeField(f)
  {
    hide EncodeField;
    assert (done + [f])[..|done|] == done;
  }

  lemma FieldsRebuild(e0: VersionEdit, e: VersionEdit, order: seq<(nat, nat)>)
    requires Enumerates(order, e.deleted)
    ensures StoredAll(Cleared(e0), Fields(e, order)) == e.(compactPointers := e0.compactPointers + e.compactPointers)
  {
    var z, h, p, d, a := Cleared(e0), Header(e), Pointers(e.compactPointers), Deletions(order), Additions(e.newFiles);
    StoredAppend(z, h + p + d, a);
    StoredAppend(z, h + p, d);
    StoredAppend(z, h, p);
    StoredHeader(e0, e);
    hide StoredAll, Header, Pointers, Deletions, Additions;
    var e1 := StoredAll(z, h);
    StoredPointers(e1, e.compactPointers);
    var e2 := StoredAll(z, h + p);
    StoredDeletions(e2, order);
    var e3 := StoredAll(z, h + p + d);
    StoredAdditions(e3, e.newFiles);
    assert e2.deleted + ElementsOf(order) == e.deleted;
    assert e3.newFiles + e.newFiles == e.newFiles;
  }

  /** Decoding an encoded edit gives it back, except that compaction pointers already there stay in front. */
  lemma EditRoundTrip(e0: VersionEdit, e: VersionEdit, order: seq<(nat, nat)>)
    requires Enumerates(order, e.deleted) && FitsEdit(e, order)
    ensures Decoded(Cleared(e0), EncodeTo(e, order)) == (e.(compactPointers := e0.compactPointers + e.compactPointers), Ok)
  {
    var fs := Fields(e, order);
    hide Fields, EncodeFields, StoredAll, Cleared;
    DecodedFields(Cleared(e0), fs, []);
    assert EncodeFields(fs) + [] == EncodeFields(fs);
    FieldsRebuild(e0, e, order);
    NothingToDecode(StoredAll(Cleared(e0), fs));
  }

  lemma NothingToDecode(e: VersionEdit)
    ensures Decoded(e, []) == (e, Ok)
  {
  }

  /** The round trip is the identity exactly for a target without compaction pointers, such as a fresh edit. */
  lemma IdentityIffNoPointers(e0: VersionEdit, e: VersionEdit, order: seq<(nat, nat)>)
    requires Enumerates(order, e.deleted) && FitsEdit(e, order)
    ensures Decoded(Cleared(e0), EncodeTo(e, order)) == (e, Ok) <==> e0.compactPointers == []
  {
    EditRoundTrip(e0, e, order);
    hide Decoded, EncodeTo;
    assert |e0.compactPointers + e.compactPointers| == |e0.compactPointers| + |e.compactPointers|;
    assert [] + e.compactPointers == e.compactPointers;
  }
}
