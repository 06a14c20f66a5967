/** log_reader.cc with initial offset 0, and what it makes of any prefix of a written log. */
module LogReading {
  import opened Keys
  import opened Coding
  import opened LogFormat

  /** buffer_, the unread part of the file, eof_, and how many corruptions have been reported. */
  datatype State = State(buf: Bytes, rest: Bytes, eof: bool, reports: nat)

  datatype Fragment = Fragment(t: int, data: Bytes)

  function Remaining(s: State): nat { |s.buf| + |s.rest| }

  /** The type byte as the source widens it: a signed char made unsigned. */
  function Widened(b: byte): int { if b < 128 then b as int else b as int + 0xffff_ff00 }

  /** One block is read from the file. */
  function Refilled(s: State): (s': State)
    requires !s.eof
    ensures Remaining(s') <= |s.rest|
    ensures |s'.rest| < |s.rest| || s'.eof
  {
    var n := if |s.rest| < BLOCK_SIZE then |s.rest| else BLOCK_SIZE;
    State(s.rest[..n], s.rest[n..], n < BLOCK_SIZE, s.reports)
  }

  function Parse(crc: Crc, s: State): (r: (Fragment, State))
    requires |s.buf| >= HEADER_SIZE
    ensures Remaining(r.1) < Remaining(s)
  {
    var length := s.buf[4] as nat + 256 * s.buf[5] as nat;
    var t := s.buf[6];
    var dropped := s.(buf := []);
    if HEADER_SIZE + length > |s.buf| then
      if !s.eof then (Fragment(BAD_RECORD, []), dropped.(reports := s.reports + 1)) else (Fragment(EOF, []), dropped)
    else if t == 0 && length == 0 then (Fragment(BAD_RECORD, []), dropped)
    else if crc(s.buf[6..7 + length]) != Unmask(DecodedCrc(s.buf[..4])) then
      (Fragment(BAD_RECORD, []), dropped.(reports := s.reports + 1))
    else (Fragment(Widened(t), s.buf[7..7 + length]), s.(buf := s.buf[7 + length..]))
  }

  function DecodedCrc(s: Bytes): uint32
    requires |s| == 4
  {
    FixedOfDecoded(s);
    Powers();
    DecodeFixed(s)
  }

  /** ReadPhysicalRecord. */
  function ReadPhysical(crc: Crc, s: State): (r: (Fragment, State))
    ensures Remaining(r.1) <= Remaining(s)
    ensures r.0.t != EOF ==> Remaining(r.1) < Remaining(s)
    decreases |s.rest| + if s.eof then 0 else 1
  {
    if |s.buf| >= HEADER_SIZE then Parse(crc, s)
    else if s.eof then (Fragment(EOF, []), s.(buf := []))
    else ReadPhysical(crc, Refilled(s))
  }

  /** The loop of ReadRecord, with what it has collected so far. */
  function ReadFrom(crc: Crc, s: State, scratch: Bytes, inFragmented: bool): (r: (Option<Bytes>, State))
    ensures r.0.Some? ==> Remaining(r.1) < Remaining(s)
    decreases Remaining(s)
  {
    var (f, s1) := ReadPhysical(crc, s);
    var reported := s1.(reports := s1.reports + 1);
    if f.t == FULL_TYPE then (Some(f.data), if inFragmented && scratch != [] then reported else s1)
    else if f.t == FIRST_TYPE then ReadFrom(crc, if inFragmented && scratch != [] then reported else s1, f.data, true)
    else if f.t == MIDDLE_TYPE then
      if inFragmented then ReadFrom(crc, s1, scratch + f.data, true) else ReadFrom(crc, reported, scratch, false)
    else if f.t == LAST_TYPE then
      if inFragmented then (Some(scratch + f.data), s1) else ReadFrom(crc, reported, scratch, false)
    else if f.t == EOF then (None, s1)
    else if f.t == BAD_RECORD then ReadFrom(crc, if inFragmented then reported else s1, if inFragmented then [] else scratch, false)
    else ReadFrom(crc, reported, [], false)
  }

  function NextRecord(crc: Crc, s: State): (r: (Option<Bytes>, State))
    ensures r.0.Some? ==> Remaining(r.1) < Remaining(s)
  {
    ReadFrom(crc, s, [], false)
  }

  /** All records up to the first failing ReadRecord, and the state then. */
  function ReadAll(crc: Crc, s: State): (seq<Bytes>, State)
    decreases Remaining(s)
  {
    var (r, s1) := NextRecord(crc, s);
    match r
    case None => ([], s1)
    case Some(x) => var (xs, s2) := ReadAll(crc, s1); ([x] + xs, s2)
  }

  function Opened(file: Bytes): State { State([], file, false, 0) }

  // ---------- the reader as it is written ----------

  class Reader {
    const crc: Crc
    var buffer: Bytes
    var file: Bytes
    var eof: bool
    var reports: nat

    function St(): State
      reads this
    {
      State(buffer, file, eof, reports)
    }

    constructor (crc: Crc, file: Bytes)
      ensures St() == Opened(file) && this.crc == crc
    {
      this.crc := crc;
      buffer, this.file, eof, reports := [], file, false, 0;
    }

    method ReadPhysicalRecord() returns (t: int, data: Bytes)
      modifies this
      ensures (Fragment(t, data), St()) == ReadPhysical(crc, old(St()))
    {
      hide Parse;
      while true
        invariant ReadPhysical(crc, St()) == ReadPhysical(crc, old(St()))
        decreases |file| + if eof then 0 else 1
      {
        if |buffer| < HEADER_SIZE {
          if !eof {
            var n := if |file| < BLOCK_SIZE then |file| else BLOCK_SIZE;
            buffer, file := file[..n], file[n..];
            if |buffer| < BLOCK_SIZE { eof := true; }
            continue;
          } else {
            buffer := [];
            return EOF, [];
          }
        }
        t, data := ParseRecord();
        return;
      }
    }

    method ParseRecord() returns (t: int, data: Bytes)
      requires |buffer| >= HEADER_SIZE
      modifies this
      ensures (Fragment(t, data), St()) == Parse(crc, old(St()))
    {
      var a, b := buffer[4] as nat, buffer[5] as nat;
      var kind := buffer[6];
      var length := a + 256 * b;
      if HEADER_SIZE + length > |buffer| {
        buffer := [];
        if !eof {
          reports := reports + 1;
          return BAD_RECORD, [];
        }
        return EOF, [];
      }
      if kind == 0 && length == 0 {
        buffer := [];
        return BAD_RECORD, [];
      }
      var expected := Unmask(DecodedCrc(buffer[..4]));
      var actual := crc(buffer[6..7 + length]);
      if actual != expected {
        buffer := [];
        reports := reports + 1;
        return BAD_RECORD, [];
      }
      t, data := Widened(kind), buffer[7..7 + length];
      buffer := buffer[7 + length..];
    }

    method ReadRecord() returns (record: Option<Bytes>)
      modifies this
      ensures (record, St()) == NextRecord(crc, old(St()))
    {
      hide ReadPhysical;
      var scratch: Bytes, inFragmented := [], false;
      while true
        invariant ReadFrom(crc, St(), scratch, inFragmented) == NextRecord(crc, old(St()))
        decreases Remaining(St())
      {
        var t, data := ReadPhysicalRecord();
        if t == FULL_TYPE {
          if inFragmented {
            if scratch == [] { inFragmented := false; } else { reports := reports + 1; }
          }
          return Some(data);
        } else if t == FIRST_TYPE {
          if inFragmented {
            if scratch == [] { inFragmented := false; } else { reports := reports + 1; }
          }
          scratch, inFragmented := data, true;
        } else if t == MIDDLE_TYPE {
          if !inFragmented { reports := reports + 1; } else { scratch := scratch + data; }
        } else if t == LAST_TYPE {
          if !inFragmented {
            reports := reports + 1;
          } else {
            scratch := scratch + data;
            return Some(scratch);
          }
        } else if t == EOF {
          return None;
        } else if t == BAD_RECORD {
          if inFragmented {
            reports := reports + 1;
            inFragmented, scratch := false, [];
          }
        } else {
          reports := reports + 1;
          inFragmented, scratch := false, [];
        }
      }
    }

    /** The reading loop of RecoverLogFile. */
    method ReadRecords() returns (records: seq<Bytes>)
      modifies this
      ensures (records, St()) == ReadAll(crc, old(St()))
    {
      hide ReadFrom;
      records := [];
      assert [] + ReadAll(crc, St()).0 == ReadAll(crc, St()).0;
      while true
        invariant var (xs, s) := ReadAll(crc, St()); (records + xs, s) == ReadAll(crc, old(St()))
        decreases Remaining(St())
      {
        var r := ReadRecord();
        if r.None? {
          assert records + [] == records;
          return;
        }
        ghost var later := ReadAll(crc, St()).0;
        assert records + ([r.value] + later) == (records + [r.value]) + later;
        records := records + [r.value];
      }
    }
  }

  // ---------- reading a prefix of what a writer wrote ----------

  /** The reader stands where the writer stood at offset off of its block, with u left of the file. */
  ghost predicate At(s: State, off: nat, u: Bytes) {
    && off <= BLOCK_SIZE && s.buf + s.rest == u
    && |s.buf| == (if |u| < BLOCK_SIZE - off then |u| else BLOCK_SIZE - off)
    && (s.eof <==> |u| < BLOCK_SIZE - off)
  }

  /** The bytes of one fragment parse back. */
  lemma ParsePhysical(crc: Crc, s: State, t: byte, data: Bytes, tail: Bytes)
    requires |data| <= 0xffff && 1 <= t <= 4 && s.buf == Physical(crc, t, data) + tail
    ensures Parse(crc, s) == (Fragment(t as int, data), s.(buf := tail))
  {
    var header := Fixed(4, Mask(crc([t] + data)));
    Fixed32RoundTrip(Mask(crc([t] + data)));
    UnmaskOfMask(crc([t] + data));
    hide Fixed, DecodeFixed, Mask, Unmask;
    var n := |data|;
    assert s.buf == header + [(n % 256) as byte, (n / 256) as byte, t] + data + tail;
    assert s.buf[..4] == header;
    assert s.buf[4] as nat + 256 * s.buf[5] as nat == n && s.buf[6] == t;
    assert s.buf[6..7 + n] == [t] + data;
    assert s.buf[7..7 + n] == data && s.buf[7 + n..] == tail;
  }

  /** Refilling at the end of a block. */
  lemma RefillAt(s: State, off: nat, u: Bytes)
    requires At(s, off, u) && !s.eof && |s.buf| < HEADER_SIZE
    ensures BLOCK_SIZE - off < HEADER_SIZE && |u| >= BLOCK_SIZE - off && At(Refilled(s), 0, u[BLOCK_SIZE - off..])
  {
    assert s.rest == u[BLOCK_SIZE - off..];
    var n := if |s.rest| < BLOCK_SIZE then |s.rest| else BLOCK_SIZE;
    assert s.rest[..n] + s.rest[n..] == s.rest;
  }

  /** A fragment whose bytes are all there is read; one that is cut off reads as the end of the file. */
  lemma FragmentInBlock(crc: Crc, s: State, off: nat, t: byte, data: Bytes, u: Bytes, tail: Bytes)
    requires At(s, off, u) && off + HEADER_SIZE + |data| <= BLOCK_SIZE && 1 <= t <= 4
    requires u <= Physical(crc, t, data) + tail
    ensures var (f, s1) := ReadPhysical(crc, s); var n := HEADER_SIZE + |data|;
            s1.reports == s.reports
            && if |u| >= n then f == Fragment(t as int, data) && At(s1, off + n, u[n..]) else f.t == EOF
  {
    var p, n := Physical(crc, t, data), HEADER_SIZE + |data|;
    if |u| >= n {
      assert u[..n] == p;
      assert s.buf == u[..|s.buf|];
      assert s.buf == p + s.buf[n..];
      ParsePhysical(crc, s, t, data, s.buf[n..]);
      assert s.buf[n..] + s.rest == u[n..];
    } else if |s.buf| >= HEADER_SIZE {
      assert s.buf == u && s.buf[4] == p[4] && s.buf[5] == p[5];
      HeaderLength(crc, t, data);
    }
  }

  lemma HeaderLength(crc: Crc, t: byte, data: Bytes)
    requires |data| <= 0xffff
    ensures Physical(crc, t, data)[4] as nat + 256 * Physical(crc, t, data)[5] as nat == |data|
  {
  }

  lemma FragmentAnywhere(crc: Crc, s: State, off: nat, t: byte, data: Bytes, u: Bytes, tail: Bytes)
    requires At(s, off, u) && Start(off) + HEADER_SIZE + |data| <= BLOCK_SIZE && 1 <= t <= 4
    requires u <= Trailer(off) + Physical(crc, t, data) + tail
    ensures var (f, s1) := ReadPhysical(crc, s); var n := |Trailer(off)| + HEADER_SIZE + |data|;
            s1.reports == s.reports
            && if |u| >= n then f == Fragment(t as int, data) && At(s1, Start(off) + HEADER_SIZE + |data|, u[n..]) else f.t == EOF
  {
    hide Physical, Parse;
    if BLOCK_SIZE - off >= HEADER_SIZE {
      assert Trailer(off) + Physical(crc, t, data) + tail == Physical(crc, t, data) + tail;
      FragmentInBlock(crc, s, off, t, data, u, tail);
    } else if !s.eof {
      RefillAt(s, off, u);
      var k := BLOCK_SIZE - off;
      assert u[k..] <= Physical(crc, t, data) + tail by {
        assert (Trailer(off) + Physical(crc, t, data) + tail)[k..] == Physical(crc, t, data) + tail;
      }
      FragmentInBlock(crc, Refilled(s), 0, t, data, u[k..], tail);
      assert |u| >= k + HEADER_SIZE + |data| ==> u[k..][HEADER_SIZE + |data|..] == u[k + HEADER_SIZE + |data|..];
    }
  }

  /** What ReadRecord does with a fragment that comes in its turn. */
  lemma FragmentInTurn(crc: Crc, s: State, scratch: Bytes, begin: bool, end: bool, f: Fragment, s1: State)
    requires ReadPhysical(crc, s) == (f, s1) && (begin ==> scratch == [])
    ensures f.t == TypeOf(begin, end) ==>
              ReadFrom(crc, s, scratch, !begin)
              == if end then (Some(scratch + f.data), s1) else ReadFrom(crc, s1, scratch + f.data, true)
    ensures f.t == EOF ==> ReadFrom(crc, s, scratch, !begin) == (None, s1)
  {
    hide ReadPhysical;
    assert begin ==> scratch + f.data == f.data;
  }

  lemma EmittedSplit(crc: Crc, off: nat, data: Bytes, begin: bool, more: Bytes, tail: Bytes)
    requires off <= BLOCK_SIZE
    requires var k := FragmentLength(off, |data|);
             more == if k == |data| then [] else Emitted(crc, After(off, |data|), data[k..], false)
    ensures var k := FragmentLength(off, |data|);
            Emitted(crc, off, data, begin) + tail
            == Trailer(off) + Physical(crc, TypeOf(begin, k == |data|) as byte, data[..k]) + (more + tail)
    ensures |Emitted(crc, off, data, begin)| == |LogFormat.Fragment(crc, off, data, begin)| + |more|
  {
    hide Physical;
    EmittedStep(crc, off, data, begin);
    hide Emitted;
  }

  /** A record of n bytes is read whole, and the reader moves on to off, or its bytes are not all there. */
  ghost predicate Outcome(r: (Option<Bytes>, State), reports: nat, value: Bytes, off: nat, u: Bytes, n: nat) {
    r.1.reports == reports && if |u| >= n then r.0 == Some(value) && At(r.1, off, u[n..]) else r.0.None?
  }

  lemma OutcomeLater(r: (Option<Bytes>, State), reports: nat, value: Bytes, off: nat, u: Bytes, m: nat, n: nat)
    requires m <= |u| && Outcome(r, reports, value, off, u[m..], n)
    ensures Outcome(r, reports, value, off, u, m + n)
  {
    assert |u| >= m + n ==> u[m..][n..] == u[m + n..];
  }

  /** The first fragment of what is emitted. */
  lemma FirstFragment(crc: Crc, s: State, off: nat, data: Bytes, begin: bool, scratch: Bytes, u: Bytes, rest: Bytes) returns (s1: State)
    requires At(s, off, u) && (begin ==> scratch == [])
    requires var k := FragmentLength(off, |data|);
             u <= Trailer(off) + Physical(crc, TypeOf(begin, k == |data|) as byte, data[..k]) + rest
    ensures s1.reports == s.reports
    ensures var k, n := FragmentLength(off, |data|), |LogFormat.Fragment(crc, off, data, begin)|;
            if |u| < n then ReadFrom(crc, s, scratch, !begin) == (None, s1)
            else At(s1, After(off, |data|), u[n..]) && u[n..] <= rest
                 && ReadFrom(crc, s, scratch, !begin)
                    == if k == |data| then (Some(scratch + data), s1) else ReadFrom(crc, s1, scratch + data[..k], true)
  {
    hide Physical, ReadPhysical, ReadFrom, At;
    var k := FragmentLength(off, |data|);
    FragmentAnywhere(crc, s, off, TypeOf(begin, k == |data|) as byte, data[..k], u, rest);
    var (f, s') := ReadPhysical(crc, s);
    s1 := s';
    FragmentInTurn(crc, s, scratch, begin, k == |data|, f, s1);
    assert k == |data| ==> data[..k] == data;
  }

  /** A record whose bytes are all there is read back; one that is cut off ends the reading. No report either way. */
  lemma {:induction false} ReadEmitted(crc: Crc, s: State, off: nat, data: Bytes, begin: bool, scratch: Bytes, u: Bytes, tail: Bytes)
    requires At(s, off, u) && (begin ==> scratch == []) && u <= Emitted(crc, off, data, begin) + tail
    ensures Outcome(ReadFrom(crc, s, scratch, !begin), s.reports, scratch + data, EndOffset(off, data), u, |Emitted(crc, off, data, begin)|)
    decreases |data|, BLOCK_SIZE - off == HEADER_SIZE
  {
    hide Physical, ReadFrom, LogFormat.Fragment;
    EmittedStep(crc, off, data, begin);
    var k := FragmentLength(off, |data|);
    var more := if k == |data| then [] else Emitted(crc, After(off, |data|), data[k..], false);
    EmittedSplit(crc, off, data, begin, more, tail);
    hide Emitted, EndOffset, Trailer;
    var s1 := FirstFragment(crc, s, off, data, begin, scratch, u, more + tail);
    hide At;
    var n := |LogFormat.Fragment(crc, off, data, begin)|;
    if |u| >= n && k != |data| {
      if k == 0 { ProgressStep(off, |data|); }
      hide Outcome;
      ReadEmitted(crc, s1, After(off, |data|), data[k..], false, scratch + data[..k], u[n..], tail);
      assert scratch + data[..k] + data[k..] == scratch + data;
      OutcomeLater(ReadFrom(crc, s1, scratch + data[..k], true), s.reports, scratch + data, EndOffset(off, data), u, n, |more|);
    }
  }

  /** How many of the records lie wholly within the first n bytes of their log. */
  function Complete(crc: Crc, off: nat, records: seq<Bytes>, n: nat): (k: nat)
    requires off <= BLOCK_SIZE
    ensures k <= |records|
    decreases |records|
  {
    if records == [] then 0
    else
      var e := |Emitted(crc, off, records[0], true)|;
      if n < e then 0 else 1 + Complete(crc, EndOffset(off, records[0]), records[1..], n - e)
  }

  lemma {:induction false} CompleteIsAll(crc: Crc, off: nat, records: seq<Bytes>)
    requires off <= BLOCK_SIZE
    ensures Complete(crc, off, records, |Log(crc, off, records)|) == |records|
    decreases |records|
  {
    if records != [] { CompleteIsAll(crc, EndOffset(off, records[0]), records[1..]); }
  }

  lemma {:induction false} ReadLog(crc: Crc, s: State, off: nat, records: seq<Bytes>, u: Bytes)
    requires At(s, off, u) && u <= Log(crc, off, records)
    ensures var (xs, s1) := ReadAll(crc, s);
            xs == records[..Complete(crc, off, records, |u|)] && s1.reports == s.reports
    decreases |records|
  {
    hide Emitted, EndOffset, ReadFrom;
    if records == [] {
      NothingLeft(crc, s, off);
    } else {
      var tail := Log(crc, EndOffset(off, records[0]), records[1..]);
      ReadEmitted(crc, s, off, records[0], true, [], u, tail);
      var s1 := NextRecord(crc, s).1;
      assert [] + records[0] == records[0];
      var e := |Emitted(crc, off, records[0], true)|;
      if |u| >= e {
        assert u[e..] <= tail;
        ReadLog(crc, s1, EndOffset(off, records[0]), records[1..], u[e..]);
        var k := Complete(crc, EndOffset(off, records[0]), records[1..], |u| - e);
        assert ReadAll(crc, s).0 == [records[0]] + records[1..][..k];
        assert Complete(crc, off, records, |u|) == 1 + k;
        assert [records[0]] + records[1..][..k] == records[..1 + k];
      } else {
        assert Complete(crc, off, records, |u|) == 0;
      }
    }
  }

  lemma NothingLeft(crc: Crc, s: State, off: nat)
    requires At(s, off, [])
    ensures ReadAll(crc, s).0 == [] && ReadAll(crc, s).1.reports == s.reports
  {
    if !s.eof {
      assert |Refilled(s).buf| == 0 && Refilled(s).eof;
    }
    assert ReadPhysical(crc, s).0.t == EOF && ReadPhysical(crc, s).1.reports == s.reports;
  }

  /**
   Reading any prefix of the log of any list of records gives exactly the records that are wholly
   in it, without a report.
   */
  lemma PrefixReadsBack(crc: Crc, records: seq<Bytes>, n: nat)
    requires n <= |Log(crc, 0, records)|
    ensures var (xs, s) := ReadAll(crc, Opened(Log(crc, 0, records)[..n]));
            xs == records[..Complete(crc, BLOCK_SIZE, records, n)] && s.reports == 0
  {
    BlockBoundary(crc, records);
    ReadLog(crc, Opened(Log(crc, 0, records)[..n]), BLOCK_SIZE, records, Log(crc, 0, records)[..n]);
  }

  /** Reading the whole log gives the whole list. */
  lemma LogReadsBack(crc: Crc, records: seq<Bytes>)
    ensures var (xs, s) := ReadAll(crc, Opened(Log(crc, 0, records))); xs == records && s.reports == 0
  {
    var log := Log(crc, 0, records);
    BlockBoundary(crc, records);
    CompleteIsAll(crc, BLOCK_SIZE, records);
    PrefixReadsBack(crc, records, |log|);
    assert log[..|log|] == log && records[..|records|] == records;
  }
}
