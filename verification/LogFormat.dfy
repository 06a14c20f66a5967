/** log_format.h, log_writer.cc and log_reader.cc: records cut into fragments that never cross a block. */
module LogFormat {
  import opened Keys
  import opened Coding

  const BLOCK_SIZE: nat := 32768
  const HEADER_SIZE: nat := 7

  const FULL_TYPE: int := 1
  const FIRST_TYPE: int := 2
  const MIDDLE_TYPE: int := 3
  const LAST_TYPE: int := 4
  const EOF: int := 5
  const BAD_RECORD: int := 6

  /** crc32c::Value, of which nothing is used but that it is a function. */
  type Crc = Bytes -> uint32

  // ---------- what the writer appends ----------

  function Zeros(n: nat): (s: Bytes)
    ensures |s| == n
  {
    seq(n, _ => 0)
  }

  /** Header (masked checksum, length, type) and payload. */
  function Physical(crc: Crc, t: byte, data: Bytes): (s: Bytes)
    requires |data| <= 0xffff
    ensures |s| == HEADER_SIZE + |data|
  {
    Fixed(4, Mask(crc([t] + data))) + [(|data| % 256) as byte, (|data| / 256) as byte, t] + data
  }

  /** The padding before the next fragment, and where in its block that fragment starts. */
  function Trailer(off: nat): (s: Bytes)
    requires off <= BLOCK_SIZE
  {
    if BLOCK_SIZE - off < HEADER_SIZE then Zeros(BLOCK_SIZE - off) else []
  }

  function Start(off: nat): (o: nat)
    requires off <= BLOCK_SIZE
    ensures o + HEADER_SIZE <= BLOCK_SIZE
  {
    if BLOCK_SIZE - off < HEADER_SIZE then 0 else off
  }

  function FragmentLength(off: nat, left: nat): (n: nat)
    requires off <= BLOCK_SIZE
    ensures n <= left && Start(off) + HEADER_SIZE + n <= BLOCK_SIZE
  {
    var avail := BLOCK_SIZE - Start(off) - HEADER_SIZE;
    if left < avail then left else avail
  }

  function TypeOf(begin: bool, end: bool): int {
    if begin && end then FULL_TYPE else if begin then FIRST_TYPE else if end then LAST_TYPE else MIDDLE_TYPE
  }

  /** One fragment with its padding. */
  function Fragment(crc: Crc, off: nat, data: Bytes, begin: bool): (s: Bytes)
    requires off <= BLOCK_SIZE
    ensures |s| == |Trailer(off)| + HEADER_SIZE + FragmentLength(off, |data|)
  {
    var n := FragmentLength(off, |data|);
    Trailer(off) + Physical(crc, TypeOf(begin, n == |data|) as byte, data[..n])
  }

  function After(off: nat, left: nat): (o: nat)
    requires off <= BLOCK_SIZE
    ensures o <= BLOCK_SIZE
  {
    Start(off) + HEADER_SIZE + FragmentLength(off, left)
  }

  /** All fragments of (the rest of) a record. */
  function Emitted(crc: Crc, off: nat, data: Bytes, begin: bool): Bytes
    requires off <= BLOCK_SIZE
    decreases |data|, BLOCK_SIZE - off == HEADER_SIZE
  {
    var n := FragmentLength(off, |data|);
    if n == |data| then Fragment(crc, off, data, begin)
    else Fragment(crc, off, data, begin) + Emitted(crc, After(off, |data|), data[n..], false)
  }

  function EndOffset(off: nat, data: Bytes): (o: nat)
    requires off <= BLOCK_SIZE
    ensures o <= BLOCK_SIZE
    decreases |data|, BLOCK_SIZE - off == HEADER_SIZE
  {
    var n := FragmentLength(off, |data|);
    if n == |data| then After(off, |data|) else EndOffset(After(off, |data|), data[n..])
  }

  /** The log of a list of records. */
  function Log(crc: Crc, off: nat, records: seq<Bytes>): Bytes
    requires off <= BLOCK_SIZE
    decreases |records|
  {
    if records == [] then []
    else Emitted(crc, off, records[0], true) + Log(crc, EndOffset(off, records[0]), records[1..])
  }

  function LogEnd(off: nat, records: seq<Bytes>): (o: nat)
    requires off <= BLOCK_SIZE
    ensures o <= BLOCK_SIZE
    decreases |records|
  {
    if records == [] then off else LogEnd(EndOffset(off, records[0]), records[1..])
  }

  lemma {:induction false} LogAppend(crc: Crc, off: nat, records: seq<Bytes>, r: Bytes)
    requires off <= BLOCK_SIZE
    ensures Log(crc, off, records + [r]) == Log(crc, off, records) + Emitted(crc, LogEnd(off, records), r, true)
    ensures LogEnd(off, records + [r]) == EndOffset(LogEnd(off, records), r)
    decreases |records|
  {
    hide Emitted, EndOffset;
    if records == [] {
      assert records + [r] == [r] && [r][1..] == [];
      assert Log(crc, EndOffset(off, r), []) == [];
    } else {
      LogAppend(crc, EndOffset(off, records[0]), records[1..], r);
      assert (records + [r])[1..] == records[1..] + [r];
    }
  }

  /** A writer at the start of a block and one at the end of the block before it write the same. */
  lemma BlockBoundary(crc: Crc, records: seq<Bytes>)
    ensures Log(crc, 0, records) == Log(crc, BLOCK_SIZE, records)
  {
    if records != [] {
      var d := records[0];
      assert Start(0) == Start(BLOCK_SIZE) && Trailer(0) == Trailer(BLOCK_SIZE);
      assert FragmentLength(0, |d|) == FragmentLength(BLOCK_SIZE, |d|);
      assert Emitted(crc, 0, d, true) == Emitted(crc, BLOCK_SIZE, d, true);
      assert EndOffset(0, d) == EndOffset(BLOCK_SIZE, d);
    }
  }

  lemma EmittedStep(crc: Crc, off: nat, data: Bytes, begin: bool)
    requires off <= BLOCK_SIZE
    ensures var n := FragmentLength(off, |data|);
            if n == |data| then Emitted(crc, off, data, begin) == Fragment(crc, off, data, begin) && EndOffset(off, data) == After(off, |data|)
            else Emitted(crc, off, data, begin)
                 == Fragment(crc, off, data, begin) + Emitted(crc, After(off, |data|), data[n..], false)
                 && EndOffset(off, data) == EndOffset(After(off, |data|), data[n..])
  {
  }

  /** A fragment is empty only when exactly a header fits; then the next one starts a new block. */
  lemma ProgressStep(off: nat, left: nat)
    requires off <= BLOCK_SIZE && 0 < left && FragmentLength(off, left) == 0
    ensures BLOCK_SIZE - off == HEADER_SIZE && After(off, left) == BLOCK_SIZE
  {
  }

  class Writer {
    const crc: Crc
    var dest: Bytes
    var blockOffset: nat
    ghost var records: seq<Bytes>

    ghost predicate Valid()
      reads this
    {
      blockOffset <= BLOCK_SIZE && dest == Log(crc, 0, records) && blockOffset == LogEnd(0, records)
    }

    constructor (crc: Crc)
      ensures Valid() && records == [] && dest == [] && this.crc == crc
    {
      this.crc := crc;
      dest, blockOffset, records := [], 0, [];
    }

    method EmitPhysicalRecord(t: byte, data: Bytes)
      requires blockOffset + HEADER_SIZE + |data| <= BLOCK_SIZE
      modifies `dest, `blockOffset
      ensures dest == old(dest) + Physical(crc, t, data) && blockOffset == old(blockOffset) + HEADER_SIZE + |data|
    {
      var n := |data|;
      var header := Fixed(4, Mask(crc([t] + data))) + [(n % 256) as byte, (n / 256) as byte, t];
      dest := dest + header;
      dest := dest + data;
      blockOffset := blockOffset + HEADER_SIZE + n;
    }

    /** One turn of the loop in AddRecord. */
    method EmitFragment(left: Bytes, begin: bool) returns (n: nat)
      requires blockOffset <= BLOCK_SIZE
      modifies `dest, `blockOffset
      ensures n == FragmentLength(old(blockOffset), |left|)
      ensures dest == old(dest) + Fragment(crc, old(blockOffset), left, begin)
      ensures blockOffset == After(old(blockOffset), |left|)
    {
      var leftover := BLOCK_SIZE - blockOffset;
      if leftover < HEADER_SIZE {
        if leftover > 0 { dest := dest + Zeros(leftover); }
        blockOffset := 0;
      }
      var avail := BLOCK_SIZE - blockOffset - HEADER_SIZE;
      n := if |left| < avail then |left| else avail;
      var end := |left| == n;
      var t := if begin && end then FULL_TYPE else if begin then FIRST_TYPE else if end then LAST_TYPE else MIDDLE_TYPE;
      EmitPhysicalRecord(t as byte, left[..n]);
    }

    method AddRecord(data: Bytes)
      requires Valid()
      modifies this
      ensures Valid() && records == old(records) + [data]
      ensures dest == old(dest) + Emitted(crc, old(blockOffset), data, true)
    {
      hide Emitted, EndOffset, Fragment, Log, LogEnd;
      LogAppend(crc, 0, records, data);
      records := records + [data];
      var left, begin := data, true;
      EmittedStep(crc, blockOffset, left, begin);
      var n := EmitFragment(left, begin);
      left, begin := left[n..], false;
      while left != []
        invariant blockOffset <= BLOCK_SIZE && records == old(records) + [data]
        invariant if left == [] then dest == old(dest) + Emitted(crc, old(blockOffset), data, true)
                                     && blockOffset == EndOffset(old(blockOffset), data)
                  else dest + Emitted(crc, blockOffset, left, false) == old(dest) + Emitted(crc, old(blockOffset), data, true)
                       && EndOffset(blockOffset, left) == EndOffset(old(blockOffset), data)
        decreases |left|, BLOCK_SIZE - blockOffset == HEADER_SIZE
      {
        EmittedStep(crc, blockOffset, left, begin);
          n := EmitFragment(left, begin);
        left, begin := left[n..], false;
      }
    }
  }
}
