/** write_batch.cc: a batch of updates as one byte string. */
module WriteBatch {
  import opened Keys
  import opened Coding

  const HEADER: nat := 12

  const TYPE_DELETION: byte := 0
  const TYPE_VALUE: byte := 1

  datatype Op = Put(key: Bytes, value: Bytes) | Delete(key: Bytes)

  datatype Status = Ok | TooSmall | BadPut | BadDelete | UnknownTag | WrongCount

  /** The lengths of keys and values must fit the format. */
  predicate Fits(op: Op) { |op.key| < TWO32 && (op.Put? ==> |op.value| < TWO32) }

  predicate AllFit(ops: seq<Op>) { forall i :: 0 <= i < |ops| ==> Fits(ops[i]) }

  function EncodeOp(op: Op): Bytes {
    match op
    case Put(k, v) => [TYPE_VALUE] + Slice(k) + Slice(v)
    case Delete(k) => [TYPE_DELETION] + Slice(k)
  }

  function EncodeOps(ops: seq<Op>): Bytes {
    if ops == [] then [] else EncodeOp(ops[0]) + EncodeOps(ops[1..])
  }

  function Encode(sn: nat, ops: seq<Op>): (rep: Bytes)
    ensures |rep| == HEADER + |EncodeOps(ops)|
  {
    Fixed(8, sn) + Fixed(4, |ops|) + EncodeOps(ops)
  }

  lemma {:induction false} EncodeOpsAppend(a: seq<Op>, b: seq<Op>)
    ensures EncodeOps(a + b) == EncodeOps(a) + EncodeOps(b)
  {
    hide EncodeOp;
    if a == [] {
      assert a + b == b;
    } else {
      EncodeOpsAppend(a[1..], b);
      assert (a + b)[0] == a[0] && (a + b)[1..] == a[1..] + b;
      var x, y, z := EncodeOp(a[0]), EncodeOps(a[1..]), EncodeOps(b);
      assert EncodeOps(a + b) == x + (y + z) && EncodeOps(a) == x + y;
      hide EncodeOps;
      assert x + (y + z) == (x + y) + z;
    }
  }

  /** One record: the update and the rest of the input, or what is wrong with it. */
  function DecodeOp(input: Bytes): (r: (Option<Op>, Bytes, Status))
    requires input != []
    ensures r.0.Some? ==> |r.1| < |input|
    ensures r.0.Some? <==> r.2 == Ok
  {
    var rest := input[1..];
    if input[0] == TYPE_VALUE then
      match GetSlice(rest)
      case None => (None, rest, BadPut)
      case Some((k, after)) =>
        match GetSlice(after)
        case None => (None, rest, BadPut)
        case Some((v, end)) => (Some(Put(k, v)), end, Ok)
    else if input[0] == TYPE_DELETION then
      match GetSlice(rest)
      case None => (None, rest, BadDelete)
      case Some((k, after)) => (Some(Delete(k)), after, Ok)
    else (None, rest, UnknownTag)
  }

  /** The updates handed to the handler, and how the input ended. */
  function DecodeOps(input: Bytes): (seq<Op>, Status) {
    if input == [] then ([], Ok)
    else
      var (op, rest, status) := DecodeOp(input);
      match op
      case None => ([], status)
      case Some(x) => var (more, s) := DecodeOps(rest); ([x] + more, s)
  }

  lemma DecodeOfEncodedOp(op: Op, rest: Bytes)
    requires Fits(op)
    ensures DecodeOp(EncodeOp(op) + rest) == (Some(op), rest, Ok)
  {
    hide Slice, GetSlice;
    var s := EncodeOp(op) + rest;
    match op {
      case Put(k, v) =>
        SliceRoundTrip(k, Slice(v) + rest);
        SliceRoundTrip(v, rest);
        assert s[1..] == Slice(k) + (Slice(v) + rest);
      case Delete(k) =>
        SliceRoundTrip(k, rest);
        assert s[1..] == Slice(k) + rest;
    }
  }

  lemma DecodeStep(input: Bytes, op: Op, rest: Bytes)
    requires input != [] && DecodeOp(input) == (Some(op), rest, Ok)
    ensures DecodeOps(input) == ([op] + DecodeOps(rest).0, DecodeOps(rest).1)
  {
    hide DecodeOp;
  }

  lemma {:induction false} DecodeOfEncodedOps(ops: seq<Op>)
    requires AllFit(ops)
    ensures DecodeOps(EncodeOps(ops)) == (ops, Ok)
  {
    if ops != [] {
      DecodeOfEncodedOp(ops[0], EncodeOps(ops[1..]));
      DecodeOfEncodedOps(ops[1..]);
      assert EncodeOp(ops[0]) != [];
      hide DecodeOp, EncodeOp;
      var input, rest := EncodeOps(ops), EncodeOps(ops[1..]);
      assert input == EncodeOp(ops[0]) + rest && input != [];
      hide EncodeOps;
      DecodeStep(input, ops[0], rest);
      assert ops == [ops[0]] + ops[1..];
    }
  }

  /** What Iterate makes of any byte string. */
  function Iterated(rep: Bytes): (seq<Op>, Status) {
    if |rep| < HEADER then ([], TooSmall)
    else
      var (ops, s) := DecodeOps(rep[HEADER..]);
      if s != Ok then (ops, s)
      else if |ops| != DecodeFixed(rep[8..12]) then (ops, WrongCount)
      else (ops, Ok)
  }

  /** Encoding a batch and iterating over it gives its updates back, with its sequence number. */
  lemma BatchRoundTrip(sn: nat, ops: seq<Op>)
    requires AllFit(ops) && |ops| < TWO32 && sn < TWO64
    ensures Iterated(Encode(sn, ops)) == (ops, Ok)
    ensures DecodeFixed(Encode(sn, ops)[..8]) == sn && DecodeFixed(Encode(sn, ops)[8..12]) == |ops|
  {
    var rep := Encode(sn, ops);
    assert rep[..8] == Fixed(8, sn) && rep[8..12] == Fixed(4, |ops|) && rep[HEADER..] == EncodeOps(ops);
    Fixed64RoundTrip(sn);
    Fixed32RoundTrip(|ops|);
    DecodeOfEncodedOps(ops);
  }

  /** An update numbered first, first + 1, ... */
  function Numbered(first: nat, ops: seq<Op>): (s: seq<(nat, Op)>)
    ensures |s| == |ops| && forall i :: 0 <= i < |ops| ==> s[i] == (first + i, ops[i])
  {
    seq(|ops|, i requires 0 <= i < |ops| => (first + i, ops[i]))
  }

  lemma NumberedAppend(first: nat, a: seq<Op>, b: seq<Op>)
    ensures Numbered(first, a + b) == Numbered(first, a) + Numbered(first + |a|, b)
  {
  }

  class Batch {
    var rep: Bytes
    ghost var sn: nat
    ghost var ops: seq<Op>

    ghost predicate Valid()
      reads this
    {
      rep == Encode(sn, ops) && AllFit(ops) && sn < TWO64 && |ops| < TWO32
    }

    constructor ()
      ensures Valid() && ops == [] && sn == 0
    {
      rep, sn, ops := seq(HEADER, _ => 0), 0, [];
      new;
      assert Fixed(8, 0) == seq(8, _ => 0) && Fixed(4, 0) == seq(4, _ => 0);
    }

    method Clear()
      modifies this
      ensures Valid() && ops == [] && sn == 0
    {
      rep, sn, ops := seq(HEADER, _ => 0), 0, [];
      assert Fixed(8, 0) == seq(8, _ => 0) && Fixed(4, 0) == seq(4, _ => 0);
    }

    method Count() returns (n: nat)
      requires Valid()
      ensures n == |ops|
    {
      BatchRoundTrip(sn, ops);
      n := DecodeFixed(rep[8..12]);
    }

    method Put(key: Bytes, value: Bytes)
      requires Valid() && |key| < TWO32 && |value| < TWO32 && |ops| + 1 < TWO32
      modifies this
      ensures Valid() && ops == old(ops) + [Op.Put(key, value)] && sn == old(sn)
    {
      hide Fixed, Slice, EncodeOps;
      var n := Count();
      rep := rep[..8] + Fixed(4, n + 1) + rep[12..];
      rep := rep + [TYPE_VALUE];
      rep := rep + Slice(key);
      rep := rep + Slice(value);
      Appended(Op.Put(key, value));
      ops := ops + [Op.Put(key, value)];
    }

    method Delete(key: Bytes)
      requires Valid() && |key| < TWO32 && |ops| + 1 < TWO32
      modifies this
      ensures Valid() && ops == old(ops) + [Op.Delete(key)] && sn == old(sn)
    {
      hide Fixed, Slice, EncodeOps;
      var n := Count();
      rep := rep[..8] + Fixed(4, n + 1) + rep[12..];
      rep := rep + [TYPE_DELETION];
      rep := rep + Slice(key);
      Appended(Op.Delete(key));
      ops := ops + [Op.Delete(key)];
    }

    lemma Appended(op: Op)
      requires rep == Fixed(8, sn) + Fixed(4, |ops| + 1) + EncodeOps(ops) + EncodeOp(op)
      ensures rep == Encode(sn, ops + [op])
    {
      hide EncodeOp, Fixed;
      EncodeOpsAppend(ops, [op]);
      assert [op][1..] == [] && EncodeOps([]) == [];
      assert EncodeOps([op]) == EncodeOp(op);
    }

    method SetSequence(first: nat)
      requires Valid() && first < TWO64
      modifies this
      ensures Valid() && ops == old(ops) && sn == first
    {
      rep := Fixed(8, first) + rep[8..];
      sn := first;
    }

    /** WriteBatchInternal::Append. */
    method Append(src: Batch)
      requires Valid() && src.Valid() && src != this && |ops| + |src.ops| < TWO32
      modifies this
      ensures Valid() && ops == old(ops) + src.ops && sn == old(sn)
    {
      hide EncodeOps, Fixed;
      var m := Count();
      var n := src.Count();
      EncodeOpsAppend(ops, src.ops);
      rep := rep[..8] + Fixed(4, m + n) + rep[12..];
      rep := rep + src.rep[HEADER..];
      ops := ops + src.ops;
    }

    /** Iterate with a handler that collects what it is given. */
    method Iterate() returns (found: seq<Op>, status: Status)
      ensures (found, status) == Iterated(rep)
    {
      hide DecodeOp, DecodeFixed;
      if |rep| < HEADER { return [], TooSmall; }
      var input := rep[HEADER..];
      found := [];
      ghost var all := DecodeOps(input);
      assert [] + all.0 == all.0;
      while input != []
        invariant (found + DecodeOps(input).0, DecodeOps(input).1) == all
        decreases |input|
      {
        var (op, rest, s) := DecodeOp(input);
        if op.None? {
          assert found + [] == found;
          return found, s;
        }
        assert found + ([op.value] + DecodeOps(rest).0) == (found + [op.value]) + DecodeOps(rest).0;
        found := found + [op.value];
        input := rest;
      }
      assert found + [] == found;
      if |found| != DecodeFixed(rep[8..12]) { return found, WrongCount; }
      status := Ok;
    }

    /** WriteBatchInternal::InsertInto: every update enters the memtable once, numbered from the batch's sequence. */
    method InsertInto(mem: seq<(nat, Op)>) returns (mem': seq<(nat, Op)>, status: Status)
      requires Valid()
      ensures status == Ok && mem' == mem + Numbered(sn, ops)
    {
      hide Numbered, DecodeFixed, Fixed, DecodeOps, EncodeOps, Iterated;
      BatchRoundTrip(sn, ops);
      var found, s := Iterate();
      var next := DecodeFixed(rep[..8]);
      mem', status := mem, s;
      for i := 0 to |found|
        invariant next == sn + i && mem' == mem + Numbered(sn, ops)[..i]
      {
        mem' := mem' + [(next, found[i])];
        next := next + 1;
      }
      assert Numbered(sn, ops)[..|ops|] == Numbered(sn, ops);
    }
  }
}
