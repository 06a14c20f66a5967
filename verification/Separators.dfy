/** comparator.cc and dbformat.cc: encoded internal keys, their order, and shortened keys between two others. */
module Separators {
  import opened Keys
  import opened Coding
  import opened Block
  import opened BlockIter
  import opened FilterBlock

  // ---------- bytewise comparator ----------

  lemma ComparePrefix(p: Bytes, a: Bytes, b: Bytes)
    ensures Compare(p + a, p + b) == Compare(a, b)
  {
    if p == [] {
      assert p + a == a && p + b == b;
    } else {
      ComparePrefix(p[1..], a, b);
      assert (p + a)[1..] == p[1..] + a && (p + b)[1..] == p[1..] + b;
    }
  }

  /** FindShortestSeparator: unchanged, or a string strictly between start and limit that is no longer than start. */
  method FindShortestSeparator(start: Bytes, limit: Bytes) returns (r: Bytes)
    ensures r == start || (Compare(start, r) < 0 && Compare(r, limit) < 0 && |r| <= |start|)
  {
    var minLength := if |start| < |limit| then |start| else |limit|;
    var diff := 0;
    while diff < minLength && start[diff] == limit[diff]
      invariant diff <= minLength && start[..diff] == limit[..diff]
    {
      diff := diff + 1;
    }
    r := start;
    if diff < minLength {
      var b := start[diff];
      if b < 255 && b as int + 1 < limit[diff] as int {
        r := start[..diff] + [b + 1];
        ghost var p := start[..diff];
        assert start == p + start[diff..] && limit == p + limit[diff..];
        ComparePrefix(p, start[diff..], [b + 1]);
        ComparePrefix(p, [b + 1], limit[diff..]);
      }
    }
  }

  /** FindShortSuccessor: unchanged, or a larger string that is no longer. */
  method FindShortSuccessor(key: Bytes) returns (r: Bytes)
    ensures r == key || (Compare(key, r) < 0 && |r| <= |key|)
  {
    for i := 0 to |key|
      invariant forall j :: 0 <= j < i ==> key[j] == 255
    {
      var b := key[i];
      if b != 255 {
        r := key[..i] + [b + 1];
        assert key == key[..i] + key[i..];
        ComparePrefix(key[..i], key[i..], [b + 1]);
        return;
      }
    }
    return key;
  }

  // ---------- internal keys ----------

  /** PackSequenceAndType. */
  function Pack(sn: SeqNum, kind: Kind): (tag: nat)
    ensures tag < TWO64
  {
    sn * 256 + kind.Code()
  }

  /** AppendInternalKey onto an empty string. */
  function InternalKey(user: Bytes, sn: SeqNum, kind: Kind): (k: Bytes)
    ensures |k| == |user| + 8
  {
    user + Fixed(8, Pack(sn, kind))
  }

  function Tag(k: Bytes): nat
    requires |k| >= 8
  {
    DecodeFixed(k[|k| - 8..])
  }

  lemma InternalKeyParts(user: Bytes, sn: SeqNum, kind: Kind)
    ensures UserPart(InternalKey(user, sn, kind)) == user && Tag(InternalKey(user, sn, kind)) == Pack(sn, kind)
  {
    Fixed64RoundTrip(Pack(sn, kind));
    assert InternalKey(user, sn, kind)[|user|..] == Fixed(8, Pack(sn, kind));
  }

  /** InternalKeyComparator::Compare(a, b) < 0. */
  predicate InternalLess(a: Bytes, b: Bytes) {
    && |a| >= 8 && |b| >= 8
    && var r := Compare(UserPart(a), UserPart(b));
       r < 0 || (r == 0 && Tag(a) > Tag(b))
  }

  const ILess: Less := (a, b) => InternalLess(a, b)

  lemma UserOrder(a: Bytes, b: Bytes, c: Bytes)
    ensures Compare(a, b) < 0 && Compare(b, c) < 0 ==> Compare(a, c) < 0
    ensures Compare(a, b) == 0 <==> a == b
    ensures Compare(a, b) < 0 <==> Compare(b, a) > 0
  {
    RankIsComparison(a, b);
    RankIsComparison(b, a);
    RankIsComparison(b, c);
    RankIsComparison(a, c);
  }

  lemma InternalOrder(a: Bytes, b: Bytes, c: Bytes)
    ensures InternalLess(a, b) && InternalLess(b, c) ==> InternalLess(a, c)
    ensures InternalLess(a, b) && !InternalLess(a, c) ==> !InternalLess(b, c)
    ensures !(InternalLess(a, b) && InternalLess(b, a)) && !InternalLess(a, a)
  {
    UserOrder(UserPart(a), UserPart(b), UserPart(c));
    UserOrder(UserPart(a), UserPart(a), UserPart(a));
    UserOrder(UserPart(b), UserPart(c), UserPart(a));
  }

  /** The internal comparator orders keys as a block iterator needs it. */
  lemma InternalIsOrdered()
    ensures Ordered(ILess)
  {
    forall a, b, c ensures (ILess(a, b) && ILess(b, c) ==> ILess(a, c)) && (ILess(a, b) && !ILess(a, c) ==> !ILess(b, c)) {
      InternalOrder(a, b, c);
    }
  }

  /** On encoded keys the comparator is the order of internal keys that the level structure uses. */
  lemma InternalLessIsBefore(u: Bytes, s: SeqNum, k: Kind, u': Bytes, s': SeqNum, k': Kind)
    ensures InternalLess(InternalKey(u, s, k), InternalKey(u', s', k')) <==> Before(IKey(Rank(u), s, k), IKey(Rank(u'), s', k'))
  {
    InternalKeyParts(u, s, k);
    InternalKeyParts(u', s', k');
    RankIsComparison(u, u');
  }

  /** Where a key may stand that separates start from limit. */
  ghost predicate Between(start: Bytes, r: Bytes, limit: Bytes) {
    |r| >= 8 && Compare(UserPart(start), UserPart(r)) < 0 && Compare(UserPart(r), UserPart(limit)) < 0
  }

  /** InternalKeyComparator::FindShortestSeparator. */
  method FindInternalSeparator(start: Bytes, limit: Bytes) returns (r: Bytes)
    requires |start| >= 8 && |limit| >= 8
    ensures |r| >= 8 && |r| <= |start| && (r == start || Between(start, r, limit))
  {
    var userStart, userLimit := UserPart(start), UserPart(limit);
    var tmp := FindShortestSeparator(userStart, userLimit);
    if |tmp| < |userStart| && Compare(userStart, tmp) < 0 {
      InternalKeyParts(tmp, MAX_SEQUENCE, Value);
      UserOrder(userStart, userStart, userStart);
      r := InternalKey(tmp, MAX_SEQUENCE, Value);
    } else {
      r := start;
    }
  }

  /** InternalKeyComparator::FindShortSuccessor. */
  method FindInternalSuccessor(key: Bytes) returns (r: Bytes)
    requires |key| >= 8
    ensures |r| >= 8 && |r| <= |key| && (r == key || Compare(UserPart(key), UserPart(r)) < 0)
  {
    var user := UserPart(key);
    var tmp := FindShortSuccessor(user);
    if |tmp| < |user| && Compare(user, tmp) < 0 {
      InternalKeyParts(tmp, MAX_SEQUENCE, Value);
      r := InternalKey(tmp, MAX_SEQUENCE, Value);
    } else {
      r := key;
    }
  }
}
