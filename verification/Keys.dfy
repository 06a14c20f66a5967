/** Byte strings, the bytewise comparator, and internal keys. */
module Keys {

  newtype byte = x: int | 0 <= x < 256

  type Bytes = seq<byte>

  datatype Option<+T> = None | Some(value: T)

  /** Three-way comparison of byte strings: memcmp on the common length, then length. */
  function Compare(a: Bytes, b: Bytes): (r: int)
    ensures -1 <= r <= 1
  {
    if a == [] then (if b == [] then 0 else -1)
    else if b == [] then 1
    else if a[0] < b[0] then -1
    else if a[0] > b[0] then 1
    else Compare(a[1..], b[1..])
  }

  /**
   A user key seen through its comparator: its rank. The level structure and the
   iterators use nothing of a key except how it compares, and RankIsComparison
   shows that comparing ranks is comparing byte strings.
   */
  type UserKey = real

  function Rank(b: Bytes): (r: UserKey)
    ensures 0.0 <= r < 1.0
  {
    if b == [] then 0.0
    else ((b[0] as int) as real + 1.0 + Rank(b[1..])) / 257.0
  }

  lemma {:induction false} RankIsComparison(a: Bytes, b: Bytes)
    ensures Compare(a, b) < 0 <==> Rank(a) < Rank(b)
    ensures Compare(a, b) == 0 <==> Rank(a) == Rank(b)
    ensures Compare(a, b) == 0 <==> a == b
  {
    if a != [] && b != [] {
      RankIsComparison(a[1..], b[1..]);
      if a[0] == b[0] {
        assert a == [a[0]] + a[1..] && b == [b[0]] + b[1..];
      }
    }
  }

  const MAX_SEQUENCE: nat := 0xff_ffff_ffff_ffff

  type SeqNum = n: nat | n <= MAX_SEQUENCE

  datatype Kind = Deletion | Value {
    function Code(): (c: nat)
      ensures c <= 1
    {
      if Deletion? then 0 else 1
    }
  }

  /** (user key, sequence, kind); the tag packs the last two. */
  datatype IKey = IKey(ukey: UserKey, sn: SeqNum, kind: Kind) {
    function Tag(): nat { sn * 256 + kind.Code() }
  }

  /** InternalKeyComparator: increasing user key, then decreasing tag. */
  predicate Before(a: IKey, b: IKey) {
    a.ukey < b.ukey || (a.ukey == b.ukey && a.Tag() > b.Tag())
  }

  lemma BeforeIsStrictTotalOrder(a: IKey, b: IKey, c: IKey)
    ensures !Before(a, a)
    ensures Before(a, b) && Before(b, c) ==> Before(a, c)
    ensures Before(a, b) || Before(b, a) || a == b
  {
    if a.ukey == b.ukey && a.Tag() == b.Tag() {
      assert a.sn == b.sn && a.kind == b.kind;
    }
  }
}
