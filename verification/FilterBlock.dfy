/** filter_block.cc, with Bloom filters on user keys: one filter for every 2048 bytes of table offsets. */
module FilterBlock {
  import opened Keys
  import opened Coding
  import opened Block
  import opened BlockIter
  import opened Bloom

  const FILTER_BASE_LG: nat := 11
  const FILTER_BASE: nat := 2048

  /** An internal key without its tag; keys are at least eight bytes long. */
  function UserPart(k: Bytes): Bytes { if |k| >= 8 then k[..|k| - 8] else k }

  function UserParts(ks: seq<Bytes>): (us: seq<Bytes>)
    ensures |us| == |ks| && forall i :: 0 <= i < |ks| ==> us[i] == UserPart(ks[i])
  {
    seq(|ks|, i requires 0 <= i < |ks| => UserPart(ks[i]))
  }

  /** The keys of one filter, one after the other. */
  function Joined(ks: seq<Bytes>): Bytes {
    if ks == [] then [] else Joined(ks[..|ks| - 1]) + ks[|ks| - 1]
  }

  function End(offsets: seq<nat>, size: nat, i: nat): nat { if i < |offsets| then offsets[i] else size }

  /** Filter i of result is empty, or the Bloom filter of its keys. */
  ghost predicate FilterAt(hash: Hasher, k: nat, result: Bytes, offsets: seq<nat>, keys: seq<seq<Bytes>>, i: nat)
    requires i < |offsets| == |keys|
  {
    var a, b := offsets[i], End(offsets, |result|, i + 1);
    a <= b <= |result| && if keys[i] == [] then a == b else IsFilter(hash, keys[i], k, result[a..b])
  }

  ghost predicate FiltersOk(hash: Hasher, k: nat, result: Bytes, offsets: seq<nat>, keys: seq<seq<Bytes>>) {
    && |offsets| == |keys| && (forall i :: 0 <= i < |offsets| ==> offsets[i] <= |result|)
    && forall i :: 0 <= i < |offsets| ==> FilterAt(hash, k, result, offsets, keys, i)
  }

  lemma FilterAdded(hash: Hasher, k: nat, result: Bytes, offsets: seq<nat>, keys: seq<seq<Bytes>>, filter: Bytes, ks: seq<Bytes>)
    requires FiltersOk(hash, k, result, offsets, keys)
    requires if ks == [] then filter == [] else IsFilter(hash, ks, k, filter)
    ensures FiltersOk(hash, k, result + filter, offsets + [|result|], keys + [ks])
  {
    hide IsFilter;
    var result', offsets', keys' := result + filter, offsets + [|result|], keys + [ks];
    forall i | 0 <= i < |offsets'| ensures FilterAt(hash, k, result', offsets', keys', i) {
      if i < |offsets| {
        assert FilterAt(hash, k, result, offsets, keys, i);
        var a, b := offsets[i], End(offsets, |result|, i + 1);
        assert End(offsets', |result'|, i + 1) == b && result'[a..b] == result[a..b];
      } else {
        assert End(offsets', |result'|, i + 1) == |result'| && result'[|result|..|result'|] == filter;
      }
    }
  }

  class FilterBlockBuilder {
    const hash: Hasher
    const bitsPerKey: nat
    const k: nat
    var keys: Bytes            // keys_, flattened
    var start: seq<nat>        // where each key begins
    var result: Bytes
    var filterOffsets: seq<nat>
    ghost var pending: seq<Bytes>
    ghost var filters: seq<seq<Bytes>>  // the user keys of each filter

    ghost predicate Valid()
      reads this
    {
      && 1 <= k <= 30 && keys == Joined(pending) && |start| == |pending|
      && (forall i :: 0 <= i < |start| ==> start[i] == |Joined(pending[..i])|)
      && FiltersOk(hash, k, result, filterOffsets, filters)
    }

    constructor (hash: Hasher, bitsPerKey: nat, k: nat)
      requires 1 <= k <= 30
      ensures Valid() && pending == [] && filters == [] && this.hash == hash && this.k == k
    {
      this.hash, this.bitsPerKey, this.k := hash, bitsPerKey, k;
      keys, start, result, filterOffsets, pending, filters := [], [], [], [], [], [];
    }

    method AddKey(key: Bytes)
      requires Valid()
      modifies this
      ensures Valid() && pending == old(pending) + [key] && filters == old(filters)
    {
      hide FiltersOk;
      start := start + [|keys|];
      keys := keys + key;
      pending := pending + [key];
      assert pending[..|pending| - 1] == old(pending);
      forall i | 0 <= i < |start| ensures start[i] == |Joined(pending[..i])| {
        assert i < |old(start)| ==> pending[..i] == old(pending)[..i];
      }
    }

    /** The list of keys from the flattened key structure. */
    method Unflatten() returns (tmp: seq<Bytes>)
      requires Valid()
      ensures tmp == UserParts(pending)
    {
      hide FiltersOk;
      var ends := start + [|keys|];
      tmp := [];
      for i := 0 to |start|
        invariant |tmp| == i && forall j :: 0 <= j < i ==> tmp[j] == UserPart(pending[j])
      {
        KeyAt(i);
        tmp := tmp + [UserPart(keys[ends[i]..ends[i + 1]])];
      }
    }

    lemma KeyAt(i: nat)
      requires Valid() && i < |start|
      ensures var a, b := start[i], (start + [|keys|])[i + 1]; a <= b <= |keys| && keys[a..b] == pending[i]
    {
      assert pending[..i + 1][..i] == pending[..i];
      assert Joined(pending[..i + 1]) == Joined(pending[..i]) + pending[i];
      JoinedPrefix(pending, i + 1);
      assert i + 1 == |pending| ==> pending[..i + 1] == pending;
    }

    method GenerateFilter()
      requires Valid()
      modifies this
      ensures Valid() && pending == [] && filters == old(filters) + [UserParts(old(pending))]
    {
      hide FiltersOk, IsFilter;
      if |start| == 0 {
        FilterAdded(hash, k, result, filterOffsets, filters, [], []);
        assert result + [] == result && UserParts(pending) == [];
        filterOffsets := filterOffsets + [|result|];
        filters := filters + [[]];
        return;
      }
      var tmp := Unflatten();
      var filter := CreateFilter(hash, bitsPerKey, k, tmp);
      FilterAdded(hash, k, result, filterOffsets, filters, filter, tmp);
      filterOffsets := filterOffsets + [|result|];
      result := result + filter;
      filters := filters + [tmp];
      keys, start, pending := [], [], [];
    }

    /** A data block begins: from now on keys belong to the filter of its offset. */
    method StartBlock(offset: nat)
      requires Valid() && |filters| <= offset / FILTER_BASE
      modifies this
      ensures Valid() && |filters| == offset / FILTER_BASE
      ensures old(filters) <= filters
      ensures if |old(filters)| == |filters| then pending == old(pending)
              else pending == [] && filters[|old(filters)|] == UserParts(old(pending))
    {
      hide FiltersOk;
      while offset / FILTER_BASE > |filterOffsets|
        invariant Valid() && |filters| <= offset / FILTER_BASE && old(filters) <= filters
        invariant if |old(filters)| == |filters| then pending == old(pending)
                  else pending == [] && filters[|old(filters)|] == UserParts(old(pending))
        decreases offset / FILTER_BASE - |filters|
      {
        SizeOfFilters();
        GenerateFilter();
      }
      SizeOfFilters();
    }

    lemma SizeOfFilters()
      requires Valid()
      ensures |filterOffsets| == |filters|
    {
    }

    method Finish() returns (contents: Bytes)
      requires Valid()
      modifies this
      ensures IsFilterBlock(hash, k, contents, filters)
      ensures filters == if old(pending) == [] then old(filters) else old(filters) + [UserParts(old(pending))]
    {
      hide FiltersOk, FixedList, Fixed;
      if |start| != 0 { GenerateFilter(); }
      SizeOfFilters();
      ghost var r0, fs := result, filters;
      var arrayOffset, offsets := |result|, filterOffsets;
      NoFixed();
      for i := 0 to |offsets|
        invariant result == r0 + FixedList(offsets[..i]) && filterOffsets == offsets && filters == fs
      {
        OneMoreFixed(offsets, i);
        result := result + Fixed(4, offsets[i]);
      }
      assert offsets[..|offsets|] == offsets;
      ghost var r1 := result;
      result := result + Fixed(4, arrayOffset);
      result := result + [FILTER_BASE_LG as byte];
      assert result == r1 + (Fixed(4, arrayOffset) + [FILTER_BASE_LG as byte]);
      contents := result;
      assert FilterBlockOf(hash, k, contents, r0, filterOffsets, filters);
    }
  }

  lemma {:induction false} JoinedPrefix(ks: seq<Bytes>, n: nat)
    requires n <= |ks|
    ensures Joined(ks[..n]) <= Joined(ks)
  {
    if n < |ks| {
      JoinedPrefix(ks[..|ks| - 1], n);
      assert ks[..|ks| - 1][..n] == ks[..n];
    } else {
      assert ks[..n] == ks;
    }
  }

  ghost predicate FilterBlockOf(hash: Hasher, k: nat, contents: Bytes, result: Bytes, offsets: seq<nat>, filters: seq<seq<Bytes>>) {
    FiltersOk(hash, k, result, offsets, filters)
    && contents == result + FixedList(offsets) + (Fixed(4, |result|) + [FILTER_BASE_LG as byte])
  }

  /** contents is a filter block whose filters were built from the given user keys. */
  ghost predicate IsFilterBlock(hash: Hasher, k: nat, contents: Bytes, filters: seq<seq<Bytes>>) {
    exists result, offsets :: FilterBlockOf(hash, k, contents, result, offsets, filters)
  }

  /** FilterBlockReader: what it finds in the contents. */
  datatype Reader = Reader(words: nat, num: nat, baseLg: nat)

  function OpenFilter(contents: Bytes): (r: Reader)
    ensures r.num > 0 ==> r.words + 4 * r.num + 5 <= |contents|
  {
    var n := |contents|;
    if n < 5 then Reader(0, 0, 0)
    else
      var baseLg := contents[n - 1] as nat;
      var lastWord := DecodeFixed(contents[n - 5..n - 1]);
      if lastWord > n - 5 then Reader(0, 0, baseLg) else Reader(lastWord, (n - 5 - lastWord) / 4, baseLg)
  }

  /** The filter for a block offset was built from the user key. */
  ghost predicate Filtered(hash: Hasher, k: nat, contents: Bytes, filters: seq<seq<Bytes>>, offset: nat, user: Bytes) {
    && IsFilterBlock(hash, k, contents, filters) && |contents| < TWO32
    && offset / FILTER_BASE < |filters| && user in filters[offset / FILTER_BASE]
  }

  /** The filter that a block offset leads to: its bytes, or none where errors count as a match. */
  datatype Found = Bytes_(filter: Bytes) | Any | Nothing

  function FindFilter(contents: Bytes, offset: nat): Found {
    var r := OpenFilter(contents);
    var index := offset / Pow(2, r.baseLg);
    if index < r.num then
      var start := DecodeFixed(contents[r.words + 4 * index..r.words + 4 * index + 4]);
      var limit := DecodeFixed(contents[r.words + 4 * index + 4..r.words + 4 * index + 8]);
      if start <= limit && limit <= r.words then Bytes_(contents[start..limit])
      else if start == limit then Nothing
      else Any
    else Any
  }

  /** FilterBlockReader::KeyMayMatch on an internal key. */
  method MayMatch(hash: Hasher, contents: Bytes, offset: nat, key: Bytes) returns (may: bool)
    ensures (exists k, filters :: Filtered(hash, k, contents, filters, offset, UserPart(key))) ==> may
  {
    var f := FindFilter(contents, offset);
    if k, filters :| Filtered(hash, k, contents, filters, offset, UserPart(key)) {
      FilterFound(hash, k, contents, filters, offset, UserPart(key));
    }
    hide FindFilter, Filtered, Matches;
    match f {
      case Bytes_(filter) => may := KeyMayMatch(hash, UserPart(key), filter);
      case Any => may := true;
      case Nothing => may := false;
    }
  }

  /** The reader finds the filter of a block offset, and it matches every key it was built from. */
  lemma FilterFound(hash: Hasher, k: nat, contents: Bytes, filters: seq<seq<Bytes>>, offset: nat, user: Bytes)
    requires Filtered(hash, k, contents, filters, offset, user)
    ensures var f := FindFilter(contents, offset); f.Bytes_? && Matches(hash, user, f.filter)
  {
    var i := offset / FILTER_BASE;
    var result, offsets :| FilterBlockOf(hash, k, contents, result, offsets, filters);
    assert FilterAt(hash, k, result, offsets, filters, i);
    var a, b := offsets[i], End(offsets, |result|, i + 1);
    NoFalseNegatives(hash, filters[i], k, result[a..b], user);
    hide IsFilterBlock, IsFilter, FindFilter;
    FilterLocated(hash, k, contents, result, offsets, filters, offset);
  }

  lemma FilterLocated(hash: Hasher, k: nat, contents: Bytes, result: Bytes, offsets: seq<nat>, filters: seq<seq<Bytes>>, offset: nat)
    requires FilterBlockOf(hash, k, contents, result, offsets, filters) && |contents| < TWO32 && offset / FILTER_BASE < |offsets|
    ensures var i := offset / FILTER_BASE;
            offsets[i] <= End(offsets, |result|, i + 1) <= |result|
            && FindFilter(contents, offset) == Bytes_(result[offsets[i]..End(offsets, |result|, i + 1)])
  {
    var i := offset / FILTER_BASE;
    FilterTail(hash, k, contents, result, offsets, filters, i);
    assert FilterAt(hash, k, result, offsets, filters, i);
    var a, b := offsets[i], End(offsets, |result|, i + 1);
    assert contents[a..b] == result[a..b];
    hide FiltersOk, DecodeFixed, FixedList, Fixed, Pow, OpenFilter, FilterBlockOf;
  }

  lemma FilterTail(hash: Hasher, k: nat, contents: Bytes, result: Bytes, offsets: seq<nat>, filters: seq<seq<Bytes>>, i: nat)
    requires FilterBlockOf(hash, k, contents, result, offsets, filters) && |contents| < TWO32 && i < |offsets|
    ensures OpenFilter(contents) == Reader(|result|, |offsets|, FILTER_BASE_LG) && Pow(2, FILTER_BASE_LG) == FILTER_BASE
    ensures |contents| == |result| + 4 * |offsets| + 5
    ensures DecodeFixed(contents[|result| + 4 * i..|result| + 4 * i + 4]) == offsets[i]
    ensures DecodeFixed(contents[|result| + 4 * i + 4..|result| + 4 * i + 8]) == End(offsets, |result|, i + 1)
  {
    FixedListSize(offsets);
    Fixed32RoundTrip(|result|);
    TwoToEleven();
    hide FixedList, Fixed, DecodeFixed, FiltersOk, Pow;
    var n, word, lg := |contents|, Fixed(4, |result|), [FILTER_BASE_LG as byte];
    assert n == |result| + 4 * |offsets| + 5;
    assert contents[n - 5..n - 1] == word && contents[n - 1] as nat == FILTER_BASE_LG;
    OffsetsSmall(hash, k, contents, result, offsets, filters);
    FilterWord(result, offsets, word + lg, i);
    if i + 1 < |offsets| {
      FilterWord(result, offsets, word + lg, i + 1);
    } else {
      ArrayOffset(result, offsets, word, lg, i);
    }
  }

  lemma OffsetsSmall(hash: Hasher, k: nat, contents: Bytes, result: Bytes, offsets: seq<nat>, filters: seq<seq<Bytes>>)
    requires FilterBlockOf(hash, k, contents, result, offsets, filters) && |contents| < TWO32
    ensures forall j :: 0 <= j < |offsets| ==> offsets[j] < TWO32
  {
  }

  /** Word i of the offset array. */
  lemma FilterWord(result: Bytes, offsets: seq<nat>, tail: Bytes, i: nat)
    requires i < |offsets| && forall j :: 0 <= j < |offsets| ==> offsets[j] < TWO32
    ensures |FixedList(offsets)| == 4 * |offsets|
    ensures DecodeFixed((result + FixedList(offsets) + tail)[|result| + 4 * i..|result| + 4 * i + 4]) == offsets[i]
  {
    FixedListAt(offsets, i);
    hide FixedList, DecodeFixed;
    var list := FixedList(offsets);
    assert (result + list + tail)[|result| + 4 * i..|result| + 4 * i + 4] == list[4 * i..4 * i + 4];
  }

  /** The last word of the offset array is followed by the array's own offset. */
  lemma ArrayOffset(result: Bytes, offsets: seq<nat>, word: Bytes, lg: Bytes, i: nat)
    requires i + 1 == |offsets| && |FixedList(offsets)| == 4 * |offsets| && |word| == 4
    ensures (result + FixedList(offsets) + (word + lg))[|result| + 4 * i + 4..|result| + 4 * i + 8] == word
  {
    hide FixedList;
  }

  lemma TwoToEleven()
    ensures Pow(2, 11) == 2048
  {
    assert Pow(2, 1) == 2 && Pow(2, 2) == 4 && Pow(2, 3) == 8 && Pow(2, 4) == 16 && Pow(2, 5) == 32;
    assert Pow(2, 6) == 64 && Pow(2, 7) == 128 && Pow(2, 8) == 256 && Pow(2, 9) == 512 && Pow(2, 10) == 1024;
  }
}
