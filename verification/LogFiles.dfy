/** The write-ahead log files: which part of the history each one holds, and what replaying them yields. */
module LogFiles {
  import opened Keys
  import opened Tables

  /** A log record: the entries of one write batch. */
  type Batch = seq<Entry>

  function Flat(bs: seq<Batch>): seq<Entry> {
    if bs == [] then [] else Flat(bs[..|bs| - 1]) + bs[|bs| - 1]
  }

  lemma {:induction false} FlatConcat(a: seq<Batch>, b: seq<Batch>)
    ensures Flat(a + b) == Flat(a) + Flat(b)
  {
    if b == [] {
      assert a + b == a;
    } else {
      var n := |b| - 1;
      FlatConcat(a, b[..n]);
      assert (a + b)[..|a + b| - 1] == a + b[..n];
    }
  }

  lemma FlatOne(b: Batch)
    ensures Flat([b]) == b
  {
    assert [b][..0] == [];
  }

  lemma FlatSplit(bs: seq<Batch>, i: nat)
    requires i <= |bs|
    ensures Flat(bs) == Flat(bs[..i]) + Flat(bs[i..])
  {
    hide Flat;
    FlatConcat(bs[..i], bs[i..]);
    assert bs == bs[..i] + bs[i..];
  }

  /** Sequence numbers grow along the history. */
  ghost predicate Increasing(es: seq<Entry>) {
    forall i, j :: 0 <= i < j < |es| ==> es[i].sn < es[j].sn
  }

  lemma IncreasingParts(a: seq<Entry>, b: seq<Entry>)
    requires Increasing(a + b)
    ensures Increasing(a) && Increasing(b) && forall x, e :: x in a && e in b ==> x.sn < e.sn
  {
    assert forall i :: 0 <= i < |a| ==> (a + b)[i] == a[i];
    assert forall i :: 0 <= i < |b| ==> (a + b)[|a| + i] == b[i];
  }

  /** The logs numbered at least n, in increasing order. */
  ghost predicate LogsFrom(files: map<nat, seq<Batch>>, n: nat, nums: seq<nat>) {
    && (forall i, j :: 0 <= i < j < |nums| ==> nums[i] < nums[j])
    && (forall x :: x in nums <==> x in files && n <= x)
  }

  ghost function Replayed(files: map<nat, seq<Batch>>, nums: seq<nat>): seq<Batch>
    requires forall x :: x in nums ==> x in files
  {
    if nums == [] then [] else files[nums[0]] + Replayed(files, nums[1..])
  }

  /** The log files, and what they were: every batch ever logged, every log ever created, and where in history it begins. */
  datatype Logs = Logs(files: map<nat, seq<Batch>>, history: seq<Batch>, list: seq<nat>, starts: seq<nat>) {
    ghost function Start(i: nat): nat { if i < |starts| then starts[i] else |history| }

    ghost function Last(): nat
      requires list != []
    {
      list[|list| - 1]
    }
  }

  /** The logs from n on are all there. */
  ghost predicate LogsKept(l: Logs, n: nat) { forall i :: 0 <= i < |l.list| && n <= l.list[i] ==> l.list[i] in l.files }

  /** Each log that is still there holds its part of the history. */
  ghost predicate LogHolds(l: Logs, i: nat)
    requires i < |l.list| == |l.starts|
  {
    && l.starts[i] <= l.Start(i + 1) <= |l.history|
    && (l.list[i] in l.files ==> l.files[l.list[i]] == l.history[l.starts[i]..l.Start(i + 1)])
  }

  ghost predicate LogsOk(l: Logs) {
    && |l.list| == |l.starts|
    && (forall i, j :: 0 <= i < j < |l.list| ==> l.list[i] < l.list[j])
    && (forall i, j :: 0 <= i < j < |l.starts| ==> l.starts[i] <= l.starts[j])
    && (forall i :: 0 <= i < |l.starts| ==> l.starts[i] <= |l.history|)
    && (forall i :: 0 <= i < |l.list| ==> LogHolds(l, i))
    && (forall n :: n in l.files ==> n in l.list)
  }

  ghost predicate Below(l: Logs, next: nat) { forall n :: n in l.list ==> n < next }

  /** The logs numbered at least n are those from index k on. */
  ghost predicate SplitsAt(list: seq<nat>, n: nat, k: nat) {
    k <= |list| && (forall i :: 0 <= i < k ==> list[i] < n) && (forall i :: k <= i < |list| ==> n <= list[i])
  }

  lemma SplitsOnce(list: seq<nat>, n: nat, k: nat, k': nat)
    requires SplitsAt(list, n, k) && SplitsAt(list, n, k')
    ensures k == k'
  {
    assert k < |list| ==> n <= list[k];
    assert k' < |list| ==> n <= list[k'];
  }

  // ---------- replay ----------

  /** The logs from a number on replay to the history from where the first of them starts. */
  lemma ReplayIsSuffix(l: Logs, n: nat, k: nat, nums: seq<nat>)
    requires LogsOk(l) && LogsKept(l, n) && SplitsAt(l.list, n, k) && LogsFrom(l.files, n, nums)
    ensures l.Start(k) <= |l.history| && Replayed(l.files, nums) == l.history[l.Start(k)..]
  {
    SameList(l, n, nums, k);
    ReplayFrom(l, k);
  }

  lemma SameList(l: Logs, n: nat, nums: seq<nat>, i: nat)
    requires LogsOk(l) && LogsKept(l, n) && LogsFrom(l.files, n, nums) && SplitsAt(l.list, n, i)
    ensures nums == l.list[i..]
  {
    hide LogHolds;
    var list := l.list[i..];
    forall x ensures x in nums <==> x in list {
      if x in list {
        var j :| 0 <= j < |list| && list[j] == x;
        assert l.list[i + j] == x;
      }
      if x in nums {
        assert x in l.list;
        var j :| 0 <= j < |l.list| && l.list[j] == x;
        assert i <= j;
        assert list[j - i] == x;
      }
    }
    SortedUnique(nums, list);
  }

  lemma SuffixOfLogs(l: Logs, n: nat, k: nat)
    requires LogsOk(l) && LogsKept(l, n) && SplitsAt(l.list, n, k)
    ensures LogsFrom(l.files, n, l.list[k..])
  {
    hide LogHolds;
    var nums := l.list[k..];
    forall x ensures x in nums <==> x in l.files && n <= x {
      if x in nums {
        var i :| 0 <= i < |nums| && nums[i] == x;
        assert l.list[k + i] == x;
      }
      if x in l.files && n <= x {
        assert x in l.list;
        var i :| 0 <= i < |l.list| && l.list[i] == x;
        assert k <= i;
        assert nums[i - k] == x;
      }
    }
  }

  lemma {:induction false} SortedUnique(a: seq<nat>, b: seq<nat>)
    requires forall i, j :: 0 <= i < j < |a| ==> a[i] < a[j]
    requires forall i, j :: 0 <= i < j < |b| ==> b[i] < b[j]
    requires forall x :: x in a <==> x in b
    ensures a == b
  {
    if a == [] {
      HasMember(b);
    } else {
      assert a[0] in b;
      assert b[0] in a;
      assert a[0] == b[0];
      Rest(a);
      Rest(b);
      SortedUnique(a[1..], b[1..]);
    }
  }

  lemma HasMember(b: seq<nat>)
    ensures b != [] ==> exists x :: x in b
  {
    if b != [] { assert b[0] in b; }
  }

  lemma Rest(a: seq<nat>)
    requires a != [] && forall i, j :: 0 <= i < j < |a| ==> a[i] < a[j]
    ensures forall x :: x in a[1..] <==> x in a && x != a[0]
  {
    assert a == [a[0]] + a[1..];
  }

  lemma {:induction false} ReplayFrom(l: Logs, i: nat)
    requires LogsOk(l) && i <= |l.list| && forall j :: i <= j < |l.list| ==> l.list[j] in l.files
    ensures forall x :: x in l.list[i..] ==> x in l.files
    ensures l.Start(i) <= |l.history| && Replayed(l.files, l.list[i..]) == l.history[l.Start(i)..]
    decreases |l.list| - i
  {
    if i < |l.list| {
      ReplayFrom(l, i + 1);
      var a, b := l.starts[i], l.Start(i + 1);
      assert LogHolds(l, i);
      hide LogsOk;
      var nums := l.list[i..];
      assert nums[0] == l.list[i] && nums[1..] == l.list[i + 1..];
      assert l.history[a..b] + l.history[b..] == l.history[a..];
    }
  }

  // ---------- changes ----------

  /** AddRecord of one batch to the current log. */
  ghost function Logged(l: Logs, b: Batch): Logs
    requires l.list != [] && l.Last() in l.files
  {
    l.(history := l.history + [b], files := l.files[l.Last() := l.files[l.Last()] + [b]])
  }

  ghost function WithNewLog(l: Logs, n: nat): Logs {
    l.(files := l.files[n := []], list := l.list + [n], starts := l.starts + [|l.history|])
  }

  lemma LoggedOk(l: Logs, b: Batch)
    requires LogsOk(l) && l.list != [] && l.Last() in l.files
    ensures LogsOk(Logged(l, b))
  {
    var l', last := Logged(l, b), |l.list| - 1;
    assert LogHolds(l, last);
    forall i | 0 <= i < |l.list| ensures LogHolds(l', i) {
      assert LogHolds(l, i);
      var a := l.starts[i];
      assert i == last ==> l'.history[a..] == l.history[a..] + [b];
      assert i < last ==> l'.history[a..l.starts[i + 1]] == l.history[a..l.starts[i + 1]];
    }
  }

  lemma NewLogOk(l: Logs, n: nat)
    requires LogsOk(l) && Below(l, n)
    ensures LogsOk(WithNewLog(l, n)) && Below(WithNewLog(l, n), n + 1)
  {
    var l' := WithNewLog(l, n);
    forall i | 0 <= i < |l.list| ensures l'.list[i] == l.list[i] && l.list[i] < n {
      assert l.list[i] in l.list;
    }
    assert l'.list[|l.list|] == n;
    forall i | 0 <= i < |l'.list| ensures LogHolds(l', i) {
      if i < |l.list| {
        assert LogHolds(l, i);
        assert l.list[i] in l.list;
      }
    }
    forall x | x in l'.files ensures x in l'.list {
      if x != n { assert x in l.list; }
    }
  }

  lemma DeletedLogOk(l: Logs, n: nat)
    requires LogsOk(l)
    ensures LogsOk(l.(files := l.files - {n}))
  {
    var l' := l.(files := l.files - {n});
    forall i | 0 <= i < |l.list| ensures LogHolds(l', i) {
      assert LogHolds(l, i);
    }
  }
}
