/** The compaction loop: merge the inputs, drop dead entries, cut the survivors into files. */
module Compacting {
  import opened Keys
  import opened Tables
  import opened Overlaps
  import opened Picking
  import opened DropRule
  import opened LsmStates

  /** Ordered insertion; an entry that is already there stays single. */
  method InsertEntry(es: seq<Entry>, e: Entry) returns (r: seq<Entry>)
    requires Sorted(es) && Numbered(Entries(es) + {e})
    ensures Sorted(r) && forall x :: x in r <==> x in es || x == e
  {
    var p := 0;
    while p < |es| && Before(es[p].Key(), e.Key())
      invariant 0 <= p <= |es|
      invariant forall i :: 0 <= i < p ==> Before(es[i].Key(), e.Key())
    {
      p := p + 1;
    }
    if p < |es| && es[p].Key() == e.Key() {
      assert es[p] in Entries(es) + {e} && e in Entries(es) + {e};
      r := es;
    } else {
      r := es[..p] + [e] + es[p..];
      assert es == es[..p] + es[p..];
      if p < |es| {
        BeforeIsStrictTotalOrder(e.Key(), es[p].Key(), e.Key());
        forall j | p <= j < |es| ensures Before(e.Key(), es[j].Key()) {
          BeforeIsStrictTotalOrder(e.Key(), es[p].Key(), es[j].Key());
        }
      }
      InsertKeepsSorted(es, p, e);
    }
  }

  lemma InsertKeepsSorted(es: seq<Entry>, p: nat, e: Entry)
    requires Sorted(es) && p <= |es|
    requires forall i :: 0 <= i < p ==> Before(es[i].Key(), e.Key())
    requires forall j :: p <= j < |es| ==> Before(e.Key(), es[j].Key())
    ensures Sorted(es[..p] + [e] + es[p..])
  {
    var r := es[..p] + [e] + es[p..];
    assert forall i :: 0 <= i < |r| ==> r[i] == if i < p then es[i] else if i == p then e else es[i - 1];
  }

  ghost predicate InFiles(ins: seq<File>, e: Entry) { exists g :: g in ins && e in g.entries }

  /** MakeInputIterator: the entries of all inputs in internal-key order. */
  method MergeInputs(ins: seq<File>, ghost all: set<Entry>) returns (m: seq<Entry>)
    requires Numbered(all) && forall e :: InFiles(ins, e) ==> e in all
    ensures Merged(ins, m)
  {
    m := [];
    for i := 0 to |ins|
      invariant Sorted(m) && forall e :: e in m <==> InFiles(ins[..i], e)
    {
      var g := ins[i];
      ghost var was := m;
      assert g in ins;
      for j := 0 to |g.entries|
        invariant Sorted(m) && forall e :: e in m <==> e in was || e in g.entries[..j]
      {
        var e := g.entries[j];
        assert InFiles(ins, e);
        forall x | x in m ensures x in all {
          if x in was {
            var h :| h in ins[..i] && x in h.entries;
            assert InFiles(ins, x);
          } else {
            assert InFiles(ins, x);
          }
        }
        assert forall x :: x in Entries(m) + {e} ==> x in all;
        m := InsertEntry(m, e);
      }
      assert g.entries[..|g.entries|] == g.entries && ins[..i + 1] == ins[..i] + [g];
      forall e ensures e in m <==> InFiles(ins[..i + 1], e) {
        assert InFiles(ins[..i + 1], e) <==> InFiles(ins[..i], e) || e in g.entries;
      }
    }
    assert ins[..|ins|] == ins;
    forall e ensures e in m <==> exists g :: g in ins && e in g.entries {
      assert e in m <==> InFiles(ins, e);
    }
  }

  /** One output file under construction: what was added, and the metadata kept for it. */
  datatype Output = Output(number: nat, smallest: IKey, largest: IKey, entries: seq<Entry>)

  /** CompactionState: finished outputs, the open one, and the next file number. */
  datatype CompactionState = CompactionState(outs: seq<File>, builder: Option<Output>, nextFile: nat) {
    function Written(): seq<Entry> {
      Flatten(outs) + if builder.Some? then builder.value.entries else []
    }

    /** n is the number of a finished or open output. */
    ghost predicate Uses(n: nat) {
      (exists o :: o in outs && o.number == n) || (builder.Some? && builder.value.number == n)
    }

    ghost predicate Inv(first: nat) {
      && FreshFiles(outs, first, nextFile)
      && (builder.Some? ==>
            var b := builder.value;
            && WfFile(File(b.number, 0, b.smallest, b.largest, b.entries)) && first <= b.number < nextFile
            && forall i :: 0 <= i < |outs| ==> outs[i].number < b.number)
    }
  }

  method FinishOutputFile(st: CompactionState, ghost first: nat) returns (r: CompactionState)
    requires st.Inv(first)
    ensures r.Inv(first) && r.Written() == st.Written() && r.builder == None && r.nextFile == st.nextFile
    ensures forall n :: r.Uses(n) <==> st.Uses(n)
  {
    r := st;
    if st.builder.Some? {
      var b := st.builder.value;
      var size: nat :| true;
      var f := File(b.number, size, b.smallest, b.largest, b.entries);
      r := st.(outs := st.outs + [f], builder := None);
      assert r.outs[..|r.outs| - 1] == st.outs;
    }
  }

  /** Append a surviving entry to the open output, opening one with the given number if there is none. */
  method AddToOutput(st: CompactionState, e: Entry, number: nat, ghost first: nat) returns (r: CompactionState)
    requires st.Inv(first) && Sorted(st.Written() + [e]) && st.nextFile <= number
    ensures r.Inv(first) && r.Written() == st.Written() + [e]
    ensures r.outs == st.outs && r.builder.Some?
    ensures r.builder.value.number == if st.builder.Some? then st.builder.value.number else number
    ensures r.nextFile == if st.builder.Some? then st.nextFile else number + 1
  {
    if st.builder.None? {
      r := st.(builder := Some(Output(number, e.Key(), e.Key(), [e])), nextFile := number + 1);
    } else {
      var b := st.builder.value;
      var b' := b.(largest := e.Key(), entries := b.entries + [e]);
      ghost var all, k := st.Written() + [e], |Flatten(st.outs)|;
      assert forall i :: 0 <= i < |b'.entries| ==> b'.entries[i] == all[k + i];
      r := st.(builder := Some(b'));
    }
  }
}
