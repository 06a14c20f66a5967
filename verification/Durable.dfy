/** What the bytes of a log or of a MANIFEST hold, after a crash that cuts them anywhere. */
module Durable {
  import opened Keys
  import opened Coding
  import opened LogFormat
  import opened LogReading
  import opened WriteBatch
  import EditCodec

  /** A batch as DBImpl::Write hands it to the log. */
  datatype Batch = Batch(sn: nat, ops: seq<Op>)

  ghost predicate WfBatch(b: Batch) { AllFit(b.ops) && |b.ops| < TWO32 && b.sn < TWO64 }

  function BatchRecords(bs: seq<Batch>): (rs: seq<Bytes>)
    ensures |rs| == |bs| && forall i :: 0 <= i < |bs| ==> rs[i] == WriteBatch.Encode(bs[i].sn, bs[i].ops)
  {
    seq(|bs|, i requires 0 <= i < |bs| => WriteBatch.Encode(bs[i].sn, bs[i].ops))
  }

  /** Record r is batch b: it iterates to the updates of b, under the sequence number of b. */
  ghost predicate ReadsAs(r: Bytes, b: Batch) {
    |r| >= HEADER && Iterated(r) == (b.ops, WriteBatch.Ok) && DecodeFixed(r[..8]) == b.sn
  }

  /**
   From the log of any batches, cut off after any number of bytes, recovery reads the first ones, each of them
   whole, and reports nothing; from the whole log it reads them all.
   */
  lemma CutLogHoldsWholeBatches(crc: Crc, bs: seq<Batch>, n: nat) returns (k: nat)
    requires (forall i :: 0 <= i < |bs| ==> WfBatch(bs[i])) && n <= |Log(crc, 0, BatchRecords(bs))|
    ensures var (rs, s) := ReadAll(crc, Opened(Log(crc, 0, BatchRecords(bs))[..n]));
            k <= |bs| && |rs| == k && s.reports == 0 && (forall i :: 0 <= i < k ==> ReadsAs(rs[i], bs[i]))
            && (n == |Log(crc, 0, BatchRecords(bs))| ==> k == |bs|)
  {
    var records := BatchRecords(bs);
    hide ReadAll, Log, Iterated, BatchRecords;
    k := Complete(crc, BLOCK_SIZE, records, n);
    PrefixReadsBack(crc, records, n);
    forall i | 0 <= i < |bs| ensures ReadsAs(records[i], bs[i]) { BatchRoundTrip(bs[i].sn, bs[i].ops); }
    if n == |Log(crc, 0, records)| {
      BlockBoundary(crc, records);
      CompleteIsAll(crc, BLOCK_SIZE, records);
    }
  }

  /** A version edit with the order in which its deleted files are written. */
  datatype OrderedEdit = OrderedEdit(edit: EditCodec.VersionEdit, order: seq<(nat, nat)>)

  ghost predicate WfEntry(e: OrderedEdit) { EditCodec.Enumerates(e.order, e.edit.deleted) && EditCodec.FitsEdit(e.edit, e.order) }

  function EditRecords(es: seq<OrderedEdit>): (rs: seq<Bytes>)
    ensures |rs| == |es| && forall i :: 0 <= i < |es| ==> rs[i] == EditCodec.EncodeTo(es[i].edit, es[i].order)
  {
    seq(|es|, i requires 0 <= i < |es| => EditCodec.EncodeTo(es[i].edit, es[i].order))
  }

  /** What VersionSet::Recover decodes from a record, into a fresh edit. */
  function DecodedEdit(r: Bytes): (EditCodec.VersionEdit, EditCodec.Status) {
    EditCodec.Decoded(EditCodec.Cleared(EditCodec.Empty), r)
  }

  /** A MANIFEST, cut off anywhere, decodes to the first of the edits written to it. */
  lemma CutManifestHoldsWholeEdits(crc: Crc, es: seq<OrderedEdit>, n: nat) returns (k: nat)
    requires (forall i :: 0 <= i < |es| ==> WfEntry(es[i])) && n <= |Log(crc, 0, EditRecords(es))|
    ensures var (rs, s) := ReadAll(crc, Opened(Log(crc, 0, EditRecords(es))[..n]));
            k <= |es| && |rs| == k && s.reports == 0
            && (forall i :: 0 <= i < k ==> DecodedEdit(rs[i]) == (es[i].edit, EditCodec.Ok))
            && (n == |Log(crc, 0, EditRecords(es))| ==> k == |es|)
  {
    var records := EditRecords(es);
    hide ReadAll, Log, EditCodec.Decoded, EditRecords, EditCodec.EncodeTo, EditCodec.FitsEdit;
    k := Complete(crc, BLOCK_SIZE, records, n);
    PrefixReadsBack(crc, records, n);
    forall i | 0 <= i < |es| ensures DecodedEdit(records[i]) == (es[i].edit, EditCodec.Ok) {
      EditCodec.EditRoundTrip(EditCodec.Empty, es[i].edit, es[i].order);
      assert [] + es[i].edit.compactPointers == es[i].edit.compactPointers;
    }
    if n == |Log(crc, 0, records)| {
      BlockBoundary(crc, records);
      CompleteIsAll(crc, BLOCK_SIZE, records);
    }
  }
}
