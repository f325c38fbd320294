/**
 * Batch ingestion (`parse_and_insert`): the per-line loop that normalises
 * each line, buffers the records and calls `insert_many` whenever the
 * buffer reaches the batch size. As written, nothing flushes the buffer
 * after the loop; `ParseAndInsertFlushed` is the intended variant.
 */
module Ingestion {
  import opened Wrappers
  import opened Normalization
  import opened Batching

  /** The raw collection (`individualWins`): its documents and the log of `insert_many` calls. */
  class RawCollection {
    var records: seq<WinRecord>
    ghost var calls: seq<seq<WinRecord>>

    ghost predicate Valid()
      reads this
    {
      records == Concat(calls)
    }

    constructor ()
      ensures Valid() && records == [] && calls == []
    {
      records := [];
      calls := [];
    }

    /** `insert_many(docs)`; pymongo refuses an empty list, so callers must not pass one. */
    method InsertMany(docs: seq<WinRecord>)
      requires Valid()
      requires docs != []
      modifies this
      ensures Valid()
      ensures records == old(records) + docs
      ensures calls == old(calls) + [docs]
    {
      ConcatSnoc(calls, docs);
      records := records + docs;
      calls := calls + [docs];
    }
  }

  /** The records produced from a prefix of the file, and the exception that ended it, if any. */
  datatype IngestState = IngestState(records: seq<WinRecord>, failure: Option<PyError>)

  /** What the normaliser makes of each line, in file order. */
  function Outcomes(lines: seq<string>, dec: Decoders): (r: seq<LineOutcome>)
    ensures |r| == |lines|
  {
    seq(|lines|, i requires 0 <= i < |lines| => NormalizeLine(lines[i], dec))
  }

  /**
   * Reference meaning of the loop: the records of the lines that normalise,
   * skipped lines contributing nothing, and everything after the first
   * uncaught exception ignored.
   */
  function Ingest(outcomes: seq<LineOutcome>): (st: IngestState)
    ensures |st.records| <= |outcomes|
    decreases |outcomes|
  {
    if outcomes == [] then IngestState([], None)
    else
      var prev := Ingest(outcomes[..|outcomes| - 1]);
      if prev.failure.Some? then prev
      else
        match outcomes[|outcomes| - 1]
        case Parsed(rec) => IngestState(prev.records + [rec], None)
        case Skipped => prev
        case Crashed(e) => IngestState(prev.records, Some(e))
  }

  /** `len(documents) >= batch_size` after an append: a size below 1 behaves as 1. */
  function Threshold(batchSize: int): (b: nat)
    ensures b >= 1
  {
    if batchSize < 1 then 1 else batchSize
  }

  /** After an append the buffer holds n >= 1 records: the source's test and the threshold agree. */
  lemma ThresholdMatchesTest(batchSize: int, n: int)
    requires n >= 1
    ensures n >= batchSize <==> n >= Threshold(batchSize)
  {
  }

  /** Once a line has raised, later lines change nothing. */
  lemma {:induction false} FailureStopsIngestion(before: seq<LineOutcome>, after: seq<LineOutcome>)
    requires Ingest(before).failure.Some?
    ensures Ingest(before + after) == Ingest(before)
    decreases |after|
  {
    if after == [] {
      assert before + after == before;
    } else {
      var all := before + after;
      assert all[..|all| - 1] == before + after[..|after| - 1];
      FailureStopsIngestion(before, after[..|after| - 1]);
    }
  }

  /**
   * A skipped line is invisible: removing it changes neither the records
   * (so neither the batch boundaries) nor the outcome of the later lines.
   */
  lemma {:induction false} SkippedLineIsInvisible(before: seq<LineOutcome>, after: seq<LineOutcome>)
    ensures Ingest(before + [Skipped] + after) == Ingest(before + after)
    decreases |after|
  {
    if after == [] {
      assert before + [Skipped] + after == before + [Skipped];
      assert (before + [Skipped])[..|before|] == before;
      assert before + after == before;
    } else {
      var with, without := before + [Skipped] + after, before + after;
      var front := after[..|after| - 1];
      assert with[..|with| - 1] == before + [Skipped] + front;
      assert without[..|without| - 1] == before + front;
      assert with[|with| - 1] == without[|without| - 1];
      SkippedLineIsInvisible(before, front);
    }
  }

  /** The outcomes of a file are the outcomes of its parts, so a line skips wherever it stands. */
  lemma OutcomesSplit(before: seq<string>, line: string, after: seq<string>, dec: Decoders)
    ensures Outcomes(before + [line] + after, dec) ==
              Outcomes(before, dec) + [NormalizeLine(line, dec)] + Outcomes(after, dec)
  {
  }

  /** One more line: the state after it, given that no earlier line raised. */
  lemma IngestNext(outcomes: seq<LineOutcome>, i: nat)
    requires i < |outcomes| && Ingest(outcomes[..i]).failure.None?
    ensures Ingest(outcomes[..i + 1]) ==
              match outcomes[i]
              case Parsed(rec) => IngestState(Ingest(outcomes[..i]).records + [rec], None)
              case Skipped => Ingest(outcomes[..i])
              case Crashed(e) => IngestState(Ingest(outcomes[..i]).records, Some(e))
  {
    assert outcomes[..i + 1][..i] == outcomes[..i];
  }

  /**
   * The loop of `parse_and_insert` over already decompressed lines. Returns
   * the exception that escaped, if any, and the buffer as it stands when the
   * loop stops.
   */
  method IngestLines(lines: seq<string>, collection: RawCollection, batchSize: int, dec: Decoders)
    returns (error: Option<PyError>, documents: seq<WinRecord>)
    requires collection.Valid()
    modifies collection
    ensures collection.Valid()
    ensures error == Ingest(Outcomes(lines, dec)).failure
    ensures collection.calls == old(collection.calls) + Batches(Ingest(Outcomes(lines, dec)).records, Threshold(batchSize))
    ensures collection.records == old(collection.records) + Concat(Batches(Ingest(Outcomes(lines, dec)).records, Threshold(batchSize)))
    ensures documents == Leftover(Ingest(Outcomes(lines, dec)).records, Threshold(batchSize))
  {
    var b := Threshold(batchSize);
    ghost var outcomes := Outcomes(lines, dec);
    documents := [];
    var i := 0;
    while i < |lines|
      invariant 0 <= i <= |lines|
      invariant collection.Valid()
      invariant Ingest(outcomes[..i]).failure == None
      invariant collection.calls == old(collection.calls) + Batches(Ingest(outcomes[..i]).records, b)
      invariant documents == Leftover(Ingest(outcomes[..i]).records, b)
    {
      ghost var done := Ingest(outcomes[..i]).records;
      var outcome := NormalizeLine(lines[i], dec);
      assert outcomes[i] == outcome;
      IngestNext(outcomes, i);
      if outcome.Crashed? {
        FailureStopsIngestion(outcomes[..i + 1], outcomes[i + 1..]);
        assert outcomes[..i + 1] + outcomes[i + 1..] == outcomes;
        ConcatAppend(old(collection.calls), Batches(done, b));
        return Some(outcome.error), documents;
      }
      if outcome.Parsed? {
        BatchesSnoc(done, outcome.record, b);
        documents := documents + [outcome.record];
        if |documents| >= batchSize {
          collection.InsertMany(documents);
          documents := [];
        }
      }
      i := i + 1;
    }
    assert outcomes[..i] == outcomes;
    error := None;
    ConcatAppend(old(collection.calls), Batches(Ingest(outcomes).records, b));
  }

  /**
   * `parse_and_insert` as written: after the last line the buffer is
   * dropped, so only the full batches reach the collection and the last
   * |records| % batch size records (`unflushed`) never do.
   */
  method ParseAndInsert(lines: seq<string>, collection: RawCollection, batchSize: int, dec: Decoders)
    returns (error: Option<PyError>, ghost unflushed: seq<WinRecord>)
    requires collection.Valid()
    modifies collection
    ensures collection.Valid()
    ensures error == Ingest(Outcomes(lines, dec)).failure
    ensures collection.calls == old(collection.calls) + Batches(Ingest(Outcomes(lines, dec)).records, Threshold(batchSize))
    ensures collection.records == old(collection.records) + Concat(Batches(Ingest(Outcomes(lines, dec)).records, Threshold(batchSize)))
    ensures unflushed == Leftover(Ingest(Outcomes(lines, dec)).records, Threshold(batchSize))
  {
    var documents;
    error, documents := IngestLines(lines, collection, batchSize, dec);
    unflushed := documents;
  }

  /**
   * The intended behaviour: the same loop, then one more `insert_many` for a
   * non-empty buffer once the file is exhausted.
   */
  method ParseAndInsertFlushed(lines: seq<string>, collection: RawCollection, batchSize: int, dec: Decoders)
    returns (error: Option<PyError>)
    requires collection.Valid()
    modifies collection
    ensures collection.Valid()
    ensures error == Ingest(Outcomes(lines, dec)).failure
    ensures error.None? ==>
              collection.calls == old(collection.calls) + FlushedBatches(Ingest(Outcomes(lines, dec)).records, Threshold(batchSize))
    ensures error.None? ==> collection.records == old(collection.records) + Ingest(Outcomes(lines, dec)).records
    ensures error.Some? ==>
              collection.calls == old(collection.calls) + Batches(Ingest(Outcomes(lines, dec)).records, Threshold(batchSize))
  {
    ghost var recs := Ingest(Outcomes(lines, dec)).records;
    ghost var b := Threshold(batchSize);
    var documents;
    error, documents := IngestLines(lines, collection, batchSize, dec);
    if error.None? && documents != [] {
      collection.InsertMany(documents);
    }
    if error.None? {
      WrittenThenBuffered(old(collection.records), recs, b);
    }
  }
}
