/**
 * The upsert half of `aggregate_and_upsert`: every document the group
 * pipeline yields becomes an `UpdateOne(filter = key, $set the four
 * numbers, upsert = True)`, and the list is sent in one `bulk_write`,
 * unless it is empty.
 */
module Upsert {
  import opened Normalization
  import opened Ingestion
  import opened Aggregation

  /** One document of the pipeline's output: the five key fields and the four numbers. */
  datatype AggDoc = AggDoc(key: GroupKey, bucket: Bucket)

  /** `UpdateOne(filter, {"$set": numbers}, upsert=True)`. */
  datatype UpdateOne = UpdateOne(filter: GroupKey, update: Bucket)

  /** An ordered bulk write of upserts on a collection keyed by the group key. */
  function ApplyAll(target: map<GroupKey, Bucket>, ops: seq<UpdateOne>): map<GroupKey, Bucket>
    decreases |ops|
  {
    if ops == [] then target else ApplyAll(target[ops[0].filter := ops[0].update], ops[1..])
  }

  /** The keys a list of documents carries. */
  ghost function DocKeys(docs: seq<AggDoc>): set<GroupKey> {
    set i | 0 <= i < |docs| :: docs[i].key
  }

  /** The keys a list of operations writes. */
  ghost function Filters(ops: seq<UpdateOne>): set<GroupKey> {
    set i | 0 <= i < |ops| :: ops[i].filter
  }

  /** Every document carries its key's bucket, and every bucket of `result` has a document. */
  ghost predicate ListsResult(docs: seq<AggDoc>, result: map<GroupKey, Bucket>) {
    && DocKeys(docs) == result.Keys
    && (forall i :: 0 <= i < |docs| ==> docs[i].key in result && result[docs[i].key] == docs[i].bucket)
  }

  ghost predicate DistinctKeys(docs: seq<AggDoc>) {
    forall i, j :: 0 <= i < j < |docs| ==> docs[i].key != docs[j].key
  }

  /** Every operation sets its key to that key's bucket in `result`. */
  ghost predicate AgreesWith(ops: seq<UpdateOne>, result: map<GroupKey, Bucket>) {
    forall i :: 0 <= i < |ops| ==> ops[i].filter in result && result[ops[i].filter] == ops[i].update
  }

  /** The operations agree with `result` and cover every one of its keys. */
  ghost predicate UpsertsOf(ops: seq<UpdateOne>, result: map<GroupKey, Bucket>) {
    AgreesWith(ops, result) && Filters(ops) == result.Keys
  }

  /** The aggregate collection (`geoAggregation`), keyed by the group key, and the log of bulk writes. */
  class AggregateCollection {
    var buckets: map<GroupKey, Bucket>
    ghost var writes: seq<seq<UpdateOne>>

    constructor ()
      ensures buckets == map[] && writes == []
    {
      buckets := map[];
      writes := [];
    }

    /** `bulk_write(ops)`; pymongo refuses an empty list of operations. */
    method BulkWrite(ops: seq<UpdateOne>)
      requires ops != []
      modifies this
      ensures buckets == ApplyAll(old(buckets), ops)
      ensures writes == old(writes) + [ops]
    {
      buckets := ApplyAll(buckets, ops);
      writes := writes + [ops];
    }
  }

  lemma DocKeysSnoc(docs: seq<AggDoc>, d: AggDoc)
    ensures DocKeys(docs + [d]) == DocKeys(docs) + {d.key}
  {
    var all := docs + [d];
    forall k | k in DocKeys(docs) ensures k in DocKeys(all) {
      var i :| 0 <= i < |docs| && docs[i].key == k;
      assert all[i].key == k;
    }
    assert all[|docs|].key == d.key;
  }

  /** Appending a document for a key not yet listed keeps the listing consistent and duplicate-free. */
  lemma ListNext(cursor: seq<AggDoc>, d: AggDoc, result: map<GroupKey, Bucket>)
    requires d.key !in DocKeys(cursor) && d.key in result && result[d.key] == d.bucket
    requires forall i :: 0 <= i < |cursor| ==> cursor[i].key in result && result[cursor[i].key] == cursor[i].bucket
    requires DistinctKeys(cursor)
    ensures DocKeys(cursor + [d]) == DocKeys(cursor) + {d.key}
    ensures forall i :: 0 <= i < |cursor + [d]| ==>
              (cursor + [d])[i].key in result && result[(cursor + [d])[i].key] == (cursor + [d])[i].bucket
    ensures DistinctKeys(cursor + [d])
  {
    DocKeysSnoc(cursor, d);
    forall i | 0 <= i < |cursor| ensures cursor[i].key != d.key {
      assert cursor[i].key in DocKeys(cursor);
    }
  }

  /**
   * `source_collection.aggregate(pipeline)`: the buckets of the raw records as
   * a cursor, one document per key, in an order the store chooses.
   */
  method RunPipeline(records: seq<WinRecord>) returns (cursor: seq<AggDoc>)
    ensures ListsResult(cursor, Aggregate(records))
    ensures DistinctKeys(cursor)
    ensures |cursor| == |Aggregate(records).Keys|
  {
    var result := Aggregate(records);
    var pending := result.Keys;
    cursor := [];
    while pending != {}
      invariant pending !! DocKeys(cursor) && pending + DocKeys(cursor) == result.Keys
      invariant forall i :: 0 <= i < |cursor| ==> cursor[i].key in result && result[cursor[i].key] == cursor[i].bucket
      invariant DistinctKeys(cursor)
      invariant |cursor| + |pending| == |result.Keys|
      decreases pending
    {
      var k :| k in pending;
      ListNext(cursor, AggDoc(k, result[k]), result);
      cursor := cursor + [AggDoc(k, result[k])];
      pending := pending - {k};
    }
  }

  lemma FiltersCons(ops: seq<UpdateOne>)
    requires ops != []
    ensures Filters(ops) == {ops[0].filter} + Filters(ops[1..])
  {
    var rest := ops[1..];
    forall k | k in Filters(ops) ensures k == ops[0].filter || k in Filters(rest) {
      var i :| 0 <= i < |ops| && ops[i].filter == k;
      if i > 0 { assert rest[i - 1].filter == k; }
    }
    forall k | k in Filters(rest) ensures k in Filters(ops) {
      var i :| 0 <= i < |rest| && rest[i].filter == k;
      assert ops[i + 1].filter == k;
    }
  }

  /**
   * A bulk write of operations that agree with `result`: the keys they
   * mention hold their bucket from `result`, every other key is untouched.
   */
  lemma {:induction false} ApplyAgreeing(target: map<GroupKey, Bucket>, ops: seq<UpdateOne>, result: map<GroupKey, Bucket>)
    requires AgreesWith(ops, result)
    ensures forall k :: k in ApplyAll(target, ops) <==> k in target || k in Filters(ops)
    ensures forall k :: k in Filters(ops) ==> k in result && ApplyAll(target, ops)[k] == result[k]
    ensures forall k :: k in target && k !in Filters(ops) ==> ApplyAll(target, ops)[k] == target[k]
    decreases |ops|
  {
    if ops != [] {
      var o, rest := ops[0], ops[1..];
      assert AgreesWith(rest, result) by {
        forall i | 0 <= i < |rest| ensures rest[i] == ops[i + 1] { }
      }
      ApplyAgreeing(target[o.filter := o.update], rest, result);
      FiltersCons(ops);
    }
  }

  /**
   * The merge: after the bulk write each key of `result` holds exactly its
   * fresh bucket, every other key keeps its old bucket (or stays absent),
   * whatever order the operations come in.
   */
  lemma MergeUpserts(target: map<GroupKey, Bucket>, ops: seq<UpdateOne>, result: map<GroupKey, Bucket>)
    requires UpsertsOf(ops, result)
    ensures ApplyAll(target, ops) == target + result
    ensures ApplyAll(target, ops).Keys == target.Keys + result.Keys
    ensures forall k :: k in result ==> ApplyAll(target, ops)[k] == result[k]
    ensures forall k :: k in target && k !in result ==> ApplyAll(target, ops)[k] == target[k]
  {
    ApplyAgreeing(target, ops, result);
  }

  /** Running the merge again with the same result, in any order, changes nothing. */
  lemma RerunIsIdempotent(target: map<GroupKey, Bucket>, first: seq<UpdateOne>, again: seq<UpdateOne>, result: map<GroupKey, Bucket>)
    requires UpsertsOf(first, result) && UpsertsOf(again, result)
    ensures ApplyAll(ApplyAll(target, first), again) == ApplyAll(target, first)
  {
    MergeUpserts(target, first, result);
    MergeUpserts(target + result, again, result);
    assert target + result + result == target + result;
  }

  /** The loop of `aggregate_and_upsert` that turns each output document into an upsert. */
  method BuildUpserts(cursor: seq<AggDoc>) returns (ops: seq<UpdateOne>)
    ensures forall result :: ListsResult(cursor, result) ==> UpsertsOf(ops, result)
    ensures |ops| == |cursor|
  {
    ops := [];
    for i := 0 to |cursor|
      invariant |ops| == i
      invariant forall j :: 0 <= j < i ==> ops[j] == UpdateOne(cursor[j].key, cursor[j].bucket)
    {
      ops := ops + [UpdateOne(cursor[i].key, cursor[i].bucket)];
    }
    assert Filters(ops) == DocKeys(cursor) by {
      forall k | k in DocKeys(cursor) ensures k in Filters(ops) {
        var i :| 0 <= i < |cursor| && cursor[i].key == k;
        assert ops[i].filter == k;
      }
    }
  }

  /**
   * `aggregate_and_upsert`: run the pipeline over the raw collection, build
   * one upsert per output document, and send them in one bulk write when
   * there is at least one.
   */
  method AggregateAndUpsert(source: RawCollection, target: AggregateCollection)
    modifies target
    ensures target.buckets == old(target.buckets) + Aggregate(source.records)
    ensures Aggregate(source.records) == map[] ==> target.writes == old(target.writes)
    ensures Aggregate(source.records) != map[] ==>
              && |target.writes| == |old(target.writes)| + 1
              && target.writes[..|old(target.writes)|] == old(target.writes)
              && UpsertsOf(target.writes[|old(target.writes)|], Aggregate(source.records))
              && |target.writes[|old(target.writes)|]| == |Aggregate(source.records).Keys|
  {
    ghost var result := Aggregate(source.records);
    var cursor := RunPipeline(source.records);
    var bulkOperations := BuildUpserts(cursor);
    MergeUpserts(target.buckets, bulkOperations, result);
    if bulkOperations != [] {
      target.BulkWrite(bulkOperations);
      assert target.writes[..|old(target.writes)|] == old(target.writes);
    } else {
      assert result == map[];
    }
  }
}
