# Bid-win analytics pipeline, modelled in Dafny

`analytics_interview.py` is a small batch pipeline over gzip files of
bid-win logs, one JSON object per line. It has two stages:

- `parse_and_insert` decodes each line and normalises it into a ten-field
  win record. It defaults the missing ids to "NA" and the missing
  bid-request fields to "Others", resolves geo through a two-step fallback,
  strips the "USD/1M" unit from the price and turns the timestamp into epoch
  seconds. It skips lines that fail to decode and writes the records to the
  raw collection in `insert_many` batches of `batch_size`.
- `aggregate_and_upsert` groups the raw collection by
  (campaignId, creativeId, adgroupId, geo, time). Each group gets the sum,
  minimum and maximum of its prices and a record count. One
  `UpdateOne(..., upsert=True)` per group is sent in a single `bulk_write`
  to the aggregate collection.

The project is split into these modules:

- `Wrappers` (`wrappers.dfy`): `Option`, `Result` and the three Python
  exceptions the line code can raise.
- `JsonValue` (`json.dfy`): decoded JSON values, `dict.get` and Python truthiness.
- `Normalization` (`normalization.dfy`): one line to a `LineOutcome`. The
  outcome is a record, a skip (a `JSONDecodeError`, caught) or a crash (an
  exception the `try` does not catch).
  - `json.loads`, `float` and `strptime(...).timestamp()` are parameters
    (`Decoders`): total functions that return `None` where Python raises.
- `Batching` (`batching.dfy`): how a stream of records is cut into
  `insert_many` calls.
- `Ingestion` (`ingestion.dfy`): the per-line loop of `parse_and_insert` as a
  method over a `RawCollection` class, whose ghost call log records every
  `insert_many`.
- `Aggregation` (`aggregation.dfy`): the meaning of the `$group`/`$project`
  pipeline as a function from records to a map from group key to bucket.
- `Upsert` (`upsert.dfy`): the cursor, the loop that builds the upserts, and
  the bulk write on an `AggregateCollection` class, which holds a map keyed
  by the group key.

Three behaviours of the code are easy to miss. The model states each one.

- An empty `bidRequestString` is not treated as an empty object.
  `json.loads("")` raises `JSONDecodeError`, so the line is skipped
  (`Normalization.EmptyBidRequestIsSkipped`).
- A `batch_size` below 1 is accepted. After each append the buffer holds at
  least one record, so the test `len(documents) >= batch_size` flushes after
  every record, exactly as a `batch_size` of 1 would
  (`Ingestion.Threshold`, `Ingestion.ThresholdMatchesTest`).
- The records left in the buffer at the end of the file are not flushed.
  See "## Findings".

## Model

| member | source | states |
|---|---|---|
| Normalization.StripPriceUnit | analytics_interview.py:47 | `replace("USD/1M", "")` never lengthens the price string, and the length drops by a multiple of the unit's length. Which characters go is stated by `Normalization.StripAtLeftmost` and `Normalization.StripWithoutUnit` |
| Normalization.StripAtLeftmost | analytics_interview.py:47 | for every string: the text before the leftmost "USD/1M" is kept, that occurrence is removed, and the replacement continues on the rest |
| Normalization.StripWithoutUnit | analytics_interview.py:47 | a price string with no "USD/1M" in it reaches `float` unchanged |
| Normalization.StripUnitSuffix | analytics_interview.py:47 | a price "<number>USD/1M" reaches `float` as "<number>" |
| Normalization.StripIsSinglePass | analytics_interview.py:47 | the replacement is a single left-to-right pass: "USDUSD/1M/1M" becomes "USD/1M", not "" |
| Normalization.ResolveGeo | analytics_interview.py:35-45 | the two `.get` chains of geo resolution; characterised by `Normalization.GeoFallback` |
| Normalization.GeoFallback | analytics_interview.py:35-45 | a country other than "Others" wins. An absent or "Others" country defers to `geo_criteria_id`, and to "Others" when that is absent too. Resolution raises exactly when `device`, `geo` or (on the fallback) `ext` is present but not an object |
| Normalization.ParsePrice | analytics_interview.py:47 | `float(data.get("winPrice", "0").replace("USD/1M", ""))`; characterised by `Normalization.PriceDefaults` and `Normalization.UnitSuffixedPrice` |
| Normalization.PriceDefaults | analytics_interview.py:47 | an absent `winPrice` is parsed from "0". A non-string price raises AttributeError. A price without the unit is parsed as it is |
| Normalization.ParseTime | analytics_interview.py:48-53 | the `int(strptime(...).timestamp()) if time else 0` expression; characterised by `Normalization.TimeDefaults` |
| Normalization.TimeDefaults | analytics_interview.py:48-53 | an absent or falsy timestamp gives 0. A truthy non-string raises TypeError. A non-empty string that parses gives its parsed time, and every non-zero time comes from such a parse. ValueError is raised exactly when a non-empty string does not parse |
| Normalization.NormalizeLine | analytics_interview.py:24-67 | the body of the per-line `try`, in the source's evaluation order; characterised by `Normalization.ParsedExactlyWhenNothingRaises`, `Normalization.SkipsExactlyOnDecodeError`, `Normalization.RecordFieldsDefault`, `Normalization.BadPriceRaises` and `Normalization.BadTimeRaises` |
| Normalization.ParsedExactlyWhenNothingRaises | analytics_interview.py:24-67 | a line becomes a record if and only if it decodes to an object, its `bidRequestString` is a string that decodes to an object, and geo, price and time all resolve |
| Normalization.AllAbsentGivesDefaults | analytics_interview.py:27-67 | the line `{}` gives the record with "NA" for the four ids, "Others" for user agent, site, geo and exchange, price `float("0")` and time 0 |
| Normalization.SkipsExactlyOnDecodeError | analytics_interview.py:24-31 | a line is skipped if and only if the outer `json.loads` or the nested `bidRequestString` decode fails |
| Normalization.EmptyBidRequestIsSkipped | analytics_interview.py:31 | an empty `bidRequestString` skips the line instead of defaulting to an empty object |
| Normalization.RecordFieldsDefault | analytics_interview.py:27-34 | every field of a produced record is the source value when present. Otherwise it is "NA" for the four ids and "Others" for user agent, site and exchange. Geo, price and time are the resolved values |
| Normalization.BadPriceRaises | analytics_interview.py:47 | whatever object the `bidRequestString` decodes to, once geo resolves, an unparsable price ends the run with ValueError instead of skipping the line |
| Normalization.BadTimeRaises | analytics_interview.py:48-53 | once geo and price resolve, a non-empty timestamp string that `strptime` rejects ends the run with ValueError instead of skipping the line |
| Normalization.UnitSuffixedPrice | analytics_interview.py:47 | a `winPrice` "<number>USD/1M" is priced as `float("<number>")` |
| Batching.Batches | analytics_interview.py:69-72 | every written batch holds exactly the threshold number of records |
| Batching.Leftover | analytics_interview.py:69-72 | the buffer always holds fewer records than the threshold |
| Batching.BatchCounts | analytics_interview.py:69-72 | N buffered records give ⌊N/b⌋ `insert_many` calls and leave N mod b records in the buffer |
| Batching.BatchesThenLeftover | analytics_interview.py:69-72 | the written batches followed by the buffer are the record stream, in line order |
| Batching.BatchesSnoc | analytics_interview.py:69-72 | one more record joins the buffer. When the buffer thereby reaches b records, it becomes one more batch and is emptied |
| Batching.UnflushedTailIsLost | analytics_interview.py:19-75 | without a final flush only the first N − N mod b records are written. The stream is incomplete exactly when N mod b ≠ 0 |
| Batching.FlushedBatches | analytics_interview.py:19-75 | the calls a final flush would make: the full batches and then the non-empty buffer; characterised by `Batching.FlushedBatchesComplete` and `Batching.FlushedBatchCount` |
| Batching.FlushedBatchesComplete | analytics_interview.py:19-75 | with a final flush every record is written, in order. Every call is non-empty and at most b long, and all but the last are exactly b |
| Batching.FlushedBatchCount | analytics_interview.py:19-75 | with a final flush there are ⌈N/b⌉ calls |
| Ingestion.RawCollection.InsertMany | analytics_interview.py:71 | `insert_many` appends the documents to the collection and logs the call. It needs a non-empty list |
| Ingestion.Ingest | analytics_interview.py:22-75 | the records of the surviving lines number at most the lines read |
| Ingestion.Threshold | analytics_interview.py:70 | the effective batch size is at least 1; characterised by `Ingestion.ThresholdMatchesTest` |
| Ingestion.ThresholdMatchesTest | analytics_interview.py:69-70 | for a buffer of n ≥ 1 records, `len(documents) >= batch_size` holds exactly when n reaches the effective batch size |
| Ingestion.FailureStopsIngestion | analytics_interview.py:22-75 | once a line raises an uncaught exception, later lines change nothing |
| Ingestion.SkippedLineIsInvisible | analytics_interview.py:74-75 | deleting a skipped line changes neither the records nor the failure, so it moves no batch boundary |
| Ingestion.OutcomesSplit | analytics_interview.py:22-24 | each line is normalised on its own, whatever surrounds it |
| Ingestion.IngestLines | analytics_interview.py:19-75 | the loop writes exactly the full batches of the surviving records, in order. It leaves the remainder in the buffer and stops at the first uncaught exception |
| Ingestion.ParseAndInsert | analytics_interview.py:10-75 | as written: only the full batches reach the collection, and the buffered tail is dropped |
| Ingestion.ParseAndInsertFlushed | analytics_interview.py:10-75 | with a final flush, a run without an exception appends every surviving record, in order, in the flushed batches |
| JsonValue.Get | analytics_interview.py:27-34 | `dict.get(key, default)`; characterised by `Normalization.RecordFieldsDefault` and `Normalization.GeoFallback`, which state the defaults through membership and indexing |
| JsonValue.Truthy | analytics_interview.py:51 | Python's `bool` on null, bools, numbers, strings, lists and dicts; used by `Normalization.ParseTime` |
| Aggregation.KeyOf | analytics_interview.py:86-92 | the `_id` of a record's group: its five key fields; used by `Aggregation.BucketSummarisesGroup` |
| Aggregation.Single | analytics_interview.py:96-102 | the bucket of a group's first record; characterised by `Aggregation.BucketSummarisesGroup` |
| Aggregation.Add | analytics_interview.py:96-102 | one more record: the count grows by 1 and the total by the price. The new minimum and maximum bound the price and the old extremes, and each is one of them |
| Aggregation.Aggregate | analytics_interview.py:86-118 | the buckets' keys are exactly the group keys that occur among the records |
| Aggregation.BucketSummarisesGroup | analytics_interview.py:96-102 | a key has a bucket if and only if some record has that key. `totalCount` counts those records and `totalPrice` sums their prices. `minPrice` and `maxPrice` are among those prices and bound all of them |
| Aggregation.CountsAddUp | analytics_interview.py:96-102 | the `totalCount`s of all buckets add up to the number of records |
| Aggregation.TwoGroupsExample | analytics_interview.py:86-118 | prices 10 and 30 under one key and 5 under another give buckets (40, 10, 30, 2) and (5, 5, 5, 1) |
| Upsert.ApplyAll | analytics_interview.py:144 | an ordered `bulk_write` of upserts on a collection keyed by the group key; characterised by `Upsert.ApplyAgreeing` and `Upsert.MergeUpserts` |
| Upsert.AggregateCollection.BulkWrite | analytics_interview.py:144 | `bulk_write` applies the upserts in order and logs the call. It needs a non-empty list |
| Upsert.RunPipeline | analytics_interview.py:120 | the cursor lists each bucket of the aggregation exactly once, with its values |
| Upsert.BuildUpserts | analytics_interview.py:121-141 | one upsert per cursor document. For a cursor that lists a result, the upserts set exactly the result's keys to their buckets |
| Upsert.ApplyAgreeing | analytics_interview.py:141-144 | upserts that agree with a result set the keys they name to that result's bucket and leave every other key as it was |
| Upsert.MergeUpserts | analytics_interview.py:141-144 | after the merge the collection is the old one overridden by the result. Each result key holds exactly its fresh bucket, and every other key keeps its old bucket |
| Upsert.RerunIsIdempotent | analytics_interview.py:141-144 | merging the same result a second time, in any order, changes nothing |
| Upsert.AggregateAndUpsert | analytics_interview.py:78-144 | the target becomes the old target overridden by the aggregation of the source. An empty result performs no write. Otherwise exactly one write of exactly one upsert per result key |

## Left out

- `gzip.open` (analytics_interview.py:21) is file I/O. The loop takes the
  decompressed lines as a sequence instead.
- `glob.glob`, `MongoClient` and the `__main__` driver
  (analytics_interview.py:161-175) are process plumbing.
- `dump_to_json` (analytics_interview.py:147-158) is not part of this model.
  It only reads a collection and writes it to a file.
- `json.loads` is a parameter, not a JSON parser. Its only modelled property
  is whether it decodes.
- `float` is a parameter returning a `real`. NaN, infinities, rounding and
  the order-dependence of floating-point sums in `$sum` are not modelled.
- `datetime.strptime(...).timestamp()` is a parameter. The format string
  and the local-timezone interpretation of the naive datetime are not
  modelled.
- Ingestion.IngestLines: the `batch_size` default of 1000 is a caller's value.
  The model takes any `batch_size`.
- Ingestion.IngestLines: a failing `insert_many` (network or duplicate-key
  errors) is not modelled. Every write succeeds.
- Upsert.AggregateCollection.BulkWrite: the aggregate collection is a map
  keyed by the group key. Mongo's matching of a filter against several
  existing documents and the atomicity of `bulk_write` are not modelled.
- Upsert.RunPipeline: the order of the cursor is the store's choice. The
  model picks it arbitrarily and proves only what holds for every order.
- Aggregation.Aggregate: the group key compares decoded JSON values
  structurally. JSON integers and floats are both `JNum(real)`, so 1 and
  1.0 fall under one key, as they do in Mongo. Mongo's BSON type ordering
  is not modelled.

## Findings

| source | as written | input that shows it | evidently intended | confidence | as-written member | corrected member |
|---|---|---|---|---|---|---|
| analytics_interview.py:19-75 | after the last line the buffer `documents` is dropped without a final `insert_many`, so the last N mod `batch_size` records never reach the collection | a file of 3 valid lines with `batch_size` 2: one call with 2 records, and the third record is lost (`Batching.UnflushedTailIsLost` with N = 3, b = 2) | flush a non-empty buffer after the loop, so every surviving record is written in ⌈N/b⌉ calls | high (not executed) | Ingestion.ParseAndInsert, Batching.UnflushedTailIsLost | Ingestion.ParseAndInsertFlushed, Batching.FlushedBatchesComplete |
