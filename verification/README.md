# A verified model of the telemetry analysis service

This project models, in Dafny, a small service that turns telemetry spans into a catalog: an
in-memory database with hand-maintained secondary indexes, a span processor that accumulates rows
and flushes them in batches, and an API that assembles responses from the tables and caches them.
Everything below is proved for all inputs, all runs or all reachable states, as stated.

`dafny verify dfyconfig.toml` checks the whole project.

## How the model is laid out

| files | what they model |
|---|---|
| `Values`, `Bags`, `Combining` | dynamically typed records; order-free totals over map iterations; combining keyed rows |
| `SecondaryIndex`, `Keys`, `TableSpec`, `RecordWrites`, `Coherence`, `Exactness`, `Batches`, `Database` | the tables: classes `Table` and `DB` mutated in place, specified by functions on table states; what each write leaves, stated on the records alone; invariants over runs of operations, and exactly when a step or a batch keeps them |
| `Query`, `JoinSpec`, `Join` | filtered selection, grouping and hash join, against the full scan, the nested loop and the pairs of rows they stand for |
| `UniqueMerge`, `Spans`, `Accumulation`, `ClosedForm`, `StoredRows`, `Integrity`, `Sizes` | the three merge rules, what a span contributes, the algebra of accumulated rows, and the stored rows field by field |
| `TableWrites`, `Accumulators`, `Flushing`, `Schedule`, `Processor` | the processor as it runs: the accumulator object, the two waves of a flush, the loop with its threshold |
| `Responses`, `Catalog`, `Listings`, `Api`, `CachedCatalog` | the generation-counter cache object, what the responses mean and list, the methods that build them, and a cached catalog across a call of `Process` |
| `Protocol`, `Runs` | any number of processors and API requests as one system of interleaved steps |
| `Freshness`, `Generations`, `FailedCalls`, `References`, `Lookups`, `OneWriter`, `ManyWriters`, `Pacing` | what holds over all runs of that system |
| `Service`, `HeldReads` | the same for the real spans, rows and responses |
| `Reports`, `Pipeline` | what the responses report about the spans; schema creation and the service end to end |

## Main results

1. **Index coherence over every run.** `Coherence.RunKeepsIndexes` covers two relations at once.
   The exact one (each key once in the bucket of its value, no empty bucket) holds over every run in
   which inserted records carry the indexed fields, a plain `Insert` uses a fresh key and
   `ConflictError` batches have distinct keys.  The weaker one (no index misses a record) needs no
   condition on keys.  `Exactness.InsertExactIff`, `UpsertExactIff`, `UpdateExactIff` and
   `Batches.ErrorBatchExactIff` say exactly when a step keeps exactness, and `Batches.BatchIsFold`
   exactly when a batch is its single forms.  What a write leaves is stated on the records alone
   (`RecordWrites`), and that statement leaves nothing open.  `Query` proves that the index path
   then refines the full scan, and that under the weaker relation it still finds the right set;
   `JoinSpec` that a hash join yields each row as often as pairs of rows give it and pass the
   filters.
2. **The flush schedule cannot be observed.** A successful `Process` leaves the same four tables for
   every threshold: those of one flush at the end, of one write per span, and of a closed form
   stated on the span list.  The reason is algebraic: the three merge rules are associative
   (`Accumulation`), so flushes compose.  When the flushes happen is determined by the spans
   (`Schedule.ScheduleUnique`): exactly where one of the four maps reaches the threshold
   (`Schedule.CutsWhenFull`, `Pacing.FlushesOnlyWhenFull`).  Their number and size are bounded, also
   with any number of calls at once (`Pacing.PaceHolds`).  A failed call leaves exactly what the
   flushes before it and the two waves of the failing one wrote.
3. **References hold in every reachable state, and no update is lost.** `References.ReferencesHold`
   is about any number of processors writing at the same time, each wave in either order, any write
   failing.  `ManyWriters.NothingIsLost`: if all calls end well, every table and every connection's
   components are the union of what was there and what each call contributed.
4. **When a cached answer is fresh.** `Freshness.CachedIsFresh` is about all interleavings of
   processors with requests, which read their tables at different moments and look at the live rows
   afterwards.  `Generations.GenerationCountsCalls`: the generation counts the calls that succeeded
   with an invalidator and spans.  A call of `Process` that returns early on an error after a write
   still owes an invalidation.  `FailedCalls.CatalogFreshIff` gives the exact condition over every
   run of one call, `CachedCatalog.CachedCatalogStaysFreshIff` the one that can be checked before
   the call, and `Service.FailedCallHidesItem` a run in which it fails.
5. **When a request misses a component.** The connections request reads two tables and then looks at
   live rows, so it can fail with "component not found" although no reference is ever broken, in
   whichever order it reads (`Service.LiveConnectionFails`).  `Lookups.NotFoundIff` is the exact
   condition in every reachable state, `Lookups.FoundIfNoneStored` what a caller can rely on.
6. **Responses and spans.** `Pipeline.Start` ends in answers that report the spans: each component
   under the destination of its last span, with the kind and value of that span and what was found
   in it, each connection with the components its spans visit, and nothing else (`Reports`).  The
   steps in between are stated on rows and responses alone (`StoredRows`, `Listings`).
7. **Conservation.** The catalog lists every stored component once under its own app item and every
   finding once under its own component (`Catalog`), from the end-to-end method `Pipeline.Start` and
   from any interleaving in which all calls ended well (`Service.CachedCatalogConserves`).

## Where the code and its documentation differ

- The threshold option is documented as flushing when a map exceeds the size
  (backend/processor/span_handler.go:52-54); the code flushes as soon as a map reaches it
  (backend/processor/processor.go:62-67).  The model follows the code.
- `InsertBatchOnConflict` is documented as inserting nothing if any record fails validation
  (db/memory.go:351-352).  With `ConflictError` it checks keys against the table only, so a key
  repeated inside the batch passes and the later record overwrites the earlier one
  (`Batches.ErrorBatchOverwrites`, `Batches.ErrorBatchExactIff`, `Batches.BatchIsFold`).
- The invalidator is documented as called after processing completes
  (backend/processor/span_handler.go:16-17).  The code calls it only when processing succeeded and
  there were spans (backend/processor/processor.go:88-102, 116-118); the second condition is
  harmless (`Freshness.GuardSkipsNothing`), the first is not (`FailedCalls.FailedCallLeavesStale`,
  `CachedCatalog.CachedCatalogStaysFreshIff`).

## Reading the contracts

- `Accumulation.Apply(t, a)` is the effect of a complete flush of `a` on the tables `t`;
  `AccumulatedBy(cfg)(spans)` is what an accumulator holds after the spans.
- `Flushing.Flushed(v, w, a, ok)` relates the database before (`v`) and after (`w`): schemas stay,
  success is decided by whether every non-empty kind of row has its table, success means `Apply`,
  exact indexes stay exact, and references that held before hold after, also on failure.
- `Spans`, `Catalog` and `TableSpec` say how rows, responses and table states are computed;
  `StoredRows`, `Listings` and `RecordWrites` say what they hold, without those functions.
- `Bags.Sum(keys, f)` is the bag union of `f(k)` over the keys; map iterations of the program are
  loops that pick any remaining key, so a contract that names a `Sum` does not depend on the order.
- Detectors and span handlers are parameters (`Spans.Config`); whether a detector matches a text is
  an uninterpreted predicate.
- `Schedule.Processed(cfg, spans, n, v, w, cuts, ended, ok)` is what `Process` promises: `Flushed`, the
  flush points `cuts` (`Scheduled`), and on failure where the call stopped (`StoppedAt`).
- `Protocol.Held(read, rows)` is a table in the hands of a request: `read` fixes which rows it refers
  to and how they were grouped, `rows` is what the rows showed when the request looked at them.
- Parallel reads and writes inside one call are run in either order where they change state
  (`Processor`), and as separately interleaved steps in `Protocol`, where every list of actions is a
  run because a step that is not enabled changes nothing.

## Model

| member | source | states |
|---|---|---|
| `SecondaryIndex.RemoveTimes` | db/memory.go:285-296 | a removal takes one occurrence of the key out of the bucket of that value and touches no other key or value |
| `SecondaryIndex.RemoveUndoesAdd` | db/memory.go:285-296 | taking a freshly added key out again restores the index, bucket order included |
| `TableSpec.UpdateOrderIrrelevant` | db/memory.go:187-193 | when all fields of the record are updated, the order in which the map is iterated cannot be seen: every order leaves the same record and the same indexes |
| `TableSpec.FirstUnkeyed` | db/memory.go:368-372 | the position an error message names is the first record without the primary key |
| `TableSpec.FirstTaken` | db/memory.go:375-386 | the position a conflict error names is the first record whose key the table already holds |
| `Database.FieldsToUpdate` | db/memory.go:187-193 | the listed fields, or every field of the record exactly once in some order |
| `Database.Table.RemoveFromIndex` | db/memory.go:285-296 | shifts the bucket in place, deletes it when it is empty, and leaves all other buckets as they were |
| `Database.Table.AddEntries` | db/memory.go:149-153 | one new entry in every index whose field the record has, in any iteration order |
| `Database.Table.RemoveEntries` | db/memory.go:549-555 | one entry less in every index whose field the record has |
| `Database.Table.MoveEntries` | db/memory.go:261-268 | entries move exactly for the indexed fields that both records have with different values |
| `Database.Table.UpdateOneField` | db/memory.go:195-221 | one field of a DO UPDATE: merged with a merge function, replaced without one, in the record and in its index |
| `Database.Table.UpdateExisting` | db/memory.go:186-223 | the DO UPDATE branch: chosen fields merged or replaced, other fields and other records as before, whatever the order of the fields |
| `Database.Table.WriteOne` | db/memory.go:391-445 | what one record of a batch leaves in records and indexes, for every conflict action |
| `Database.Table.FindUnkeyed` | db/memory.go:316-320 | validation stops at the first record without the primary key |
| `Database.Table.FindTaken` | db/memory.go:377-384 | the conflict check stops at the first record whose key is taken, and looks at the table only |
| `Database.Table.RunBatch` | db/memory.go:367-447 | a batch either changes nothing and names the first offending record, or writes all records in order |
| `Database.Table.Apply` | db/memory.go:128-559 | the status and the whole new state (records and indexes) of every mutator |
| `Database.DB.CreateTable` | db/memory.go:94-114 | fails iff the name is taken; otherwise adds one empty table with an empty index per listed field and touches no other |
| `Database.DB.Mutate` | db/memory.go:301-313 | an empty batch succeeds before the table is looked up; a missing table fails; otherwise only the named table changes |
| `RecordWrites.PerformLeaves` | db/memory.go:128-559 | each single operation, on records alone: whether it succeeds, that a refused one changes nothing, that Insert stores its record over whatever was there, that Delete takes out one key, and what an upsert or a conflict action leaves under the key while all other records stay |
| `RecordWrites.WritesOneWay` | db/memory.go:128-559 | that statement leaves nothing open: at most one set of records satisfies it |
| `RecordWrites.UpdateLeaves` | db/memory.go:186-223 | a DO UPDATE with any field list, repeated fields included: a chosen field is merged as often as it is listed if it has a merge function and takes the new value if not; other fields and other records stay |
| `RecordWrites.DoUpdateLeaves` | db/memory.go:168-229 | InsertOnConflict with DO UPDATE over a stored record, no field list or distinct fields: every chosen field holds the merged value if it has a merge function and the new value if not, every other field stays, none appears, no other record changes |
| `RecordWrites.BatchWrites` | db/memory.go:351-447 | a batch succeeds iff every record is keyed and, for ConflictError, no key is stored; if it fails nothing changes, if it succeeds its records have gone in one after the other, each leaving what the mode says |
| `RecordWrites.InsertBatchStoresLast` | db/memory.go:298-349 | after an InsertBatch each key of the batch holds the last record that has it, stored before or not |
| `RecordWrites.DistinctBatchLeaves` | db/memory.go:298-509 | with distinct keys each record of a batch does to the stored one what its single form does |
| `RecordWrites.BatchKeepsOthers` | db/memory.go:298-509 | records whose key does not occur in a batch stay |
| `Keys.KeysDiffer` | db/memory.go:146-177 | two string keys, or two integer keys, share a record key only if they are equal |
| `Keys.KeysShared` | db/memory.go:146-177 | a string key and an integer key can share a record key: the string "7" and the number 7 do |
| `Coherence.PutKeeps` | db/memory.go:146-153 | storing under a fresh key keeps indexes exact; storing under any key keeps them complete |
| `Coherence.EraseKeeps` | db/memory.go:548-557 | deleting keeps indexes exact and complete |
| `Coherence.BlendKeeps` | db/memory.go:259-271 | an upsert keeps indexes exact if the stored record had every indexed field it is given |
| `Coherence.UpdateFieldKeeps` | db/memory.go:199-221 | one updated field, merged or not, keeps indexes exact if the stored record had it |
| `Coherence.WriteAllKeeps` | db/memory.go:391-445 | every batch of records that carry the indexed fields keeps indexes exact (ConflictError: with distinct keys) |
| `Coherence.PerformKeeps` | db/memory.go:128-559 | every single operation keeps exact indexes exact and every record fully indexed, under conditions on its arguments only |
| `Coherence.RunKeepsIndexes` | db/memory.go:128-559 | for every run of operations: indexes stay exact (each key once in the bucket of its value, no empty bucket) under the three code facts; without any condition on keys they never miss a record |
| `Coherence.RunKeepsKeys` | db/memory.go:128-559 | for every run: each record stays stored under the rendering of its own primary key, unless a merge function rewrites the key |
| `Exactness.InsertExactIff` | db/memory.go:146-153 | a plain Insert keeps exact indexes exact iff the key is new or the record it overwrites has no indexed field |
| `Exactness.UpsertExactIff` | db/memory.go:259-271 | an upsert over a stored record keeps exact indexes exact iff that record already has every indexed field the new one brings |
| `Exactness.UpdateFieldExactIff` | db/memory.go:199-221 | one DO UPDATE field keeps exact indexes exact iff it is not indexed, not given, was there before, or is merged to something other than nil |
| `Exactness.UpdateExactIff` | db/memory.go:186-223 | a whole DO UPDATE (all fields of the record, or distinct listed ones) keeps exact indexes exact iff every indexed field it is given was there before or is merged to something other than nil |
| `Batches.ErrorBatchOverwrites` | db/memory.go:374-445 | two new records with one key in a ConflictError batch: accepted, the later one stored, unlike the single form, and an exact index left inexact |
| `Batches.ErrorBatchExactIff` | db/memory.go:374-445 | an accepted ConflictError batch keeps exact indexes exact iff no record that carries an indexed field is followed in the batch by one with the same key; for every table and every accepted batch |
| `Batches.BatchIsFold` | db/memory.go:298-509 | a batch with an unkeyed record changes nothing; any other leaves what its single forms leave applied left to right, repeated keys included; for ConflictError iff either every key is stored already, or none is and a record that repeats a key of the batch has no indexed field and the last such record equals the first |
| `Batches.InsertThenDelete` | db/memory.go:128-156 | deleting a freshly inserted record restores records and indexes, bucket order included |
| `Query.MatchesFilters` | db/memory.go:650-661 | true iff the record has every filter field with the given value, in any iteration order |
| `Query.Visit` | db/memory.go:614-619 | walking over candidate keys yields, in order, the records that exist and match |
| `Query.Scan` | db/memory.go:621-625 | the full scan yields every matching record exactly once, in any iteration order |
| `Query.BucketIsColumn` | db/memory.go:638-648 | an exact bucket lists without repetition exactly the keys that hold the value |
| `Query.CandidatesExact` | db/memory.go:607-626 | with exact indexes, whichever indexed filter is picked, the candidates yield the full scan's bag of records |
| `Query.CandidatesComplete` | db/memory.go:612-619 | with indexes that merely miss nothing, the candidates still yield exactly the right set of records |
| `Query.SelectionIs` | db/memory.go:607-626 | the full scan holds a record iff it has every filter field with the given value, and as often as it is stored |
| `Query.QueryBuilder.IndexCandidates` | db/memory.go:638-648 | None iff no filter field is indexed; otherwise the bucket of some indexed filter, empty when its value is unknown |
| `Query.QueryBuilder.Select` | db/memory.go:607-626 | the selection refines the full scan: equal as a bag with exact indexes, as a set with complete ones, never a wrong record |
| `Query.QueryBuilder.Execute` | db/memory.go:594-634 | every row is a stored record that has every filter field with the given value; with exact indexes and no limit every such record is a row, as often as it is stored; a positive limit keeps a sub-bag of min(limit, total) records; missing tables fail |
| `Query.GroupByScan` | db/memory.go:716-722 | the fallback groups the table by field value |
| `Query.GroupByIndex` | db/memory.go:700-714 | reading groups off an exact index groups the table by field value |
| `Query.AllGroupedBy` | db/memory.go:685-723 | through the index or not: exactly the occurring values, each with the bag of records that hold it |
| `Query.GroupsUnique` | db/memory.go:685-723 | index and fallback cannot be told apart: any two groupings agree value by value |
| `Query.GroupsPartition` | db/memory.go:685-723 | the groups together are exactly the records that have the field, each once |
| `Query.NoEmptyGroup` | db/memory.go:709-711 | no group is empty, and a group is as large as the number of keys that hold the value |
| `JoinSpec.PrefixedTakes` | db/memory.go:854-857 | the fields of a record can be copied under prefixed names in any order |
| `Join.MergeRecords` | db/memory.go:851-865 | the merged record holds both records' fields under prefixed names |
| `JoinSpec.InnerLoopSize` | db/memory.go:837-842 | without filters an inner loop yields one row per partner |
| `JoinSpec.RowJoinSize` | db/memory.go:815-843 | without filters a left row of a left join yields max(1, matches) rows, of an inner join exactly its matches |
| `JoinSpec.MergedIff` | db/memory.go:851-865 | the merged record is exactly the left fields under "left." and the right fields under "right.", the right one showing where names coincide |
| `JoinSpec.NestedLoopJoins` | db/memory.go:789-849 | every row of a join has every filter field with the given value, and occurs as often as there are pairs of rows with equal join fields that give it, plus, in a left join, left rows without partner that give it |
| `Join.JoinBuilder.Execute` | db/memory.go:789-849 | the hash join is the nested-loop join as a bag; its rows all pass the filters, and each occurs as often as pairs of rows, or left rows without partner in a left join, give it side by side; missing tables fail |
| `UniqueMerge.MergeUniqueStrings` | backend/processor/processor.go:285-298 | the loop computes the ordered union that keeps repetitions of the incoming list |
| `UniqueMerge.MergeHas` | backend/processor/processor.go:285-298 | a merged list has exactly the elements of both lists |
| `UniqueMerge.MergeAssociative` | backend/processor/processor.go:285-298 | merging is associative on all lists |
| `UniqueMerge.MergeAbsorbs` | backend/processor/processor.go:285-298 | merging in what is already there changes nothing; the empty list is neutral |
| `UniqueMerge.MergeUniqueIff` | backend/processor/processor.go:292-296 | with a duplicate-free existing list, the merge is duplicate-free iff the incoming list repeats only elements that are already there |
| `UniqueMerge.IncomingRepetitionKept` | backend/processor/processor.go:292-296 | a concrete merge that keeps a repetition of the incoming list |
| `UniqueMerge.MergeDedups` | backend/processor/processor.go:285-298 | merging the duplicate-free forms of two lists is the duplicate-free form of their concatenation |
| `Spans.DestinationTypes` | backend/processor/span_handler.go:61-113 | with the built-in handlers: DATABASE for queries, QUEUE for messages, SERVICE for everything else |
| `StoredRows.HandlerSelected` | backend/processor/processor.go:38-43 | a registered handler is used for its span type; any other type is treated as NETWORK |
| `StoredRows.BuiltinHandlers` | backend/processor/span_handler.go:59-113 | which role, kind, value and scanned texts each built-in handler takes from which attribute |
| `StoredRows.StoredItems` | backend/processor/processor.go:122-140 | an app item is stored iff some span names it; its type is the one the last such span gives it, as destination, as the source "internet", or as another source |
| `StoredRows.StoredComponents` | backend/processor/processor.go:142-150 | a component is stored iff some span has it; its row names the destination of the last such span as app item, with the kind and value its handler reads |
| `StoredRows.StoredFindings` | backend/processor/processor.go:152-167 | a finding is stored iff some detector matches a scanned text; its row has the component of the first such span and the kind of the detector |
| `StoredRows.StoredConnections` | backend/processor/processor.go:169-182 | a connection is stored iff some span links its ends; its row has these ends and lists the visited components in the order of their first visits, each once |
| `Combining.CombineAssociative` | backend/processor/processor.go:185-268 | an associative merge rule makes key-wise combination associative |
| `Accumulation.RulesAssociative` | backend/processor/processor.go:198-255 | the three merge rules of a flush (take fields, first stays, join ids) are associative |
| `Accumulation.ApplyAssociative` | backend/processor/processor.go:185-268 | flushing two accumulators in turn is flushing their combination, whatever the tables hold |
| `Accumulation.AccumulatedConcat` | backend/processor/processor.go:83-95 | accumulating xs + ys is combining what xs and ys accumulate to |
| `Accumulation.ScheduleUnobservable` | backend/processor/processor.go:83-102 | however the spans are cut into flushes, the tables are those of one flush, component order included |
| `Accumulation.SpanBySpan` | backend/processor/processor.go:83-102 | one flush is the same as writing every span on its own |
| `Accumulation.AccumulatedWellFormed` | backend/processor/processor.go:132-182 | an accumulator's rows have exactly their table's fields, their own key, and duplicate-free component lists |
| `Accumulation.ApplyIdempotent` | backend/processor/processor.go:185-268 | flushing the same accumulator twice is flushing it once |
| `Accumulation.RunsCompose` | backend/processor/processor.go:76-102 | processing xs then ys is processing xs + ys, xs twice is xs once |
| `ClosedForm.ItemsClosedForm` | backend/processor/processor.go:132-140 | app items are the names that occur, each typed by its role in the last span naming it, destination role first |
| `ClosedForm.ComponentsClosedForm` | backend/processor/processor.go:142-150 | components are the component ids that occur, each as the last span with that id describes it |
| `ClosedForm.PiisClosedForm` | backend/processor/processor.go:152-167 | a finding exists iff a scanned field of some span matched that detector; its row comes from the first such span |
| `ClosedForm.ConnectionsClosedForm` | backend/processor/processor.go:169-182 | connections are the connection ids that occur; component_ids lists the visited components in order of first occurrence, without repetition |
| `Integrity.ApplyClosed` | backend/processor/processor.go:185-268 | flushing rows with good references into tables with good references keeps references good |
| `Integrity.AccumulatedClosed` | backend/processor/processor.go:132-182 | an accumulator refers only to rows that it holds itself |
| `Sizes.DeltaSize` | backend/processor/processor.go:133-182 | one span adds at most two app items, one component, one connection and one finding per detector |
| `Sizes.LargestReaches` | backend/processor/processor.go:62-67 | the largest map has reached n rows iff at least one of the four maps has |
| `TableWrites.UpsertFollows` | db/memory.go:483-496 | an upsert over a stored row leaves the old row with the new fields, in every state of the table |
| `TableWrites.MergeFollows` | backend/processor/processor.go:248-254 | the flush's DO UPDATE over a stored connection changes its component list to the ordered union and nothing else |
| `TableWrites.MapValues` | backend/processor/processor.go:270-276 | the values of a map, each once, in any order |
| `TableWrites.BatchCombines` | backend/processor/processor.go:197-198 | a batch of all rows of a map combines the map into the table, whatever the iteration order |
| `TableWrites.FlushWrite` | backend/processor/processor.go:190-265 | each of the four writes succeeds, combines its rows into the table and keeps exact indexes exact |
| `Accumulators.DetectPIIs` | backend/processor/processor.go:349-357 | finds exactly the kinds whose detector matches the text |
| `Accumulators.Accumulator.ExceedsThreshold` | backend/processor/processor.go:62-67 | true iff the largest of the four maps has reached the threshold, which is when some map has |
| `Accumulators.Accumulator.AddItems` | backend/processor/processor.go:132-140 | the destination role overwrites the source role, both overwrite earlier spans |
| `Accumulators.Accumulator.AddPIIs` | backend/processor/processor.go:152-167 | exactly the findings of all scanned fields are added; earlier ones stay |
| `Accumulators.Accumulator.AddConnection` | backend/processor/processor.go:169-182 | an existing connection gains the component id at the end unless it has it |
| `Accumulators.Accumulator.Accumulate` | backend/processor/processor.go:122-183 | the accumulator after a span is the old one combined with what the span contributes |
| `Flushing.WavesApply` | backend/processor/processor.go:185-268 | both waves together apply the accumulator to the four tables |
| `Flushing.WavesReferences` | backend/processor/processor.go:185-268 | references stay good through both waves, even when the second one fails |
| `Schedule.FlushCount` | backend/processor/processor.go:87-94 | with the flush points that Process reports: their number times the threshold is at most max(2, detectors) times the number of spans |
| `Schedule.FlushBounds` | backend/processor/processor.go:87-94 | at every flush point that Process reports: at most n+1 app items, n components, n connections, n-1+d findings |
| `Schedule.ScheduleUnique` | backend/processor/processor.go:83-95 | the flush points of a call that gets through its spans are determined by spans and threshold: only one list satisfies what Process promises about them |
| `Schedule.CutsWhenFull` | backend/processor/processor.go:83-95 | at every flush point that Process reports one of the four maps has reached the threshold, at no position before it any map had, and after the last one none does |
| `Pacing.PaceHolds` | backend/processor/processor.go:83-102 | in every reachable state of any number of concurrent calls: no map has reached the threshold while a call fills its accumulator, a flush holds only a little more, and the flushes begun so far times the threshold are at most max(2, d) times its spans |
| `Pacing.FlushesOnlyWhenFull` | backend/processor/processor.go:83-102 | in every reachable state of any number of concurrent calls: a threshold flush is in progress only if one of the four maps has reached the threshold, and while an accumulator fills none has |
| `Schedule.MidwayFlushed` | backend/processor/processor.go:87-93 | after a mid-run flush everything is as after one flush of all spans so far; a failed one is final |
| `Processor.SpanProcessor.WriteRows` | backend/processor/processor.go:192-215 | one parallel write: fails iff it has rows and its table is missing; otherwise the table combines the rows |
| `Processor.SpanProcessor.WaveOne` | backend/processor/processor.go:186-221 | both writes run in either order, a failure of one does not stop the other, the other tables stay |
| `Processor.SpanProcessor.WaveTwo` | backend/processor/processor.go:223-265 | the same for findings and connections |
| `Processor.SpanProcessor.Flush` | backend/processor/processor.go:185-268 | the second wave runs only if the first succeeded; on success the accumulator is applied, on failure findings and connections still refer to stored rows |
| `Processor.SpanProcessor.FlushIfFull` | backend/processor/processor.go:87-94 | a flush happens exactly when the threshold is positive and one of the four maps has reached it; at a loop head none has |
| `Processor.SpanProcessor.Process` | backend/processor/processor.go:76-120 | succeeds iff every kind of row produced has its table; then the tables are those of one flush of all spans for every threshold; on failure they are those of one flush of the spans before the last try and what the two waves of that try left; threshold flushes happen exactly where one of the four maps first reaches it; the cache is invalidated iff the call succeeds and there were spans |
| `Responses.ResponseCache.GetCatalog` | backend/api/cache.go:28-32 | the cached value and the generation, read together |
| `Responses.ResponseCache.SetCatalog` | backend/api/cache.go:35-41 | stores only if the generation is unchanged and nothing is cached |
| `Responses.ResponseCache.GetConnections` | backend/api/cache.go:46-50 | the cached list, the generation and whether the list counts, read together |
| `Responses.ResponseCache.SetConnections` | backend/api/cache.go:53-60 | stores only if the generation is unchanged and nothing is cached, an empty list included |
| `Responses.ResponseCache.Invalidate` | backend/api/cache.go:62-69 | the next generation, with nothing cached |
| `Catalog.ComponentsConserved` | backend/api/api.go:138-159 | the catalog lists every components row exactly once under its own app item, so counts agree |
| `Catalog.PiisConserved` | backend/api/api.go:143-150 | the catalog lists every component_piis row exactly once under its own component, so counts agree |
| `Catalog.LinkedResolvable` | backend/api/api.go:214-220 | with good references every listed component can be found |
| `Listings.CatalogListed` | backend/api/api.go:80-159 | stated on response and rows: the catalog has an item per app item row with its type, under it one component per component row that names it with its type and value, under that the kind of every finding row that belongs to it, and nothing else |
| `Listings.ConnectionsListed` | backend/api/api.go:87-228 | stated on response and rows: one connection per row with its ends, its components in stored order with the type and value of their rows, and nothing else |
| `Api.BuildCatalog` | backend/api/api.go:138-159 | the nested loops build, per name, the item with the bag of its components, each with its findings |
| `Api.CatalogRead` | backend/api/api.go:113-159 | from the records and groups of three tables, in any order, the assembled catalog is the catalog of the rows |
| `Api.BuildConnection` | backend/api/api.go:209-222 | fails iff a listed component is unknown; otherwise one component per id, in stored order |
| `Api.BuildConnections` | backend/api/api.go:207-228 | fails iff some connection does; otherwise one response per record |
| `Api.ByIdIsRows` | backend/api/api.go:202-205 | the lookup map built from the records is the components table |
| `Api.ConnectionsRead` | backend/api/api.go:183-228 | the assembled responses are those of the connections table, each row once |
| `Api.ApiBackend.FetchCatalog` | backend/api/api.go:113-159 | fails iff a table is missing; with exact indexes and well-formed items it is the catalog of the three tables; on well-formed rows it lists exactly what is stored |
| `Api.ApiBackend.GetCatalog` | backend/api/api.go:98-163 | a hit returns the cached value and changes nothing; a miss answers from the tables and publishes the answer |
| `Api.ApiBackend.FetchConnections` | backend/api/api.go:183-228 | fails iff a table or a listed component is missing; otherwise each connection row once; on well-formed rows it lists exactly what is stored |
| `Api.ApiBackend.GetConnections` | backend/api/api.go:168-232 | a hit returns the cached value and changes nothing; a miss answers from the tables and publishes the answer |
| `Freshness.CachedIsFresh` | backend/api/cache.go:17-69 | over all interleavings: with no writer owing an invalidation, whatever is cached equals the value recomputed now, although a request reads its tables at different moments and looks at their live rows later still |
| `Freshness.RunKeepsFresh` | backend/api/api.go:98-163 | the invariant: a fetch of the current generation has read current tables and seen current rows, unless some writer owes an invalidation |
| `Freshness.GuardSkipsNothing` | backend/processor/processor.go:116-118 | the guard on the number of spans never skips an invalidation that is owed |
| `Freshness.FreshWhenAllDone` | backend/processor/processor.go:104-119 | once every call with an invalidator has succeeded, the cache is fresh |
| `Generations.FirstPublishedStays` | backend/api/cache.go:35-60 | generations only grow, and within one the first published response is never replaced |
| `Generations.StaleFetchPublishesNothing` | backend/api/cache.go:35-60 | a fetch begun before an invalidation never populates the cache after it |
| `Generations.HitsAgree` | backend/api/cache.go:28-50 | all hits of one generation return the same value |
| `Generations.CachedIsServed` | backend/api/cache.go:28-50 | a request that begins while a response is cached is served exactly that, whatever happens then |
| `Generations.GenerationCountsCalls` | backend/api/cache.go:62-69 | in every run the generation has advanced by the number of calls that succeeded with an invalidator and with spans: each invalidates once and nothing else does |
| `FailedCalls.FailedCallLeavesStale` | backend/processor/processor.go:88-102 | a run in which the connections write is refused after three writes: Process has ended with an error, and the cached catalog is the one from before |
| `FailedCalls.CatalogFreshIff` | backend/processor/processor.go:76-120 | whatever one call does and however it ends, in any order of its steps: a catalog cached before it is fresh after it iff the call succeeded or the catalog of the tables is the same as before |
| `FailedCalls.ConnectionsFreshIff` | backend/processor/processor.go:76-120 | the same for cached connections |
| `CachedCatalog.FirstFlushFails` | backend/processor/processor.go:88-102 | with the connections table missing and the other three present, a failed call stores app items, components and findings of its first flush and nothing else |
| `CachedCatalog.CachedCatalogStaysFreshIff` | backend/processor/processor.go:76-120 | checkable before the call: a fresh cached catalog is fresh after a call of Process iff there are no spans, or the connections table exists, or the first flush would not change the catalog |
| `References.StepKeepsReferences` | backend/processor/processor.go:185-268 | every step of every writer and request keeps the reference invariant, and stored names and ids only grow |
| `References.ReferencesHold` | backend/processor/processor.go:185-268 | in every reachable state, any write failing: findings and connections refer to stored components, connections to stored app items; components to stored app items unless a writer stored its components without its app items |
| `Lookups.NotFoundIff` | backend/api/api.go:183-228 | in every reachable state: assembling the connections ends in component not found iff some connection looked at lists a component that is stored by now and was absent from the components read |
| `Lookups.FoundIfNoneStored` | backend/api/api.go:183-228 | a request during which, from its components read to its end, no call stores a new component never misses one |
| `Lookups.LiveConnectionCanFail` | backend/api/api.go:207-220 | in either order of the two reads: a stored connection that gains a component between read and assembly makes the request fail, on a run in which no reference is ever broken |
| `Lookups.ComponentsReadFirstCanFail` | backend/api/api.go:187-198 | components read before a call and connections after it: the request fails even though nothing it had read changed |
| `OneWriter.OneWriterComputesProcess` | backend/processor/processor.go:76-120 | one call, interleaved with any requests, for every threshold and write order: if it ends well the tables are those of one flush of all spans |
| `OneWriter.WriterStepKeeps` | backend/processor/processor.go:185-268 | until a write fails, what is stored plus what is still due never changes |
| `ManyWriters.NothingIsLost` | backend/processor/processor.go:185-268 | any number of concurrent calls that all succeed, in any interleaving: the keys of every table, and the components of every connection, are those there before and those any call contributed |
| `Service.RowsStayWellFormed` | backend/processor/processor.go:132-182 | in every reachable state rows are well-formed, so the responses are determined by the tables |
| `Service.ServiceReferences` | backend/processor/processor.go:185-268 | the reference results for the real span contributions |
| `Service.ServiceNotFoundIff` | backend/api/api.go:183-228 | the exact condition for component not found, for the real span contributions |
| `Service.LiveConnectionFails` | backend/api/api.go:207-220 | for every span whose connection is stored and whose component is new, and either order of reads: the run that ends in component not found |
| `Service.ServicePace` | backend/processor/processor.go:83-102 | the bounds on the size and number of flushes, for the real span contributions |
| `HeldReads.HeldCatalogRead` | backend/api/api.go:138-159 | the loops over rows that change after they were read and grouped build the catalog that the interleaved model publishes |
| `Service.CachedCatalogConserves` | backend/api/api.go:98-163 | after any interleaving in which all calls ended well, a cached catalog lists every stored component and finding exactly once |
| `Service.FailedCallHidesItem` | backend/processor/processor.go:88-102 | for every span with a new source: the run with a refused connections write after which a stored app item is missing from the cached catalog |
| `Service.ComponentsFirstCanFail` | backend/api/api.go:187-220 | a run on an empty database that ends in a component not found |
| `Pipeline.CreateSchema` | schema/schema.go:11-73 | succeeds iff none of the four names is taken, and then the four tables exist, empty, with their keys and indexes; otherwise exactly the tables before the first taken name were added, and no other table changes |
| `Pipeline.ProcessComposes` | backend/processor/processor.go:76-120 | two calls in turn are one call on the concatenation, success included |
| `Pipeline.ProcessAgain` | backend/processor/processor.go:76-120 | a second call on the same spans leaves the tables as they are |
| `Pipeline.ProcessIsSpanBySpan` | backend/processor/processor.go:76-120 | a call leaves what writing every span on its own leaves |
| `Pipeline.ProcessKeepsRows` | backend/processor/processor.go:76-120 | a successful call keeps rows well-formed and references good |
| `Pipeline.ProcessFromNew` | backend/processor/processor.go:76-120 | on an empty schema a call succeeds and the tables are exactly what the spans accumulate to |
| `Pipeline.CatalogConserves` | backend/api/api.go:113-159 | a catalog that shows well-formed tables with good references lists every stored component and finding exactly once |
| `Reports.CatalogReports` | backend/api/api.go:98-163 | end to end: a catalog of processed spans shows every component under the app item that its last span has as destination, with the kind and value of that span and the kinds of personal data found for it, app items with their roles, and nothing else |
| `Reports.ShownUnderDestination` | backend/processor/processor.go:143-150 | whatever a span brought and no later span described anew is shown under the app item its destination attribute names |
| `Reports.ConnectionsReport` | backend/api/api.go:168-232 | end to end: one connection per source and destination that some span links, with the components visited in order of first visit |
| `Pipeline.Answer` | backend/api/api.go:98-232 | right after processing both requests succeed, each listing exactly the stored rows |
| `Pipeline.Load` | main.go:36-61 | schema and processing on an empty database never fail and leave exactly what the spans accumulate to, with exact indexes and good references |
| `Pipeline.Start` | main.go:36-80 | schema, processing and both requests end to end: nothing fails, and the answers report the spans, components under the destinations that the spans name |

## Left out

- Records are values in the classes: the database stores the caller's record by reference; a caller that changes a record after handing it over is not captured.
- Rows that change while a request refers to them are modelled in `Protocol`, one look per row and request: a row that is read field by field while a write is in progress (a data race in the code), and a component that is looked at once for each connection listing it, are not captured. The class methods of `Api` run alone, where a record cannot change under them.
- Indexes and records are maps of sequences: bucket capacity and the sharing of backing arrays by slices are not captured.
- Index values are nil, strings, integers, booleans or string lists with structural equality; values on which Go map keys panic or differ from deep equality (slices as keys, pointers, NaN) are not modelled.
- `fmt.Sprintf("%v", pk)` is modelled on those values only.
- A batch and a single operation are one atomic step: the gap in `InsertBatchOnConflict` between its check under the read lock and its writes under the write lock is not captured.
- In `Protocol` a failed table write changes nothing, as with the in-memory database; a database that writes part of a batch before it fails is not modelled.
- The generation counter is a natural number: 64-bit wrap-around is not modelled.
- Lock order, deadlock, fairness and context cancellation.
- `DropTable`, `Clear`, `TableExists`, `Count` and `Get`: easy members without an invariant of their own.
- `OrderBy` and `JoinBuilder.Fields`: recorded but never used by the code.
- Regular expressions of the detectors: the engine is not part of this model.
- Gauges, counters, logging and simulated latency: no effect on stored state.
- HTTP servers, JSON encoding, configuration, loading of spans and signal handling.
- Injectivity of the colon-joined identifiers: not enforced by the code, and no result needs it.
