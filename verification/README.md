# A verified model of the event store and its pipeline

This project models an append-only, multi-tenant event platform and proves what its runs guarantee.
Events are rows of a PostgreSQL table with a version per stream; every stored event is published to
Kafka, consumed, and indexed in Elasticsearch, with a dead-letter queue for indexing failures; a
replay engine feeds the table from itself; a small runner applies database migrations.

Each external system is the state the Go code relies on: the table is the sequence of its rows in
commit order, a topic partition is a log with a committed offset, the index is a map from event id to
document. A statement reads a snapshot, a prefix of the rows, and meets a possibly longer table when
it commits. A remote call may fail before it takes effect, or take effect and lose its reply.

* `Collections`, `Text`: filtering, paging, strict orders, strings.Split and friends.
* `Events`, `Writers`: the event record, the events Ingest and the replay engine build, replay lineage.
* `Versions`, `AppendProtocol`: the INSERT with its stale snapshot, and any number of concurrent calls.
* `QueryBuilder`, `Sql`, `Postgres`: compiling filters to numbered placeholders, what ORDER BY / LIMIT
  may answer, and the `EventStore` class.
* `StreamReplay`, `ReplayBatch`, `ReplayEngine`, `Growth`, `Ingest`: the services that write and replay.
* `Trace`, `Topics`, `Producer`: the traceparent header, topic routes, publishing.
* `Delivery`, `Consumer`, `ReadModel`, `Query`: at-least-once delivery, the consume loop, the index, queries.
* `Pipeline`: all of it as one machine. `Batches`, `StreamOrder`: what becomes of each call's batch, and
  of the order of a stream's messages. `Guarantees`: the theorems about its runs.
* `GrowingLists`, `LivePaging`: paging while events are stored and indexed between the requests.
* `Interleaving`: the engine's append loop, among the steps of everybody else, as a run of the machine.
* `Histories`, `Replays`: runs that exist. `Recovery`: how an event that missed the index is recovered.
* `Findings`: inputs on which the code differs from its documentation.
* `Migrate`: one migration run, and any number of concurrent runners.

A run of a machine is any sequence of steps; a step that is not enabled changes nothing, so theorems
over all step sequences cover every interleaving, crash and failure. The classes carry out the
imperative parts of the source; values drawn from the surroundings (ids, clocks, the fate of each
remote call, the statements other clients commit meanwhile) are parameters. The table that
`Engine.AppendCopies` leaves among other clients is the one a run of the machine leaves in which one call
takes the loop's turns between the other calls' steps (`Interleaving.LoopIsRunAmongOthers`);
`Consumer.Run` is a run of the delivery machine.

## Findings

Each names the member with its exact condition and one in `Findings` with an input: a run from the empty
platform, or, where no state matters, the arguments of one call.

* A version gap reported by the read-only replay does not mean lost data: it is reported exactly when
  another tenant has events in the same stream between two of the caller's
  (`StreamReplay.Service.Replay`, `Findings.SharedStreamShowsGap`), though the gRPC handler presents it
  as data loss.
* `QueryForReplay` also fails for the largest Go int as safety limit, because limit plus one wraps
  around (`Postgres.EventStore.QueryForReplay` states the exact condition, `Findings.LargestLimitFails`).
* The total of a paginated store query is the match count exactly when nothing matches or the page lies
  within the list (positive limit, offset below the match count), and otherwise 0, although the comment
  promises the full match count (`Postgres.ListingTotalExact`, `Findings.EmptyPageForgetsTotal`).
* On an unchanged table, paging through the store with any page size is safe exactly when no page boundary
  falls between two rows with the same `occurred_at` (`Sql.PagingSafeExactly`); a list that fits on one page
  is safe, and read row by row it must have no ties at all. For every page size there is a history whose
  timeline can repeat one event and lose another (`Findings.TimelineCanLoseEvents`). On an unchanged index
  paging is always safe (`ReadModel.SearchPagesPartition`).
* When events are stored or indexed between the requests, no match of the first table (with distinct keys)
  or index is lost; a row is shown twice exactly when before some request a new match sorts in front of the
  page then asked for (`LivePaging.GrowingTablePaging`, `LivePaging.GrowingIndexPaging`). Newest-first lists
  do this without any tie (`Findings.NewEventRepeatsRow`: timeline and feed). A stream's rows by version
  never repeat in the store (`LivePaging.GrowingStreamPaging`), nor in the index while its documents arrive
  in version order (`LivePaging.OrderedArrivalsNeverRepeat`).
* The consumer reads the main topic only, so a stream routed to another topic never reaches the read
  model (`Guarantees.OtherTopicsNeverIndexed`, `Findings.RoutedAwayIsNeverIndexed`).
* The messages of a stream are on one partition, but not always in version order: calls that are ready to
  publish keep the order exactly when one of them at most holds rows of the stream and no later row is on
  the log (`StreamOrder.OrderKeptExactly`); two overlapping ingests break it
  (`Findings.OverlappingIngestsBreakOrder`).
* Append is idempotent per id, but Ingest draws a new id for every call, so a retried outbox forward does
  create a second row (`Guarantees.RetryStoresTwice`, `Findings.LostReplyStoresTwice`).
* A replay that fails while appending stays invisible downstream for ever
  (`Guarantees.FailedBatchesNeverSeen`). One that has come to publishing may stay visible in part: of a call
  that is over, a row is never seen in any later state exactly when it is recorded as unpublished at the end
  (`Guarantees.EndedRowFate`), so its batch is split for ever exactly when at the end some of its rows are on
  a topic and some recorded as unpublished (`Guarantees.SplitExactly`). It takes no crash, only one publish
  that fails (`Findings.FailedPublishSplitsBatch`); a crash after the first publish leaves all later rows
  unseen (`Guarantees.CrashSplitsBatch`).
* An event whose indexing and dead-lettering both fail "can be recovered" by a replay only as a copy. Its own
  document can, once no call is about to publish it, still come exactly while a message of it lies beyond a
  committed offset (`Recovery.DocumentCanComeExactly`). A replay of any stored event of a consumed topic can
  be indexed, and its document states the same fact, later in the stream (`Recovery.ReplayRecovers`,
  `Findings.DoubleFailureRecovered`).
* The runbook looks for replayed events by the replay id as correlation id. A copy keeps its original's
  correlation id, so such a query finds it exactly if it finds its original
  (`Findings.ReplayIdIsNoCorrelation`); a run in which it finds nothing is `Findings.ReplayIdFindsNothing`.
* The traceparent parser accepts upper-case hex digits and any two-character flags, although the format
  comment asks for lower case and 00 or 01 (`Trace.ParseExact`, `Trace.ReprintExact`,
  `Findings.OddHeaderAccepted`).

## Model

| member | source | states |
|---|---|---|
| Versions.StreamVersionsExact | internal/infrastructure/postgres/store.go:108-110 | on a gap-free table, a stream's rows in commit order carry exactly the versions 1, 2, ..., n |
| Versions.NextVersionIsCount | internal/infrastructure/postgres/store.go:130 | COALESCE(MAX(version), 0) + 1 is one more than the number of the stream's rows |
| Versions.TakenIsRange | internal/infrastructure/postgres/store.go:33 | the versions the UNIQUE constraint already holds for a stream are exactly 1..n |
| Versions.CommitCharacterised | internal/infrastructure/postgres/store.go:121-143 | a known id returns its row; an unknown id is inserted iff no row of its stream was committed after the snapshot, and then as number count + 1 |
| Versions.CommitKeepsValid | internal/infrastructure/postgres/store.go:115-148 | however stale the snapshot, a commit keeps versions gap-free and ids unique |
| Versions.VersionsFollowCommits | internal/infrastructure/postgres/store.go:130 | within a stream, version order is commit order, in both directions |
| Versions.FilteredVersionsRise | internal/infrastructure/postgres/store.go:167 | any selection of one stream's rows, in commit order, has strictly rising versions |
| Versions.VersionNamesRow | internal/infrastructure/postgres/store.go:33 | a stream and a version name at most one row |
| Versions.TakenIffOvertaken | internal/infrastructure/postgres/store.go:130 | on a gap-free table the computed version is taken iff another row of the stream was committed after the snapshot, and otherwise is the row count plus one |
| Versions.MaxVersionIsMax | internal/infrastructure/postgres/store.go:130 | on any table the subquery yields the largest version the snapshot holds for the stream, or none exactly if it holds no row |
| Versions.CommitOutcome | internal/infrastructure/postgres/store.go:121-143 | on any table the two constraints admit, which row is stored for the id, what is returned, and that the constraints still hold |
| Versions.MeanwhileFacts | internal/infrastructure/postgres/store.go:115-148 | whatever other clients commit meanwhile, the table stays gap-free and only grows at its end, by rows with ids of their own |
| AppendProtocol.StepKeepsInv | internal/infrastructure/postgres/store.go:115-148 | one step of any concurrent call keeps the table valid, earlier rows in place and earlier replies true |
| AppendProtocol.RunsKeepInv | internal/infrastructure/postgres/store.go:115-148 | over whole runs rows are only added at the end and replies never withdrawn |
| AppendProtocol.GapFreeUnderConcurrency | internal/infrastructure/postgres/store.go:108-148 | after any interleaving of Append calls, versions of each stream are exactly 1..n in commit order and ids are unique |
| AppendProtocol.RepliesAreForever | internal/infrastructure/postgres/store.go:112-114 | a version returned for an id is that of its only row in all later states; two successes of one id agree |
| AppendProtocol.RetryChangesNothing | internal/infrastructure/postgres/store.go:112-138 | retrying an id that has a row changes no row and returns its version |
| AppendProtocol.FreshCallOutcome | internal/infrastructure/postgres/store.go:121-147 | a call with a new id is rejected, with no effect at all, iff another row of its stream was committed meanwhile |
| AppendProtocol.LoneCallOutcome | internal/infrastructure/postgres/store.go:115-148 | a new id nobody overtakes is stored as the next version, whether or not the reply arrives, and the reply names that version; a failed call stores nothing |
| QueryBuilder.OldClausesStable | internal/infrastructure/postgres/store.go:286-343 | arguments appended later do not change what earlier clauses mean |
| QueryBuilder.AddIfSet | internal/infrastructure/postgres/store.go:308-337 | one builder block adds exactly its field's test when the field is set, and nothing otherwise |
| QueryBuilder.BuildStreamClauses | internal/infrastructure/postgres/store.go:304-322 | the clauses built so far mean the tenant, stream, correlation and type tests |
| QueryBuilder.BuildFieldClauses | internal/infrastructure/postgres/store.go:300-337 | without event ids the clauses mean the conjunction of the fields that are set |
| QueryBuilder.BuildIdClauses | internal/infrastructure/postgres/store.go:286-299 | event ids override every other field but the tenant |
| QueryBuilder.BuildReplayQuery | internal/infrastructure/postgres/store.go:281-338 | evaluated on the arguments, the clauses equal the filter on every row; placeholders are $1..$n, each once, in order; the error is exactly the missing tenant |
| QueryBuilder.BuildTimelineQuery | internal/infrastructure/postgres/store.go:251-271 | the same for the timeline's tenant and optional time bounds |
| Sql.OrderingUnique | internal/infrastructure/postgres/store.go:345 | if no two matching rows share the sort key, ORDER BY has one legal result |
| Sql.VersionOrderIsCommitOrder | internal/infrastructure/postgres/store.go:167 | ORDER BY version on a stream lists its rows in commit order |
| Sql.PagesPartition | internal/infrastructure/postgres/store.go:370-392 | on one unchanged table with distinct keys, enough pages of any size show every match exactly once, in order |
| Sql.TiesBreakPaging | internal/infrastructure/postgres/store.go:230-246 | for any page size, with equal keys on both sides of a page boundary there are legal answers under which one row is on two pages and another on none |
| Sql.PagingSafeExactly | internal/infrastructure/postgres/store.go:230-246 | on one unchanged table, for every page size: paging shows each match exactly once under every legal answer iff no page boundary cuts a run of equal keys in (any) one legal ordering |
| Sql.OrderingsAgreeOnKeys | internal/infrastructure/postgres/store.go:271 | all legal orderings have the same keys in the same places, so that condition can be read off any one of them |
| Sql.Splice | internal/infrastructure/postgres/store.go:271 | two legal orderings may be joined wherever neither cuts a run of equal keys |
| Sql.OnePageIsSafe | internal/application/query/service.go:169-174 | a list that fits on one page is safe whatever its ties |
| Sql.SinglePagesExactly | internal/infrastructure/postgres/store.go:230-246 | read one row per page, a list is safe iff no two matching rows share the key |
| Postgres.EventStore.Append | internal/infrastructure/postgres/store.go:115-148 | on any table the constraints admit, the whole new table and reply, in terms of known ids and taken versions; on a gap-free table a version is taken iff the snapshot was overtaken, and the table stays gap-free |
| Postgres.EventStore.GetByStreamID | internal/infrastructure/postgres/store.go:159-182 | exactly the rows of the stream, only the identity's tenant's if there is one, in version order, which on a valid table is commit order |
| Postgres.EventStore.GetFromVersion | internal/infrastructure/postgres/store.go:187-210 | the same, and exactly those whose version is at least the one asked for |
| Postgres.EventStore.GetByID | internal/infrastructure/postgres/store.go:214-226 | the row of the id, or not found exactly when there is none |
| Postgres.EventStore.QueryForReplay | internal/infrastructure/postgres/store.go:281-361 | field by field which rows are asked for, oldest first; succeeds iff they are at most the limit (below the largest int) and then returns all of them, never a truncation |
| Postgres.EventStore.ListWithCount | internal/infrastructure/postgres/store.go:370-392 | one page of a legal ordering; the total is the match count iff nothing matches or the limit is positive and the offset below the match count, and otherwise 0 |
| Postgres.ListingTotalExact | internal/infrastructure/postgres/store.go:228-229 | exactly when the total of a listing is the full match count, in terms of limit and offset |
| Postgres.ListingsArePages | internal/infrastructure/postgres/store.go:370-392 | the listings a client can get at multiples of its limit are exactly the pages of the paging theorem |
| Postgres.EventStore.ListTimeline | internal/infrastructure/postgres/store.go:251-276 | such a listing of the tenant's rows within the optional bounds, newest first, with limit and offset bound to their own placeholders; a first page that is not full shows them all |
| Postgres.EventStore.ListByCorrelationID | internal/infrastructure/postgres/store.go:230-236 | such a listing of the tenant's rows with the correlation id, newest first; a first page that is not full shows them all |
| Postgres.EventStore.ListByCausationID | internal/infrastructure/postgres/store.go:240-246 | such a listing of the tenant's rows with the causation id, oldest first; a first page that is not full shows them all |
| StreamReplay.ValidateContiguous | internal/application/replay/service.go:94-103 | no error iff every version follows its predecessor; otherwise the first gap's missing and found versions |
| StreamReplay.ContiguousExact | internal/application/replay/service.go:42-103 | on a gap-free table the caller's events are contiguous iff no other tenant's event of the stream lies between two of them |
| StreamReplay.ReportedGapIsForeign | internal/application/replay/service.go:98-99 | the version a gap error calls missing is held by another tenant's row |
| StreamReplay.VersionsAskedFor | internal/application/replay/service.go:27-90 | a tenant with a stream of n rows of its own reads exactly the versions max(1, fromVersion)..n |
| StreamReplay.Service.Replay | internal/application/replay/service.go:45-90 | the answer is exactly the caller's events of the stream from the version on, in order, or their first gap; on a table Append built, a gap is reported iff another tenant's event lies in between, and on a stream of the caller's alone the answer is versions max(1, fromVersion)..n; every error with its exact condition |
| Writers.CopyIsSameFact | internal/application/replay/service.go:220-247 | a replay copy states the same fact as its original, metadata equal outside the four replay keys |
| Writers.PointersReachOriginal | internal/application/replay/service.go:235-240 | replay pointers lead with strictly falling versions, in one stream and tenant, to an original event stating the same fact |
| ReplayEngine.Engine.AppendCopy | internal/application/replay/service.go:220-258 | one turn of the loop appends one marked copy of its original, or nothing if the statement fails or another client's row of the stream is committed during it |
| ReplayEngine.Engine.TakeTurn | internal/application/replay/service.go:219-259 | each turn meets just what other clients committed before and during it, and the loop goes on exactly if its append was acknowledged |
| ReplayEngine.Engine.AppendCopies | internal/application/replay/service.go:218-259 | among other clients' rows, copies of the matched events, in order, up to the first append that fails, is overtaken, or loses its reply |
| ReplayBatch.BatchLeaves | internal/application/replay/service.go:201-259 | however other clients interleave, the call's own rows are copies of the first matches, in matched order, with rising versions per stream: of all iff every append was acknowledged, else of those before the failed one, plus that one if only its reply was lost |
| ReplayBatch.UndisturbedBatch | internal/application/replay/service.go:218-259 | with no other client writing, the table grows by those copies and nothing else, and a turn lands iff its statement ran |
| ReplayEngine.Engine.PublishAll | internal/application/replay/service.go:261-272 | each event whose write reaches the broker is sent once, in order, keyed by its stream and on its topic; a failed publish does not stop the rest |
| ReplayEngine.Engine.FindMatches | internal/application/replay/service.go:164-199 | each rejection with its exact condition; the rows asked for are all of the caller's tenant, with event ids exactly the tenant's rows of those ids, otherwise exactly those the fields select; answered iff they are at most the limit, by default 1000 |
| ReplayEngine.Engine.Execute | internal/application/replay/service.go:159-291 | the same rows, all of the caller's tenant; a dry run or rejection changes nothing; an active run leaves a batch as above and succeeds iff every append was acknowledged, and then each event returned is, field by field, the marked copy of its match; otherwise it stopped at one that was not, and publishes nothing |
| Growth.ExecuteIsAttempt | internal/application/replay/service.go:185-259 | with nobody else writing, Execute is one attempt of the growth bound, successful iff it returns no error |
| Growth.CopiesMatch | internal/application/replay/service.go:220-233 | copies match an unbounded filter again, so the matches grow by the rows appended |
| Growth.ReplayGrowthBound | internal/application/replay/service.go:185-259 | from n matches, w successes need n * 2^(w-1) <= limit and leave n * 2^w; matches never exceed max(n, 2 * limit), partial failures included |
| Growth.ReplayRepeatedly | internal/application/replay/service.go:159-291 | calling Execute again and again meets that bound, whatever fails in each call |
| Ingest.Service.Ingest | internal/application/ingest/service.go:53-106 | stored iff acceptable, the statement ran and no row of the stream was committed meanwhile, every field of the row given; published, keyed by the stream, only if the append was acknowledged; a failed publish does not fail the call |
| Trace.ProducerHeaderRoundTrip | internal/pkg/trace/trace.go:46-80 | the producer's header parses iff the trace id, an arbitrary string, is exactly 32 hex digits, and then gives everything back |
| Trace.TraceparentFormat | internal/pkg/trace/trace.go:46-52 | the printed header is 00-, the trace id, the span id and 01 or 00, joined by dashes |
| Trace.HexMeans | internal/pkg/trace/trace.go:100-103 | what decodes as hex: pairs of the 22 digits of either case |
| Trace.ParseExact | internal/pkg/trace/trace.go:54-80 | exactly which headers are accepted and as what |
| Trace.ReprintExact | internal/pkg/trace/trace.go:46-80 | printing a parsed header restores it iff its flags are 00 or 01 |
| Topics.ParseTopicRoutes | internal/config/config.go:160-176 | for every string, each key maps to the topic of the last valid pair with that key, and no other key is mapped |
| Topics.Resolver.Topics | internal/infrastructure/kafka/topic_resolver.go:88-98 | exactly the topics that can be chosen, without duplicates |
| Topics.ResolveAgrees | internal/infrastructure/kafka/topic_resolver.go:34-86 | resolving with parsed routes equals reading the string directly by the stream's prefix, and stays among the announced topics |
| Topics.ResolveConfigured | internal/infrastructure/kafka/topic_resolver.go:34-98 | parse, build, resolve and list together meet that reading |
| Topics.RoutesRoundTrip | internal/config/config.go:163-176 | writing a well-formed route map, with space around the pairs or none, the empty one included, and parsing it gives the map back |
| Topics.RoutedAsWritten | internal/infrastructure/kafka/topic_resolver.go:64-86 | a stream goes to the topic written for the text before its first colon, and to the default topic without a colon or such a pair |
| Topics.SpacedRoutes | internal/config/config.go:168-170 | "a:x, b:y" routes a to x and b to y: the space is trimmed |
| Text.TrimPadded | internal/config/config.go:170 | trimming takes exactly the surrounding space away |
| Producer.Producer.Publish | internal/infrastructure/kafka/producer.go:47-87 | one message exactly when the write reached the broker: the event itself, keyed by its stream, on the topic resolved for that, with these headers |
| Producer.ReadHeaders | internal/infrastructure/kafka/consumer.go:60-72 | the trace is that of the last traceparent header that parses, none iff none does; the correlation id is that of the last such header that is not empty, none iff there is none |
| Producer.ContextCrossesTheLog | internal/infrastructure/kafka/producer.go:61-73 | the consumer of a published event recovers its correlation id, and its trace id iff that is 32 hex digits |
| Consumer.Service.Handle | internal/application/consume/service.go:58-76 | afterwards the event is a document, a dead letter or a recorded double failure |
| Consumer.Service.RouteToDlq | internal/application/consume/service.go:78-108 | the event is dead-lettered, or the double failure recorded |
| Consumer.Consumer.Run | internal/infrastructure/kafka/consumer.go:39-110 | turn by turn, each acknowledged turn passes one pending message of its partition, malformed or not, and the first cancelled, failed or unacknowledged turn ends the loop, with an error unless cancelled; every message passed is malformed, a document, a dead letter or a recorded double failure, and a document if no indexing failed; the effect is a run of the delivery machine |
| Consumer.TurnsAdvance | internal/infrastructure/kafka/consumer.go:39-110 | n turns that go on advance a partition by as many messages as turns fetch from it, until none is left |
| Consumer.TurnResult | internal/infrastructure/kafka/consumer.go:48-109 | one turn is fetch, handle or skip, and commit steps of the machine |
| Delivery.ConsumerAccounting | internal/infrastructure/kafka/consumer.go:17-18 | every message below a committed offset is malformed, indexed, dead-lettered or a recorded double failure; handler calls never exceed commits + restarts + 1 |
| Delivery.StepKeepsInv | internal/application/consume/service.go:58-61 | every step keeps the accounts, and takes back no document, dead letter or offset |
| Delivery.DocumentsDetermined | internal/infrastructure/elasticsearch/indexer.go:115-142 | two runs that indexed the same ids hold the same documents, whatever the order, duplicates and crashes |
| ReadModel.Indexer.Index | internal/infrastructure/elasticsearch/indexer.go:117-142 | the document of the event's id is created or overwritten, and no other |
| ReadModel.Indexer.Search | internal/infrastructure/elasticsearch/indexer.go:154-246 | exactly the documents of the stream and tenant asked for, by version and id, or by falling millisecond and id: the page and the total of that one full list; a first page that is not full shows them all |
| ReadModel.HitListUnique | internal/infrastructure/elasticsearch/indexer.go:180-191 | both sort orders are total, so a query has one full answer |
| ReadModel.SearchPagesPartition | internal/infrastructure/elasticsearch/indexer.go:193-199 | on an unchanged index, consecutive pages show every match exactly once, with a constant total |
| ReadModel.HitsAreStreamRows | internal/infrastructure/elasticsearch/indexer.go:151-153 | sorting a stream's documents by version and id restores the store's order |
| Query.ClampLimit | internal/application/query/service.go:169-174 | the served page size: 20 when unset, at most 100, otherwise as asked |
| Query.Service.QueryByStream | internal/application/query/service.go:160-209 | the search answer for the clamped bounds: documents of the stream and of the caller's tenant only, in version order, all of them on a first page that is not full; each error's exact condition |
| Query.Service.ListAll | internal/application/query/service.go:85-154 | with a correlation id a listing of the store, otherwise a search of the read model, newest first; every event is of the caller's tenant, and a first page that is not full shows all |
| Query.Service.ListByCausationID | internal/application/query/service.go:247-285 | the clamped listing, oldest first; every event is of the caller's tenant |
| Query.Service.GetTimeline | internal/application/query/service.go:290-326 | the clamped listing, newest first; every event is of the caller's tenant and within the bounds |
| Query.Service.GetByID | internal/application/query/service.go:331-358 | found iff a row has the id and the caller's tenant; another tenant's row is not found |
| Query.StreamPageIsStoreSlice | internal/application/query/service.go:156-208 | a page of a stream is the clamped slice of the stored rows the index holds |
| GrowingLists.NoneLost | internal/infrastructure/postgres/store.go:370-392 | page k of a sorted list read from the k-th of a growing series: no element of the first list is lost |
| GrowingLists.RepeatsExactly | internal/infrastructure/postgres/store.go:370-392 | some element is shown twice iff before some request a newcomer sorts in front of the page then asked for |
| LivePaging.GrowingTablePaging | internal/infrastructure/postgres/store.go:251-276 | both for the listings of the store, answered from growing tables whose matches have distinct keys |
| LivePaging.GrowingStreamPaging | internal/infrastructure/postgres/store.go:167 | pages of one stream by version, read while it grows, are together exactly its rows at the end, in order |
| LivePaging.GrowingIndexPaging | internal/infrastructure/elasticsearch/indexer.go:180-199 | both for the pages of any search, answered from a growing index |
| LivePaging.OrderedArrivalsNeverRepeat | internal/infrastructure/elasticsearch/indexer.go:180-199 | if every new hit sorts behind those there were, as when a stream is indexed in version order, no hit is shown twice |
| LivePaging.DocumentsGrow | internal/infrastructure/elasticsearch/indexer.go:115-142 | over any run of the platform the index only grows: no document is changed or removed |
| Pipeline.StepKeepsTable | internal/application/replay/service.go:249-259 | every step keeps versions gap-free, ids unique, lineage sound and earlier rows unchanged |
| Pipeline.StepKeepsMessages | internal/application/ingest/service.go:82-95 | every message carries a stored row, on the topic its stream is routed to |
| Pipeline.StepKeepsConservation | internal/application/replay/service.go:261-272 | every stored row is on some topic, waiting to be published, or recorded as unpublished |
| Batches.StepKeepsBatches | internal/application/replay/service.go:256-264 | calls own their rows, and nothing of a batch is published while it is still being stored |
| Batches.StepKeepsPlans | internal/application/replay/service.go:218-259 | every step keeps each call's rows, running or over, the realised first drafts of its plan with rising versions |
| Batches.StepLoses | internal/application/replay/service.go:249-264 | what a failing step records as unpublished is on no topic, and no call is left to publish it |
| Batches.StepKeepsLost | internal/application/replay/service.go:249-264 | a row recorded as unpublished stays so and stays unseen |
| Batches.StepKeepsStored | internal/application/replay/service.go:218-259 | the rows a call has stored, running or over, are in no other call's list of rows to publish |
| Batches.StepKeepsTail | internal/application/replay/service.go:261-272 | a publishing call has sent none of the rows behind the one it is about to send |
| StreamOrder.StreamsOnOnePartition | internal/infrastructure/kafka/producer.go:16-19 | in every reachable state the producer's messages of a stream all lie on the partition its name hashes to |
| StreamOrder.RepeatedWrite | internal/infrastructure/kafka/producer.go:83-86 | a write that the client library repeats puts the event on its partition twice, one right after the other |
| StreamOrder.SerialStreamsInOrder | internal/infrastructure/kafka/producer.go:16-19 | if a stream's rows are committed only while no other call has rows of it to publish, its messages are in version order in every state of the run |
| StreamOrder.OrderKeptExactly | internal/infrastructure/kafka/producer.go:16-19 | calls ready to publish keep a stream's messages in version order, however they go on, iff one of them at most holds rows of it and no later row is logged |
| Pipeline.RunsKeepInv | internal/application/ingest/service.go:49-52 | all of this in every reachable state |
| Guarantees.NoPhantoms | internal/application/consume/service.go:62-86 | every message, document and dead letter is a copy of a stored row |
| Guarantees.DocumentsStored | internal/infrastructure/elasticsearch/indexer.go:115-116 | a document equals the stored row of its id, so the index is determined by the table and the indexed ids |
| Guarantees.EveryRowAccounted | internal/application/consume/service.go:58-61 | no event is lost unrecorded: each stored row of a consumed topic is in one of six places |
| Guarantees.UnpublishedNeverSeen | internal/application/ingest/service.go:86-95 | a row recorded as unpublished is on no topic, in no document and no dead letter |
| Guarantees.ReadModelIsStoreView | internal/application/query/service.go:156-160 | in every reachable state QueryByStream pages through the store's rows in order, leaving out exactly those not indexed |
| Guarantees.ReadModelRefinesStore | internal/application/query/service.go:156-209 | once nothing is under way and nothing failed, QueryByStream is the clamped slice of GetByStreamID with its length as total |
| Guarantees.OtherTopicsNeverIndexed | internal/infrastructure/kafka/consumer.go:24-37 | a stream routed to another topic always queries as empty |
| Guarantees.UnfinishedBatchesInvisible | internal/application/replay/service.go:249-264 | no row of a batch that is still being appended is visible on a topic, in the index or in the dead-letter queue |
| Guarantees.FailedBatchesNeverSeen | internal/application/replay/service.go:249-258 | the rows of a call that ended before publishing, by a failure, a collision, a lost reply or a crash, stay stored and are never visible downstream in any later state |
| Guarantees.BatchesFollowPlans | internal/application/replay/service.go:218-259 | under any interleaving a call's stored rows realise a first part of its plan, in order, with rising versions; all of it once it publishes |
| Guarantees.EndedRowFate | internal/application/replay/service.go:249-272 | for each row of a call that is over and every later state: never seen downstream iff recorded as unpublished when the call ended, else on a topic |
| Guarantees.SplitExactly | internal/application/replay/service.go:261-272 | a batch stays visible in part for ever iff at its end some of its rows are on a topic and some recorded as unpublished |
| Guarantees.CrashSplitsBatch | internal/application/replay/service.go:261-272 | a crash right after a call's next publish: that row is on its topic, and each later row of the batch is unseen for ever |
| Guarantees.EveryCommitInserts | internal/infrastructure/postgres/store.go:134-138 | in every reachable state a statement of Ingest or Execute that is not overtaken inserts a row; none ever meets its own id |
| Guarantees.RetryStoresTwice | internal/infrastructure/postgres/store.go:112-138 | two calls with one command whose statements commit leave two rows stating it, whatever happens in between |
| Guarantees.StreamsStayGapFree | internal/infrastructure/postgres/store.go:108-110 | gap-free versions and unique ids in every reachable state of the whole platform |
| Guarantees.ReplayLineageWellFounded | internal/application/replay/service.go:142-146 | from any stored row, pointers lead to an original stating the same fact, in every reachable state |
| Guarantees.StoreOnlyGrows | internal/application/replay/service.go:142-144 | the table of any later state begins with the earlier one |
| Guarantees.SoloCallAppends | internal/application/replay/service.go:218-259 | a call of the machine left alone appends exactly the rows its drafts describe |
| Interleaving.RunIsStatements | internal/infrastructure/postgres/store.go:115-148 | what any run of the platform does to the table is what the INSERTs its steps commit do, one after the other |
| Interleaving.LoopIsRunAmongOthers | internal/application/replay/service.go:218-259 | among any steps of other calls, the broker and the consumer, the table the engine's append loop leaves by its contract is the one a run of the machine leaves |
| Replays.StoreReplay | internal/application/replay/service.go:218-259 | a replay call of the machine left alone stores one copy of every match, in order, and publishes none yet |
| Replays.FailedPublishSplits | internal/application/replay/service.go:261-272 | from any reachable state with two matches and a free call, one failed publish leads to a batch that is split for ever |
| Recovery.DocumentCanComeExactly | internal/application/consume/service.go:58-61 | a stored row without a document that no call will publish can still get one iff a message of it lies beyond a committed offset |
| Recovery.ReplayDocumentStatesFact | internal/application/replay/service.go:220-247 | the document of a replay states the same fact as the row it points to, in the same stream at a later version |
| Recovery.ReplayRecovers | internal/application/consume/service.go:78-90 | from every reachable state a replay of a stored row of a consumed topic can be stored, published and indexed; a row that was missed for ever gets no document of its own by that |
| Recovery.DoubleFailureIsMissed | internal/application/consume/service.go:84-98 | from a quiet platform, an ingest whose event can be neither indexed nor dead-lettered is recorded as skipped and missed for ever |
| Histories.IngestWhole | internal/application/ingest/service.go:53-106 | one undisturbed ingest leads from a caught-up platform to a caught-up platform and adds its row |
| Histories.EveryHistoryHappens | internal/application/ingest/service.go:49-52 | every list of ingests with distinct ids is the history of a run that ends caught up, with exactly their rows in the table |
| Findings.RefinementIsMet | internal/application/query/service.go:156-209 | the caught-up state of the read-model theorem is reached with events in it |
| Findings.SharedStreamShowsGap | internal/application/replay/service.go:94-103 | a run after which two tenants share a stream and one's contiguous events read as a gap |
| Findings.TimelineCanLoseEvents | internal/infrastructure/postgres/store.go:251-276 | for every page size a run after which two pages of the timeline may repeat one event and lose another |
| Findings.EmptyPageForgetsTotal | internal/infrastructure/postgres/store.go:370-392 | a run after which every answer past the end of a list of one event has total 0 |
| Findings.RoutedAwayIsNeverIndexed | internal/infrastructure/kafka/topic_resolver.go:34-86 | a route string, a stream and a run after which the stored event's stream queries as empty |
| Findings.OverlappingIngestsBreakOrder | internal/infrastructure/kafka/producer.go:16-19 | a run of two ingests after which a stream's messages are out of version order |
| Findings.LostReplyStoresTwice | internal/infrastructure/postgres/store.go:134-138 | a run of an ingest and its retry that leaves two rows stating one command |
| Findings.LargestLimitFails | internal/infrastructure/postgres/store.go:342-343 | at the largest Go int as its limit a replay query of an empty table fails, and not with the limit error |
| Findings.NewEventRepeatsRow | internal/infrastructure/postgres/store.go:251-276 | a run after which an event ingested between two requests makes the timeline and the feed repeat a row, with no tie |
| Findings.FailedPublishSplitsBatch | internal/application/replay/service.go:261-272 | a run of two ingests and their replay, one publish of which fails, that leaves a batch split for ever |
| Findings.DoubleFailureRecovered | internal/application/consume/service.go:58-61 | a run with a double failure and a replay of it: the original has no document, the copy has one that states its fact |
| Findings.ReplayIdIsNoCorrelation | RUNBOOK.md:156-160 | a copy is listed under its replay id as correlation id iff its original is |
| Findings.ReplayIdFindsNothing | RUNBOOK.md:156-160 | a run with one replay after which the search by its replay id is empty |
| Findings.OddHeaderAccepted | internal/pkg/trace/trace.go:46-80 | a header with upper-case digits and flags zz that is accepted and not printed back |
| Collections.LexMeans | cmd/migrate/main.go:93 | one string sorts before another iff at the first difference it ends or has the smaller character |
| Migrate.CollectFiles | cmd/migrate/main.go:81-93 | exactly the entries that end in .sql, ordered by the first character that differs |
| Migrate.Database.ApplyOne | cmd/migrate/main.go:124-151 | whichever statement of the transaction fails, SQL and tracking row take effect together or not at all; a recorded file is refused |
| Migrate.Database.Run | cmd/migrate/main.go:56-122 | applied files stay a prefix of the list whatever was read of the tracking table; success means all are applied; a complete list is never touched |
| Migrate.ExactlyOnceInOrder | cmd/migrate/main.go:8-11 | for any runners, several of which may have run one file's SQL in open transactions, and crashes between any two statements, committed migrations are a prefix of the sorted list, each once, recorded iff committed |
| Migrate.FinishedMeansAll | cmd/migrate/main.go:95-121 | once any run has succeeded all files are applied and nothing is committed afterwards |
| Migrate.LoneRunnerFinishes | cmd/migrate/main.go:95-121 | whatever runners did before, a new one that reads the whole tracking table and is left alone returns with exactly all files applied and recorded |

## Left out

- HTTP and gRPC handlers, DTOs, authentication and token issuing: an identity is an optional tenant id.
- Network clients, connection pools, topic provisioning, index creation and start-up retries.
- PostgreSQL beyond snapshots, the two uniqueness constraints and atomic commit; waiting for an uncommitted conflicting row is resolved at commit.
- JSON encoding, JSONB normalisation and timestamp rounding: a message is a well-formed event or malformed, a payload is an opaque string.
- Well-formed messages from producers outside this repository; only malformed ones arrive from elsewhere.
- Randomness of UUIDs, trace ids and span ids: freshness and shape are assumptions on parameters.
- The message's timestamp, and the reason, time and correlation id in the dead-letter envelope.
- A handler that returns an error to the consume loop: the only handler of this repository never does.
- Elasticsearch's refresh delay and result window: documents are visible at once; a refused search is a failed call.
- Consumer group rebalancing between several instances, which looks like a crash and a restart.
- `created_at`, indexes, column defaults, and the order of rows the SQL leaves open.
- Logging, deadlines, environment variables, and the log-only correlation fallback.
- Versions and counters are unbounded integers; only the replay limit's addition is given its 64-bit width.
- ReplayEngine.Engine.Execute: assumes a gap-free table at its start, as Ingest does; other clients may write at any time during the calls.
- Changing the number of a topic's partitions: the balancer's hash then moves streams to other partitions.
- Precision of `occurred_at` beyond milliseconds in the index: the feed's order compares milliseconds, as the mapping's date type does, and then ids.
