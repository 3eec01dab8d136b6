# Congee: a verified model of the relay's state-keeping engine

Congee is a Nostr relay. This project models, in Dafny, the parts of it that keep state, and proves what those
parts promise over every input, every run and every interleaving.

- **Subscriptions.** A REQ opens a numbered generation. A worker pages the store by keyset cursor
  (`ReqQuery`, `ReqPaging`) while broadcasts are buffered; EOSE flushes the buffer; replacement, overflow or an
  error ends the generation (`Subscriptions`, `ReqProtocol`). `ReqNoGap` shows that nothing falls between the
  snapshot and the live stream, `ReqVisibility` that nothing unreadable is sent.
- **Event store.** Events split into rows and back (`Tables`), NIP-01 replacement as a join (`EventStore`)
  and by kind numbers (`Nip01`), the same under interleaved PostgreSQL transactions (`PostgresStore`), copying one
  store into another (`Migrator`), filters compiled to SQL and counted (`FilterSql`, `QuerySql`) against live matching
  (`FilterMatch`), and the trigger-kept search index with its schema migrations (`SearchIndex`).
- **Rate limits.** Sliding windows of events and bytes, and the evicting per-IP cache (`Limiter`).
- **NIP-77.** Session slots (`NegSessions`, `NegProtocol`), what they are answered (`NegAnswers`), and which ids a
  reconciliation may disclose (`NegVisibility`).
- **Single writer.** The write queue with timeouts, retry, reconnect and shutdown (`WriterQueue`).
- **Products.** The legacy relay's product projection and browsing (`Products`, `Browse`) and its adaptive backfill (`Backfill`).
- **Connections.** Admission, teardown and shutdown (`Admission`).

`Nostr`, `Order` and `Wrappers` hold what the others share: events, filters and kinds; sorting with a unique answer;
option and result types. `dafny verify dfyconfig.toml` checks everything.

How to read it. A concurrent part is a state machine: each section that runs under a lock, each atomic operation and
each store read is one step, `Enabled` says when it can happen, `Do` what it does, and a theorem about `Run` speaks of
every finite sequence of enabled steps. Objects the source updates in place are classes whose methods are proved against
the functions the theorems are about. Where the source ranges over a Go map, the model picks keys in any order. Sends,
clocks, fetches, state-file writes and rate-limit answers are inputs of the step that meets them.

Where a promise does not hold for every input, the exact condition is proved: SQL and live matching differ only on empty
tag values (`QuerySql.AgreesExactlyWhen`), the last index migration needs an index that mirrors the events
(`SearchIndex.V7AgreesExactlyWhen`), the backfill skips seconds only when configured to start later
(`Backfill.NothingSkippedExactlyWhen`) and misses events only where a relay holds more than the limit in an accepted
window (`Backfill.NothingMissedExactlyWhen`; its halving can hide that, `Backfill.RetryHidesTruncation`), and a
migration fails only on an ephemeral event (`Migrator.CopyJoins`). The comment on `CountFilterSubQuery` says its
semantics match the query's; it ignores a cursor, and the count is right exactly when the cursor hides nothing
(`QuerySql.CountAgreesExactlyWhen`; no caller counts a filter with a cursor). The product projection should be the same
online as after a fresh seeding. It is exactly when each winning revision was buried since it was there just when some
deletion no older than it names it (`Products.OnlineAgreesExactlyWhen`). Among arrivals that fails in two ways: a
deletion that arrives before its product does not bury it (`Products.ArrivalOrderMatters`), and an older deletion naming
its id does (`Products.OldDeletionsBuryById`). Runs with neither agree (`Products.PunctualRunsAgree`). A price text of
`NaN` is accepted, and a price sort is no order when it meets another price (`Browse.ComparisonOrdersExactlyWhen`); then
the listing follows the order the map was ranged in, and otherwise it does not (`Browse.ListingIsUniqueExactlyWhen`). A
group's visibility may be stale within one reconciliation (`NegVisibility.CacheIsCurrentExactlyWhen`).

Assumptions. An event's id determines the event wherever a theorem asks for `UniqueIds` of all events involved: ids are
hashes. Ids are numbers: their hex form has a fixed width, so the byte order of the text is the order of the numbers.
Cursor text reads back as the id it was built from. Clock readings never go back.

## Model

| member | source | states |
|---|---|---|
| `ReqProtocol.FramesInOrder` | congee/internal/relay/subscription.go:202-232 | In every run, what is enqueued for a generation is snapshot events, then at most one EOSE, then live events in the order broadcasts handed them over, then at most one CLOSED; the buffer never passes 256; accepted = sent + dropped + buffered; the counters are what the log shows. |
| `ReqProtocol.GoneIsSilentForever` | congee/internal/relay/subscription.go:283-293 | A generation no subscription id carries any more is never sent another frame, whatever steps follow. |
| `ReqProtocol.SubscriptionsStayCapped` | congee/internal/relay/subscription.go:98-127 | In every run no connection holds more subscriptions than its cap. |
| `ReqProtocol.SubscriptionsEndExactlyWhen` | congee/internal/relay/subscription.go:202-232 | A step ends a subscription if and only if it opens or removes its id, disconnects its connection, fails its page read, or hands it a live event while 256 are buffered; the last two send it exactly one CLOSED. |
| `ReqProtocol.DeliverOk` | congee/internal/relay/subscription.go:202-232 | One delivery keeps the frame order and the accounting of its entry: live frame, buffered event, or CLOSED on the 257th. |
| `ReqProtocol.CompleteOk` | congee/internal/relay/readqueue.go:175-193 | EOSE and the flush keep the order and move every buffered event into sent or dropped; a refused EOSE flushes nothing. |
| `ReqProtocol.SnapshotOk` | congee/internal/relay/readqueue.go:138-169 | A snapshot frame goes out before any EOSE and is counted as sent or dropped. |
| `ReqProtocol.StepKeepsOrder` | congee/internal/relay/nip01.go:210-278 | Every step of publishers, workers, clients and connections keeps the order invariant. |
| `ReqNoGap.NoGap` | congee/internal/relay/nip01.go:210-278 | Once a snapshot is complete, every stored event an unlimited filter matches, and that its connection could read ever since the generation was opened, has been handed to the connection, unless its own broadcast is under way; if no frame was refused, it was enqueued. No assumption on schedule, deletions, repeated saves or what else became readable. |
| `ReqVisibility.NeverReadableIsNeverSent` | congee/internal/relay/readqueue.go:138-169 | An id a connection could read in no state of a run is handed to it by no frame, however broadcasts, page reads and changes of what may be read interleave. |
| `ReqVisibility.StepStaysWithheld` | congee/internal/relay/subscription.go:192-232 | No step lets an id the connection may not read pass a visibility check, into a buffer or into a frame. |
| `ReqNoGap.StepKeepsCover` | congee/internal/relay/readqueue.go:90-136 | After every step each event owed to a subscription is in its log, its buffer, a broadcast, the page, the outbox, or ahead of a cursor. |
| `ReqNoGap.ReadOrAhead` | congee/internal/relay/req_query.go:172-207 | A page read against the store as it is now returns an event its cursor had not passed, or still has not passed it. |
| `ReqNoGap.FreshIsAhead` | congee/internal/relay/req_query.go:54-77 | A new query state has every event its unlimited filters want ahead of some cursor. |
| `ReqNoGap.MergeMovesIds` | congee/internal/relay/req_query.go:81-111 | Merging a page moves every id not yet seen to the outgoing list. |
| `ReqNoGap.PublishKeepsCover` | congee/internal/relay/subscription.go:171-197 | Matching a broadcast leaves no wanted subscription without a delivery. |
| `ReqPaging.PagesRefineOneRead` | congee/internal/relay/req_query.go:113-213 | For any page size of at least one, the pages end, send no id twice, and send exactly the ids one full read sends: search hits, and per filter its newest matches up to its limit. |
| `ReqPaging.OneFilterSameSequence` | congee/internal/relay/req_query.go:145-213 | For one filter without search text, the pages put end to end are the full read, in the same order. |
| `ReqPaging.LimitIsHonoured` | congee/internal/relay/req_query.go:64-74 | Over all pages of a REQ, for any page size, a filter reads its newest matches in order, each once; a positive limit caps the rows read, and it reads that many when there are as many. |
| `ReqPaging.PagesSendTheRest` | congee/internal/relay/req_query.go:145-213 | From any reachable query state the remaining pages send exactly the ids still owed, each once. |
| `ReqPaging.RestAfter` | congee/internal/relay/req_query.go:186-197 | Moving the cursor to the last row read leaves exactly the rows behind it. |
| `ReqPaging.Advances` | congee/internal/relay/req_query.go:172-207 | One read of a cursor returns the next slice of the full list and moves position, budget and exhaustion with it. |
| `ReqPaging.MergedOnce` | congee/internal/relay/req_query.go:81-111 | A merged page sends each unseen id of the page once and nothing else. |
| `ReqPaging.PickedInRankOrder` | congee/internal/relay/req_query.go:81-92 | Search hits go out in the order the store ranked them. |
| `ReqPaging.PageShrinks` | congee/internal/relay/req_query.go:172-213 | Every page that reports more leaves strictly less to read. |
| `ReqPaging.DrainPages` | congee/internal/relay/readqueue.go:205-233 | The drain loop ends. Unless a replacement, a query error or a stopped send met it, it sends exactly the pages of the query state; met by one, a prefix of them. |
| `ReqQuery.QueryEvents` | congee/internal/storage/sqlevent/store.go:243-297 | The rows the compiled query accepts, newest first then lowest id, cut at a positive limit. |
| `ReqQuery.ApplyDefaultQueryLimit` | congee/internal/relay/req_query.go:15-38 | Only filters without a limit get the default; explicit non-positive limits stay unlimited. |
| `ReqQuery.ReqQueryState.constructor` | congee/internal/relay/req_query.go:54-77 | Filters become cursors with their budget, or search filters when search is on. |
| `ReqQuery.StateTakesFilters` | congee/internal/relay/req_query.go:54-77 | Every filter without search text becomes an unread cursor with its limit, or the default, as budget; every one with it a search filter when search is on; there are no others. |
| `ReqQuery.MergePageEvents` | congee/internal/relay/req_query.go:81-111 | Search hits in rank order first, then the rest newest first, all marked as seen. |
| `ReqQuery.ReqQueryState.FetchAll` | congee/internal/relay/req_query.go:113-138 | Every filter is read once in full and merged into one page. |
| `ReqQuery.ReqQueryState.FetchPage` | congee/internal/relay/req_query.go:145-213 | One page: each unexhausted cursor read and advanced, search once, rows merged. |
| `Subscriptions.SubscriptionManager.Add` | congee/internal/relay/subscription.go:98-127 | Refused for an id too long, then for too many filters, then for a new id on a connection at its cap, exactly; else a fresh generation with these filters replaces the entry and touches no other. |
| `Subscriptions.SubscriptionManager.UnregisterSender` | congee/internal/relay/subscription.go:80-95 | Routing and every subscription of the connection go; their ids are returned. |
| `Subscriptions.SubscriptionManager.Match` | congee/internal/relay/subscription.go:171-190 | The entries with a registered sender and a matching filter, by identity. |
| `Subscriptions.SubscriptionManager.DeliverTo` | congee/internal/relay/subscription.go:202-232 | Sends, buffers, or closes on overflow, and only for the very entry that was matched. |
| `Subscriptions.SubscriptionManager.SendSnapshotEvent` | congee/internal/relay/readqueue.go:150-163 | Sends and counts one snapshot event while the generation is current and nothing is cancelled, and says whether it is current. |
| `Subscriptions.SubscriptionManager.CompleteSnapshot` | congee/internal/relay/readqueue.go:175-193 | EOSE, then the buffer in order, each outcome counted; nothing more when EOSE is refused, nothing at all when cancelled. |
| `Subscriptions.SubscriptionManager.CloseSnapshotOnQueryError` | congee/internal/relay/readqueue.go:195-202 | A current generation is sent CLOSED and removed in one section. |
| `FilterMatch.Matches` | congee/internal/nostr/filter.go:151-214 | The list-by-list check accepts exactly the events the filter matches. |
| `FilterMatch.EventTagMatches` | congee/internal/nostr/filter.go:217-237 | True exactly when some tag of that name has a first value among the wanted ones. |
| `FilterSql.CompileQuery` | congee/internal/storage/sqlevent/store.go:205-241 | For any order the tag map is ranged over, the conditions and positional arguments accept exactly the rows the filter asks for. |
| `FilterSql.PartsBind` | congee/internal/storage/count_filter.go:24-52 | Binding arguments left to right gives every condition its own arguments. |
| `FilterSql.QueryPartsMean` | congee/internal/storage/sqlevent/store.go:212-240 | The compiled conditions mean the filter, also when compilation stops at an empty value list. |
| `QuerySql.RowsDecide` | congee/internal/storage/sqlevent/store.go:231-239 | What the conditions decide on rows is a property of the stored event. |
| `QuerySql.CompiledIsMatches` | congee/internal/storage/sqlevent/store.go:205-241 | Whatever matches live is found by the query; with no empty value asked for, they are the same. |
| `QuerySql.AgreesExactlyWhen` | congee/internal/nostr/filter.go:151-237 | SQL and live matching agree on every event if and only if no empty tag value is asked for, or the filter can match nothing. |
| `QuerySql.BareTagIsFoundByQueriesOnly` | congee/internal/storage/sqlevent/store.go:119-131 | A one-element tag, stored with value "", is found by a query for "" and by no live filter. |
| `QuerySql.QueryEvents` | congee/internal/storage/sqlevent/store.go:261-297 | The union over the filters, newest first, each row with its own tags. |
| `QuerySql.SelectRows` | congee/internal/storage/sqlevent/store.go:243-258 | One filter selects its rows in order up to a positive limit, and nothing when it has search text. |
| `QuerySql.CountFilterSubQuery` | congee/internal/storage/count_filter.go:13-96 | The text has one WHERE and then ANDs, one argument per placeholder, and accepts exactly the rows the cursor-free filter asks for. |
| `QuerySql.CountEvents` | congee/internal/storage/sqlevent/store.go:335-366 | The number of distinct events some search-free filter accepts, cursors aside; all events when there are no filters. |
| `QuerySql.CountAgreesExactlyWhen` | congee/internal/storage/sqlevent/store.go:335-366 | Count and unlimited query agree in number if and only if, for no filters, nothing is stored, and otherwise every event counted behind a cursor is found by some filter. |
| `QuerySql.CountIsQuerySize` | congee/internal/storage/sqlevent/store.go:335-366 | For cursor-free filters the distinct ids counted are as many as the unlimited query returns. |
| `QuerySql.EmptyListParts` | congee/internal/storage/sqlevent/store.go:336-340 | For cursor-free filters the count is the length of the unlimited query if and only if the list is not empty or nothing is stored. |
| `QuerySql.CursorIsNotCounted` | congee/internal/storage/count_filter.go:13-96 | The count of a filter that carries a cursor is right if and only if the cursor passes everything the rest of the filter accepts. |
| `QuerySql.PagingReadsTheStore` | congee/internal/storage/sqlevent/store.go:243-297 | The read that paging is built on is this query, for every filter. |
| `Tables.GroupTagRows` | congee/internal/storage/tag_batch.go:5-15 | Rows in order become tags in order per event; one undecodable row fails the read. |
| `Tables.GroupInvertsSplit` | congee/internal/storage/tag_batch.go:5-15 | Reading back the rows of events with distinct ids gives each event its tags. |
| `Tables.RowsRoundTrip` | congee/internal/storage/sqlevent/store.go:99-141 | Every stored event survives the split into event and tag rows. |
| `Tables.BothEncodingsRead` | congee/internal/storage/tag_json.go:10-23 | Singly and doubly encoded tag arrays read the same. |
| `EventStore.Store.SaveEvent` | congee/internal/storage/sqlevent/store.go:60-151 | The tables after a save hold what saving means for the stored events; a refused save changes nothing. |
| `EventStore.Store.DeleteEvent` | congee/internal/storage/sqlevent/store.go:322-332 | The event and its tag rows go, nothing else. |
| `EventStore.Store.FindEvent` | congee/internal/storage/sqlevent/store.go:261-297 | A query by id finds exactly the stored event, tags included. |
| `EventStore.Store.MigrationRowCounts` | congee/internal/storage/sqlevent/migration.go:31-46 | Event rows and tag rows are counted. |
| `EventStore.SaveIsJoin` | congee/internal/storage/sqlevent/store.go:60-151 | One save moves a joined store to the join with the new event, and succeeds exactly when the event is new and in that join. |
| `EventStore.WhyRefused` | congee/internal/storage/sqlevent/store.go:60-118 | A save is refused exactly for an ephemeral kind, for a slot holding the same or a better revision, or for a regular event already stored. |
| `EventStore.SavesJoin` | congee/internal/storage/sqlevent/store.go:60-151 | Any sequence of saves leaves the regular events plus one best revision per slot of everything ever offered. |
| `Nip01.SavesKeepNip01` | congee/internal/nostr/kinds.go:15-30 | By kind numbers, pubkeys and tags alone, after any saves into an empty store: of kinds 0, 3 and 10000 to 19999 the best offered event per author and kind is stored and no other; of 30000 to 39999 the same per first d value; none of 20000 to 29999; every offered event of any other kind; and nothing else. |
| `EventStore.OrderDoesNotMatter` | congee/internal/storage/sqlevent/store.go:60-151 | The same events in another order or repeated leave the same store. |
| `EventStore.JoinAbsorbs` | congee/internal/nostr/kinds.go:15-28 | Joining part of the input first changes nothing. |
| `EventStore.OneBestPerSlot` | congee/internal/storage/sqlevent/store.go:69-87 | Every slot that holds an event has exactly one best revision. |
| `EventStore.ColumnsAreSlots` | congee/internal/storage/sqlevent/store.go:69-87 | The columns the statements compare decide slot and age of the stored event. |
| `PostgresStore.Interleavings` | congee/internal/storage/postgres/postgres.go:115-212 | Every interleaving of save and delete transactions leaves what doing them one by one in log order would: the join of what the last removal left and everything saved since, so of everything saved when nothing was removed. |
| `PostgresStore.CommittedIsLogged` | congee/internal/storage/postgres/postgres.go:115-169 | In every interleaving each save that committed is in the log with the event it was begun with: none is lost. |
| `PostgresStore.OutcomesAreLogged` | congee/internal/storage/postgres/postgres.go:120-212 | At the end of every run a commit stores its event, an insert ends early only against a row of its id or a revision in its slot that is no older, a removal takes exactly the rows of its id, and nothing else is logged or changes a row. |
| `PostgresStore.ReplayJoins` | congee/internal/storage/postgres/postgres.go:381-389 | A log of saves and removals keeps one best revision per slot, and leaves the join of what its last removal left and everything saved since. |
| `PostgresStore.CommitIsSave` | congee/internal/storage/postgres/postgres.go:120-167 | Under the slot lock, a commit does to the rows what a serial save would do at that moment. |
| `PostgresStore.RefusalIsSave` | congee/internal/storage/postgres/postgres.go:153-169 | A refused transaction is a refused serial save. |
| `PostgresStore.StepKeeps` | congee/internal/storage/postgres/postgres.go:120-169 | What a save or a removal found stays true until it ends, whatever others do. |
| `Migrator.ScanPage` | congee/internal/storage/migration_snapshot.go:35-76 | The next 500 rows past the last position, in order, with their tags. |
| `Migrator.PageContinues` | congee/internal/storage/migration_snapshot.go:39-46 | What is past the last row visited is exactly what has not been visited. |
| `Migrator.CopyEvent` | congee/internal/storage/migrator.go:77-124 | Skip what is there, save what is not, count a stale save as skipped, read back what was accepted. |
| `Migrator.Migrate` | congee/internal/storage/migrator.go:20-141 | The destination, the error and every total of the summary are those of copying the source in scan order, each row once. |
| `Migrator.CopyJoins` | congee/internal/storage/migrator.go:77-128 | From a joined destination the copy succeeds exactly when no source event is ephemeral, leaves the join of both, and inserted + skipped is the source count. |
| `Migrator.CopyReports` | congee/internal/storage/migrator.go:77-128 | From a joined source into a joined destination the copy counts as inserted exactly the events new in the destination, as skipped the others, and as tags added the tag rows of the new ones. |
| `Migrator.SecondRunInsertsNothing` | congee/internal/storage/migrator.go:83-106 | Copying events already joined in saves none of them again. |
| `Migrator.MigrateTwice` | congee/internal/storage/migrator.go:20-141 | Into a joined destination: a migration leaves the join of source and destination, and from a joined source it reports as inserted the events new there, as skipped the others, as tags added the tag rows of the new ones; the same migration again inserts nothing. |
| `Migrator.TagRowsCounted` | congee/internal/storage/migration_snapshot.go:26-33 | The tag rows in the table are as many as the tags the events carry. |
| `SearchIndex.OpAgrees` | congee/internal/storage/sqlevent/migrations.go:359-375 | In step, exactly the inserts, updates and deletes the event keys allow succeed, changing just the row they name, and the rowid map stays a bijection with equal content. |
| `SearchIndex.WritesAgree` | congee/internal/storage/sqlevent/migrations.go:359-375 | Any sequence of writes keeps events, rowid map and FTS rows in step. |
| `SearchIndex.V7AgreesExactlyWhen` | congee/internal/storage/sqlevent/migrations.go:290-335 | The last migration puts the index in step if and only if the FTS table held each event once with its content, or was missing. |
| `SearchIndex.ChainFromV1Agrees` | congee/internal/storage/sqlevent/migrations.go:129-162 | The chain from version 1 puts the index in step whatever an interrupted run left behind. |
| `SearchIndex.ChainFromLaterAgreesExactlyWhen` | congee/internal/storage/sqlevent/migrations.go:22-85 | From versions 2 to 7 the chain puts the index in step exactly under the same condition, fails exactly when an id is in the index twice, and changes no event. |
| `SearchIndex.DeleteWithoutMappingStrands` | congee/internal/storage/sqlevent/migrations.go:371-374 | Deleting an event without a mapping leaves its FTS row behind. |
| `SearchIndex.SearchDb.Write` | congee/internal/storage/sqlevent/migrations.go:359-375 | A row write and its trigger succeed or fail together. |
| `SearchIndex.SearchDb.RunMigrations` | congee/internal/storage/sqlevent/migrations.go:22-85 | Whatever version the file carries, the loop ends at version 8 with the migrated tables, or reports the failed step or the refused version. |
| `Limiter.SlidingEvents.Allow` | congee/internal/relay/limiter.go:23-38 | The trimmed stamps, and admission when fewer than the maximum remain. |
| `Limiter.RefusedExactlyWhenFull` | congee/internal/relay/limiter.go:23-38 | A call is refused if and only if the maximum number of admissions lies in the closed window ending now. |
| `Limiter.AdmissionsSpread` | congee/internal/relay/limiter.go:12-38 | Any max+1 consecutive admissions span more than the window. |
| `Limiter.ByteWindow.Allow` | congee/internal/relay/limiter.go:55-80 | Non-positive sizes pass unrecorded; others are admitted while the trimmed sum stays within the cap. |
| `Limiter.BytesRefusedExactlyWhenFull` | congee/internal/relay/limiter.go:55-80 | Bytes are refused exactly when they would overflow what the closed window ending now already admitted. |
| `Limiter.BytesStayCapped` | congee/internal/relay/limiter.go:41-80 | No closed window, wherever it starts, ever holds more admitted bytes than the cap. |
| `Limiter.IpWindowSet.Allow` | congee/internal/relay/limiter.go:107-138 | Evicts at most 64 expired entries from the front, answers, and moves the address to the back, keeping the list in order of last use. |
| `Limiter.EvictionIsInvisible` | congee/internal/relay/limiter.go:83-138 | On every call of every run the evicting limiter answers as an unbounded map of windows; what it dropped had no stamp left in the window. |
| `Limiter.EvictAgrees` | congee/internal/relay/limiter.go:112-124 | Evicting from the front only drops windows whose stamps have all expired. |
| `NegSessions.SessionMap.Reserve` | congee/internal/relay/neg_sessions.go:47-69 | Closes the previous session of the id, takes a slot if one is left, and keeps counter minus sessions constant. |
| `NegSessions.SessionMap.RemoveIf` | congee/internal/relay/neg_sessions.go:110-120 | Only the very session given is removed, and its slot given back. |
| `NegSessions.SessionMap.Remove` | congee/internal/relay/neg_sessions.go:95-104 | Removes the session of an id and gives its slot back. |
| `NegSessions.SessionMap.CloseAll` | congee/internal/relay/neg_sessions.go:35-43 | Every session is closed, every slot given back, and the map stays empty for good. |
| `NegSessions.SessionMap.Close` | congee/internal/relay/neg_sessions.go:71-79 | A slot is given back at most once. |
| `NegProtocol.SlotsAreConserved` | congee/internal/relay/neg_sessions.go:35-120 | In every reachable state the counter is the number of sessions held anywhere, within the cap; each reservation was given back exactly once if its session is gone; load slots are conserved. |
| `NegProtocol.StaleIsNeverAnswered` | congee/internal/relay/nip77.go:145-269 | A replaced or closed session is never answered by its open job, whatever happens afterwards. |
| `NegAnswers.HeldIsServed` | congee/internal/relay/nip77.go:134-269 | In every run an open job answers its session at most once; a session answered with an error is no longer held; every session held has its open job ahead or was sent its message and has its reconciliation in place. |
| `NegAnswers.StepAnswers` | congee/internal/relay/nip77.go:134-257 | In every reachable state: a slot is given exactly below the cap; a refused load or a failure sends one error and ends the session; a reply sent keeps it exactly when the reconciliation goes on; a load slot is taken exactly when one is left. |
| `NegProtocol.StaleStepsTouchNothing` | congee/internal/relay/nip77.go:155-168 | No step taken for a stale session changes a session, the counter or what was sent. |
| `NegProtocol.StaleStaysStale` | congee/internal/relay/neg_sessions.go:106-120 | A session out of the map never comes back into it. |
| `NegProtocol.StepKeeps` | congee/internal/relay/nip77.go:110-269 | Every step of handlers, load worker, timers and teardown keeps the accounting. |
| `NegVisibility.VisibleNegSyncItems` | congee/internal/relay/nip77.go:273-325 | Exactly the in-order items that pass against the store as their batch found it, each under what metadata and memberships said when its group was first asked about; all of them when groups are off. |
| `NegVisibility.NothingClosedIsDisclosed` | congee/internal/relay/nip77.go:273-325 | Every id in the answer is of a stored event that names no group, or one that was open by the time the item came up: no relay key, or metadata that was read and is missing, public, or private with a member on the connection. |
| `NegVisibility.CheckItem` | congee/internal/relay/nip77.go:300-321 | One item with the group cache is decided by the policy its group had when first asked about, and the cache stays exactly that. |
| `NegVisibility.SteadyPolicyChecksEach` | congee/internal/relay/nip77.go:279-323 | While metadata and memberships do not change, an item passes exactly when the check on the spot would let it. |
| `NegVisibility.CacheIsCurrentExactlyWhen` | congee/internal/relay/nip77.go:312-318 | The cached answer is that of a check on the spot if and only if the group is as visible as when it was first asked about. |
| `NegVisibility.AdmittedByGroup` | congee/internal/relay/nip77.go:88-108 | An admitted filter matches no gift wrap, so visibility depends only on the group. |
| `NegVisibility.GiftWrapsBreakTheCache` | congee/internal/relay/nip77.go:98-103 | Without that rule two events of one group can differ in visibility. |
| `NegVisibility.EventVisibleToSubscription` | congee/internal/relay/nip29.go:329-388 | The decision on one event: group tags, gift wraps, unreadable metadata withholds, private groups need a member. |
| `NegVisibility.VisibleExactlyWhen` | congee/internal/relay/nip29.go:329-388 | With groups on and a relay key: an event of one group, gift wraps aside, may be read exactly when the metadata was read and the group is missing, public, or private with a member among the live connection's keys; one of no group always; one of two groups never. |
| `NegVisibility.AdmittedExactlyWhen` | congee/internal/relay/nip77.go:88-108 | A filter may open a reconciliation exactly when it has kinds, none of them a gift wrap, no search text and no limit, and the connection has authenticated where that is asked for. |
| `NegVisibility.GroupHTagsValid` | congee/internal/nostr/nip29.go:21-36 | True exactly when at most one non-empty group is named. |
| `NegVisibility.GroupHTag` | congee/internal/nostr/nip29.go:39-49 | The first non-empty group named. |
| `WriterQueue.WriterIsSafe` | congee/internal/storage/sqlitewriter/writer.go:208-433 | In every run bodies never overlap and run on an unclosed handle, in queue order; a first start comes right after a healthy ping or a reopening, a second right after a reconnectable failure and a reopening, and there is no third; every task taken or drained has exactly one value, a timed out one while its body still runs. |
| `WriterQueue.EveryValueIsDue` | congee/internal/storage/sqlitewriter/writer.go:278-433 | In every run each value is due: it is what an attempt of its own body said, which the log shows starting and ending so, or a cancellation, a failed reopen, a failed start, a timeout, a panic or the closing of the store that happened to that task. |
| `WriterQueue.RetryIsMade` | congee/internal/storage/sqlitewriter/writer.go:333-367 | In every run a heard first attempt that failed with a reconnectable error, its caller alive, is followed by the second attempt, and the caller is told what that one said. |
| `WriterQueue.ClosingFindsNoBody` | congee/internal/storage/sqlitewriter/writer.go:461-491 | Reconnect and close never take a handle from under a running body. |
| `WriterQueue.StepKeeps` | congee/internal/storage/sqlitewriter/writer.go:258-433 | Every step of callers, worker, body and closer keeps those facts. |
| `WriterQueue.ValuesKept` | congee/internal/storage/sqlitewriter/writer.go:278-299 | A step gives a value to the task it notifies or drains, and to no other. |
| `Products.Scope2State.Seed` | scope2.go:280-296 | Whatever order the base query yields, the projection is that of one fixed replay. |
| `Products.SeedReflects` | scope2.go:280-314 | After seeding each address holds its newest then lowest-id revision, tombstoned exactly when a deletion no older than it names its id or address. |
| `Products.TombstonesLast` | scope2.go:325-395 | On any online run a tombstoned revision stays tombstoned until a strictly better one replaces it. |
| `Products.OnlineReflects` | scope2.go:316-395 | After seeding and any arrivals and reports, each address holds the winner of everything offered, tombstoned exactly when seeding buried it or an input did once it was there: a deletion naming its id, one no older naming its address, or the report of its deletion. |
| `Products.RunHoldsNewest` | scope2.go:316-338 | Whatever was seeded and arrived since: for each product on offer, told apart by kind, author and non-empty d value, or by id, the newest then lowest-id revision is held, at one place, and nothing else is. |
| `Products.SameAddressExactlyWhen` | scope2.go:478-483 | Two events share an address if and only if they agree in kind, author and non-empty d value, or have the same id and no d value. |
| `Products.OneTagDeletes` | scope2.go:340-376 | A one-tag deletion buries a lone product if and only if an e tag reads as its id, or an a tag as its address and the product is no newer. |
| `Products.OnlineAgreesExactlyWhen` | scope2.go:280-395 | A run leaves what a fresh seeding from everything offered leaves if and only if every winner was buried since it was there exactly when some deletion no older than it names it. |
| `Products.PunctualRunsAgree` | scope2.go:280-395 | They agree when each deletion seeding would honour arrives after its product and no deletion names the id of a newer product that is there. |
| `Products.ArrivalOrderMatters` | scope2.go:340-376 | Seeding buries a product its deletion names; online, the deletion arriving first does not. |
| `Products.OldDeletionsBuryById` | scope2.go:340-376 | Online, a deletion older than the product whose id it names buries it, for ids have no time guard; seeding does not. |
| `Products.RunsStayDistinct` | scope2.go:280-395 | Whatever was seeded and arrived since, the projection holds each event id at one address only. |
| `Products.RepeatsAside` | scope2.go:285-296 | Rows the base query yields more than once are sorted side by side, and replaying them again changes nothing. |
| `Products.ProductReflects` | scope2.go:325-338 | Replaying the next product keeps winners and tombstones right. |
| `Products.DeletionReflects` | scope2.go:340-376 | Replaying the next deletion buries exactly the winners it names. |
| `Products.Scope2State.UpsertProduct` | scope2.go:325-338 | The revision replaces the current one only when it beats it, and is not tombstoned. |
| `Products.Scope2State.ApplyDeleteEvent` | scope2.go:340-376 | Every tag in turn: ids bury their revision, addresses their revision if it is no newer, the rest is skipped. |
| `Products.Scope2State.ApplyDeletedEvent` | scope2.go:378-395 | Only the very revision the store deleted is tombstoned. |
| `Browse.CompareIsTotal` | scope2.go:549-599 | The comparison is antisymmetric exactly on items where no NaN stands against a price; among such items it is transitive, and zero only on equal ids. |
| `Browse.ComparisonOrdersExactlyWhen` | scope2.go:549-599 | The comparison orders every two different items of a set if and only if, in a price sort, a NaN price is the only price; it puts no item before itself unless the sort is by falling price over a NaN. |
| `Browse.SortItems` | scope2.go:409-411 | Sorting returns the items, each once, and in order when the comparison orders them, whatever order they were ranged in. |
| `Browse.ListingFollowsMode` | scope2.go:549-585 | A listing goes the way its mode says, with unpriced products after priced ones, and breaks ties by later update, later creation, then lower id; in a price sort when no NaN stands against another price. |
| `Browse.ListingHolds` | scope2.go:428-451 | A listing holds only products not tombstoned that match the filter and have the text in them, and outside price sorts all of them. |
| `Browse.Evaluate` | scope2.go:397-426 | On the projection any run left, the page is a slice of a listing of the query, or blocked by the price policy. |
| `Browse.ListingIsUniqueExactlyWhen` | scope2.go:397-451 | Whatever was seeded and arrived since, a query has one listing, whatever order the map was ranged over, if and only if it is blocked or sorts no NaN price against another price; no listing names an event id twice. |
| `Browse.TimeSortsAreSettled` | scope2.go:571-583 | Sorts by time always have one listing, whatever the prices say. |
| `Browse.NaNFollowsTheRange` | scope2.go:555-570 | A NaN beside one other price is sorted by the order the map was ranged in, in both price modes, and pages of one can miss the second product. |
| `Browse.EvaluatePricePolicy` | scope2.go:501-537 | Mixed currencies are blocked, or narrowed to the largest cohort with the smallest name. |
| `Browse.OneCurrencyPerListing` | scope2.go:501-547 | Unless mixed sorting is allowed, priced products of a price-sorted listing share one currency. |
| `Browse.ChainedPagesAreTheListing` | scope2.go:701-729 | Whatever was seeded and arrived before: unless a NaN price is sorted against another price, following cursors from the start, each page sorted anew, concatenates to the whole listing, each product once. |
| `Browse.MatchProducts` | scope2.go:428-451 | The live products whose event and text match. |
| `Browse.FindCursorStart` | scope2.go:701-719 | The position after the item the cursor names; the start when it is unreadable or names none. |
| `Backfill.RelaySyncer.Run` | sync.go:154-207 | The loop ends whatever the fetches report, with exactly the accepted windows, and the watermark they lead to; the first starts at the configured start when no watermark is persisted, and at the later of the two otherwise. |
| `Backfill.EverySecondOnce` | sync.go:241-256 | Every whole second from the start to where the requests got is in exactly one accepted request, and no other second is. |
| `Backfill.ReachesTheEnd` | sync.go:166-203 | If no fetch and no write fails, the requests reach the end. |
| `Backfill.WatermarkIsHonest` | sync.go:354-362 | The watermark never goes back, passes no second from the run's start on that was not requested, and when it moves it is the second the last window reached. |
| `Backfill.RetriedWereFull` | sync.go:179-197 | A fetch passed over between accepted ones came back full: no window is halved for another reason. |
| `Backfill.NothingSkippedExactlyWhen` | sync.go:337-352 | Past a persisted watermark nothing is skipped if and only if the configured start is not in a later second than it. |
| `Backfill.NothingMissedExactlyWhen` | sync.go:241-256 | Every event the relays hold in the seconds a run covered was sent to an accepted fetch if and only if no relay holds more than the limit in an accepted window. |
| `Backfill.NewEventsAreNotMissed` | sync.go:179-197 | When nothing sent was a duplicate or refused, and no relay holds more than the limit in one second, nothing is missed. |
| `Backfill.RetryHidesTruncation` | sync.go:184-197 | A full window fetched again at half its span sends duplicates, so the truncated half is accepted and the watermark passes an event never sent. |
| `Backfill.RelaySyncer.AdvanceState` | sync.go:354-362 | The watermark rises to the whole second reached, even when the write fails. |
| `Admission.AdmissionIsExact` | congee/internal/relay/relay.go:347-417 | On every path of every run the open count and per-IP counts are the live reservations within their caps; after the shutdown ranged over the registry every connection was or is about to be told to stop; when it returned nil none is left. |
| `Admission.AdmittedExactlyWhen` | congee/internal/relay/relay.go:347-418 | On every run a request is turned away for the caps exactly when the live reservations fill the relay or its address, and otherwise only by the rate limit, the shutdown flag or a failed upgrade. |
| `Admission.GoroutinesEnd` | congee/internal/relay/relay.go:439-572 | On every run a goroutine ends after 13 steps of its own at the latest, holding nothing. |
| `Admission.StepKeeps` | congee/internal/relay/relay.go:439-572 | Every step of accept, teardown and shutdown keeps those facts. |
| `Admission.OpenKept` | congee/internal/relay/relay.go:594-604 | The atomic counter moves with the goroutine that owns the reservation. |
| `Admission.ToldKept` | congee/internal/relay/relay.go:518-532 | A connection registered during shutdown tells itself to stop. |
| `Admission.RegistryKept` | congee/internal/relay/relay.go:518-532 | No registration replaces another connection's entry. |
| `Admission.IpConnTracker.TryAcquire` | congee/internal/relay/ip_conn_tracker.go:17-27 | Takes a slot of the address below its maximum and returns the count. |
| `Admission.IpConnTracker.Release` | congee/internal/relay/ip_conn_tracker.go:30-39 | Gives one slot back; an address at zero is forgotten. |

## Left out

- WebSocket framing, HTTP routing, signatures, hashing, JSON and hex codecs, configuration, logging, metrics and the admin API: plumbing around the modelled state.
- Plugin answers to REQ and EVENT, NIP-17 and NIP-42 checks before a subscription is added: one-branch refusals that send a frame and change no state modelled here.
- `SearchEvents` ranking, the negentropy algorithm and the SQL engines: their answers are arbitrary inputs, tables are sets and maps, statements and transactions are atomic or lock-serialised steps.
- handleCLOSE: it sends CLOSED before removing the entry, so a client CLOSE is modelled as the removal alone and its frame is not in the log.
- handleREQ reads the generation in a second locked section after adding the subscription: modelled as one step, because one connection's messages are handled one after the other.
- handleEVENT acknowledges an exact replay without saving or broadcasting it again: that changes nothing, so it is no step; a save may remove any stored events, which covers replacement and deletion.
- FinishSnapshot and the other exported audit helpers: no production path of the protocol calls them.
- How visibility is decided during a REQ run: the set of readable ids changes by a step of its own.
- ReqProtocol.FramesInOrder: says nothing of bytes on the wire or of frames still in a connection's send buffer, because the sender is an opaque success or failure.
- Filter cursors are not part of the wire format: every filter that opens a subscription has none.
- Limiter.EvictionIsInvisible: takes one maximum per address set for the whole run, because a kept window keeps the maximum it was created with and the source passes it from a fixed configuration.
- Nil tags and empty tags are one value, so the deep comparison in the migration does not tell them apart.
- Migrator.Migrate: no concurrent writer on the destination and no cancellation; a cancelled scan stops between two events like any other failure.
- NegVisibility.VisibleNegSyncItems: a cancelled context ends the pass with an error and no answer.
- NEG-MSG reconciliation rounds: only their removals are modelled, as removals of any session by its identity at any time.
- WriterQueue tasks enqueued after the drain stay in the queue: their callers return through the closed base context, which is not part of the model.
- PostgresStore.Interleavings: tag rows, which go and come with their event, and deadlocks, which PostgreSQL ends by aborting one side, are not steps of their own.
- SearchIndex: the layout validation of version 8 and the tokenizer are not modelled.
- Price text is parsed without rounding, to a real, an infinity or NaN; text matching takes the already lowered and trimmed needle, and the structural filter match of the legacy relay is an opaque predicate.
- Products: the address codec, the hex codec and the extraction of prices and titles are functions on strings.
- Backfill: live streaming beside it; relays are taken to send as many of the events asked for as they hold and the limit allows.
- Admission: waiting for HTTP handlers in `http.Shutdown`, stopping the queues and flushing metrics between telling connections and waiting for them.
- Real time and goroutine scheduling fairness: nothing is claimed about when a step happens.
