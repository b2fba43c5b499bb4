# Inventory service: a verified model

The service sells products out of a PostgreSQL table. A checkout is a transaction on that table; reads go through
Redis; product writes are announced on Kafka, from where a worker keeps an Elasticsearch index; finished checkouts
are announced to an invoice topic. The project models these stores and the code between them, and proves in which
precise sense they agree.

| file | what it holds |
|---|---|
| `models.dfy`, `tables.dfy` | value types and integer widths; the tables, each SQL statement, and the serial specification with its history functions |
| `store.dfy`, `store_safety.dfy`, `store_history.dfy`, `store_theorems.dfy`, `store_progress.dfy`, `store_alone.dfy` | concurrent checkouts and product writes, one statement at a time, with row locks, rollbacks, lost connections and lost acknowledgements; what every schedule keeps |
| `keys.dfy`, `query.dfy`, `cache.dfy`, `cache_safety.dfy`, `cache_coherence.dfy` | the key strings, the list query, and cache-aside reads interleaved with the concurrent store |
| `projection.dfy`, `worker.dfy`, `consumer.dfy`, `search.dfy`, `search_exact.dfy` | the event log, partitions, offsets, restarts and the index; the worker's loop; the whole path from the concurrent store to the index |
| `repository.dfy`, `handlers.dfy` | the repository and the handlers as classes, statement by statement, one request at a time |
| `breaker.dfy`, `ratelimit.dfy`, `invoice_queue.dfy` | the circuit breaker with its float64 trip rule, the per-IP limiter, the retrying invoice list |

Concurrency is modelled by state machines over single steps; a theorem about them speaks of every schedule of any
number of processes. The classes hold the code of one request; their contracts are stated with the same statement
functions and the same serial specification the machines use, and `StoreAlone.CheckoutAloneIsSerial` and
`Consumer.LoopIsTakes` connect the two forms. When an operation succeeds and what it leaves is also stated without
those functions, in ids, stocks, widths and times.

## The environment

What is assumed of the libraries, and nothing else:

* PostgreSQL at its default level (section 13.2.1, "Read Committed", of its manual): a statement sees committed rows;
  an UPDATE or DELETE of a row with an open writer waits and then judges the newest committed row; a transaction's
  writes become visible at its commit; column widths and foreign keys are enforced.
* Redis keeps what was set until it expires or is dropped, and may lose anything earlier.
* Kafka appends a sent message at most once, to the partition its key selects; a failed send appends nothing; a
  restarted consumer resumes at the offset committed last.
* Elasticsearch replaces or deletes the document of an id; in `Consumer` any call may fail, with or without effect.
* gobreaker's three states, generations and half-open limit are written out in `breaker.dfy`, the token bucket in
  `ratelimit.dfy` over exact arithmetic; of float64 rounding only monotonicity
  and, between 2^-33 and 2^32, the relative error bound are used.

## What does not hold, and what holds instead

* The cache is not equal to the table: `Checkout` drops no key, and no read ever fills `products:all`, the key every
  write drops; and a reader that is slow to fill puts back what a write has just dropped
  (`CacheCoherence.SlowFillPutsBack`, a run in which no call fails). What holds is a drift by exactly the units sold:
  between drops along every run with timely fills (`CacheCoherence.CacheDriftsBetweenDrops`), and under every
  interleaving exactly as `CacheSafety.EntryDriftsExactly` says; and always a bound on staleness. A drop that fails
  leaves a wrong entry unless the write repeated the row (`Repository.EditKeepsDriftExactly`,
  `Repository.FailedDropLeavesWrongEntry`).
* The index is not equal to the table either: checkouts emit no product event. What holds is the drift equation of
  `Search.ProjectionDrift`, whose hypotheses on product writes the code does not enforce: an update of a missing row
  is announced (`SearchExact.MissingUpdateDiffers`), overlapping updates may be announced in the other order
  (`SearchExact.ReversedAnnouncementsDiffer`), and lost sends are logged and forgotten. Without any of the hypotheses
  the equation holds exactly if the last announcer and the last writer of the product have the same to say
  (`SearchExact.LastAnnouncerMustAgree`).
* A failed Elasticsearch call is marked as handled like any other (`Consumer.FailedCallLeavesOldDocument`). It is
  delivered again only if the worker restarts before the mark is committed; `Consumer.FailuresShowExactly`,
  `Consumer.RestartRepairsExactly` and `Consumer.CommittedFailureStays` say exactly when the document is right.
* A failed checkout leaves no trace, except when the acknowledgement of its commit was lost
  (`StoreTheorems.FailureLeavesNoTrace`); then it has sold and says it has not (`StoreTheorems.LostAckSells`).
* The search box is documented as a search by name; the text is not escaped. Over names of 3 to 100 characters, which
  the validator and the column allow, it is a substring search exactly for texts without `%`, `_` and `\`, and for
  those that need more than 100 characters to match (`Query.SearchIsSubstringExactly`).
* `Stock` carries `gte=0` but also `required`, which refuses zero; the model follows the validator, so no write sets a
  stock of zero; only sales reach it.
* The comments in `pkg/resiliency/breaker.go` speak of ten seconds and of at least five requests; the code says sixty
  seconds and three. The model follows the code.
* `cmd/worker/main.go:121-123` processes an invoice task only when it does not decode; the model has such messages
  marked and nothing else.

## Model

| member | source | states |
|---|---|---|
| `Tables.SaleExactly` | repository/product_repo.go:216-245 | a sale takes place if and only if user and product exist, the stock suffices down to the last unit, and quantity, remaining stock and total fit 32 bits; it lowers the stock by the quantity and adds one transaction of the exact total |
| `Tables.WriteExactly` | repository/product_repo.go:133-190 | when a create, update or delete changes the tables, in terms of ids, widths and references, and to what |
| `Tables.ReplayKeepsWellTyped` | db/migrations/000002_create_transactions_table.up.sql:1-10 | column widths and both foreign keys survive any serial history of checkouts and product writes |
| `Tables.ReplayConserves` | repository/product_repo.go:216-220 | after any serial history a row exists exactly if its last write was no delete, keeps that write's name and price, and its stock plus the units sold since is that write's stock |
| `Tables.ReplayNeverOversells` | repository/product_repo.go:216-220 | a product whose last written stock is not negative never gets a negative stock |
| `Tables.OnlySoldDrifts` | repository/product_repo.go:216-220 | a product that was only sold since a version is that version's row less exactly what was sold |
| `Tables.VersionDriftsExactly` | repository/product_repo.go:133-220 | a version's row is the current one up to sales if and only if the last write of the product since that version, if there is one, put that row back less what was sold up to it |
| `StoreSafety.TotalExact` | repository/product_repo.go:232-232 | once the guarded UPDATE succeeded, the 64-bit product of price and quantity is exact |
| `StoreSafety.SettleIsSerial` | repository/product_repo.go:234-245 | committing a transaction that still owns its row is the serial checkout on the tables as they are at the commit, not as they were at the UPDATE |
| `StoreSafety.PerformKeepsHolder` | repository/product_repo.go:161-166 | a product write that was granted its row leaves every open checkout's reservation valid |
| `StoreSafety.RunKeepsInv` | repository/product_repo.go:208-245 | in every reachable state every lock has one open holder, every holder's written row is what its UPDATE would still write, and the tables are the replay of the history |
| `StoreHistory.StepAdvances` | repository/product_repo.go:208-264 | a step of any process either leaves tables and history alone or appends the effect of that process alone |
| `StoreHistory.RunKeepsHist` | repository/product_repo.go:208-264 | authorship, exact charges, the transactions table, the invoice log and the reasons of refusals stay consistent with the history in every reachable state |
| `StoreTheorems.SerialRefinement` | repository/product_repo.go:208-245 | every interleaving leaves the tables of running the committed operations one at a time in commit order, and a process is in that order, once, exactly if it had an effect |
| `StoreTheorems.FailureLeavesNoTrace` | repository/product_repo.go:214-245 | a process that reported an error is in the history exactly if the schedule lost the acknowledgement of its commit (and a product write hit a row), never in the invoice log, and holds no lock |
| `StoreTheorems.SuccessIsInHistory` | repository/product_repo.go:133-264 | a process that ended without reporting an error is in the history, unless it is an update or delete that found no row |
| `StoreTheorems.LostAckSells` | repository/product_repo.go:243-245 | from every initial state in which a checkout can succeed there is a schedule in which it sells and reports an error |
| `StoreTheorems.RefusalIsJustified` | repository/product_repo.go:216-228 | a stock refusal names a committed version of the tables in which the product is missing or short |
| `StoreTheorems.ChargesAreExact` | repository/product_repo.go:232-241 | every committed transaction has its buyer's user, product and quantity, and a total of exactly quantity times the price committed at that point, within 32 bits |
| `StoreTheorems.OversizedTotalIsUndone` | repository/product_repo.go:234-241 | a total beyond the INT column makes the INSERT fail, and nothing but a rollback that restores the stock and frees the row can follow |
| `StoreTheorems.SoldProductsStay` | db/migrations/000002_create_transactions_table.up.sql:8-9 | under every schedule each transaction's product and user exist, so a product that was sold is never deleted |
| `StoreAlone.CheckoutAloneIsSerial` | repository/product_repo.go:208-264 | whatever steps a lone checkout takes, once finished it leaves the tables of the serial specification, or the old ones when that refuses or the connection was lost before the commit, and has sent at most one invoice, of the exact total, only after its commit |
| `StoreAlone.CheckoutAloneFinishes` | repository/product_repo.go:208-264 | a lone checkout whose row is free can finish without any failure of the environment |
| `StoreAlone.LoneBuyerSettlesExactly` | repository/product_repo.go:208-245 | a finished lone checkout that was not disconnected has sold if and only if user and product existed, the stock sufficed and quantity, remaining stock and total fit 32 bits |
| `StoreAlone.LoneBuyerSells` | repository/product_repo.go:208-264 | under that condition it can sell: the stock falls by the quantity, one transaction and one invoice of the exact total are added |
| `StoreAlone.LoneWriteTakesEffect` | repository/product_repo.go:133-206 | a lone create that fits its columns, update of an existing row, or delete of a row that was never sold changes exactly that row and is announced |
| `StoreTheorems.StockConserved` | repository/product_repo.go:216-220 | under every schedule of validated requests, from any initial non-negative stock: stock is conserved since the last write, never negative, and zero only if units were sold or the row is still the initial one |
| `StoreTheorems.InvoicesMatchTransactions` | repository/product_repo.go:247-261 | the invoice log maps injectively into the committed transactions with equal fields, and a transaction is missing exactly if its send is outstanding, failed, or was never reached |
| `StoreProgress.RunIsBounded` | repository/product_repo.go:208-264 | every schedule ends: its length is bounded by the steps its processes had at the start |
| `StoreProgress.NobodyIsStuck` | repository/product_repo.go:209-245 | no deadlock: an unfinished process can move, or holds nothing and waits for one row whose holder can move |
| `StoreProgress.EveryoneCanFinish` | repository/product_repo.go:209-264 | from every such state all processes can be brought to their end without any failure of the environment |
| `Keys.DecIsDecimal` | repository/product_repo.go:152-152 | the id is written in decimal: digits without leading zeros that denote it, after a minus if it is negative |
| `Keys.DecInjective` | repository/product_repo.go:152-152 | the decimal form of an id determines the id |
| `Keys.ProductKeyInjective` | repository/product_repo.go:110-110 | different products have different cache keys |
| `Keys.ListKeyInjective` | repository/product_repo.go:42-42 | the list key determines page, limit and search text, whatever the text contains |
| `Keys.KeyFamiliesDisjoint` | repository/product_repo.go:142-142 | product keys, list keys and `products:all` never meet |
| `Query.ProductFilter.GetOffset` | models/product.go:16-24 | normalises page and limit in place and returns (page - 1) * limit of the normalised values, wrapped to 64 bits |
| `Query.SameInAnyCase` | repository/product_repo.go:58-58 | two characters match in any case if and only if they are equal or the two cases of one ASCII letter |
| `Query.PercentIsAnyText` | repository/product_repo.go:58-59 | a percent sign in the pattern matches any text at its place |
| `Query.UnderscoreIsAnyCharacter` | repository/product_repo.go:58-59 | an underscore matches any one character, any other unquoted character itself in any case |
| `Query.SearchIsSubstringExactly` | repository/product_repo.go:57-61 | over names of 3 to 100 characters the ILIKE filter is case-insensitive substring search exactly if the search text has no wildcard or escape character or needs more than 100 characters to match |
| `Query.FilterIsRight` | repository/product_repo.go:57-65 | filtering, dropping and taking leaves rows that pass, once and in order, each the one with the right number of passing rows before it, as many as there are for the page |
| `Query.PageIsRightList` | repository/product_repo.go:52-82 | every page of the table, in any row order, lists only rows whose name fits the search, none twice, and all of them when it has room for the table |
| `Query.BuildQuery` | repository/product_repo.go:52-65 | the built clauses with the built argument list evaluate, for every row order, to the right page of the rows that fit, or to an SQL error exactly for a negative limit or offset; limit and offset arguments are given as numbers |
| `Query.PagesTile` | repository/product_repo.go:63-82 | for a fixed row order and no overflow, pages 1 to n one after another are the first n * limit matches |
| `CacheSafety.KeyOfInjective` | repository/product_repo.go:42-110 | two different reads never share a cache entry |
| `CacheSafety.NextKeepsInv` | repository/product_repo.go:108-206 | every single step of readers, writers, checkouts, expiry and time keeps all entries and answers genuine |
| `CacheSafety.AnswersAreRight` | repository/product_repo.go:39-131 | what the database answers to a read: the row's product, or a right list of the rows in some order |
| `CacheSafety.FilledIsHit` | repository/product_repo.go:103-128 | after a fill the same read is a hit with that value until ten minutes have passed for a product and five for a list, and not after |
| `CacheSafety.StalenessIsBounded` | repository/product_repo.go:42-131 | a cache hit is the database's answer to the same read from a version committed at a time later than now minus the lifetime (10 or 5 minutes) minus the delay between read and fill |
| `CacheSafety.EntriesAreHistory` | repository/product_repo.go:98-131 | every product entry is a row version committed earlier, every list entry a page of one committed table state for that same filter |
| `CacheSafety.EntryDriftsBySales` | repository/product_repo.go:108-206 | under every interleaving, an entry whose product was only sold since its version has the row's name and price and exceeds its stock by exactly the units sold |
| `CacheSafety.EntryDriftsExactly` | repository/product_repo.go:108-206 | under every interleaving, with no hypothesis on fills and drops: an entry shows the row of its version, and has that drift if and only if the last create, update or delete committed since, if there is one, put the row back less what was sold up to that write |
| `CacheCoherence.TimelyRunKeepsCoherent` | repository/product_repo.go:108-206 | along runs with timely fills an entry was read before an update or delete of its product only while that write still owes its drop |
| `CacheCoherence.CacheDriftsBetweenDrops` | repository/product_repo.go:108-206 | along every run with timely fills and successful drops, whenever no such drop is owed, a cached product has its row, with the same name and price and a stock higher by exactly the units sold since it was read |
| `CacheCoherence.SlowFillPutsBack` | repository/product_repo.go:113-169 | a run without any failure in which a reader fills after an update's drop: the cache then holds the old row, and no drop is owed any more |
| `CacheCoherence.PutBackDrifts` | repository/product_repo.go:113-169 | there the drift equation fails unless the update wrote the row as it was |
| `CacheSafety.StockSurvivesNarrowing` | handler/grpc_handler.go:29-33 | the conversions to int32 lose nothing on any product that can be in the cache |
| `CacheSafety.AnswerSurvivesNarrowing` | handler/grpc_handler.go:18-33 | nor on any product that a read by id returns, from the cache or from the table |
| `Projection.FoldShows` | cmd/worker/main.go:157-203 | one pass over a log leaves for each id the document of its last create or update, or none after a delete |
| `Projection.PartitionConfluence` | pkg/stream/producer.go:35-39 | every delivery that keeps the order within each partition of the decimal ids ends in the index of the send order |
| `Worker.TakeShows` | cmd/worker/main.go:113-139 | taking a message, new or repeated, leaves a product's document equal to that after some prefix between position and furthest place |
| `Worker.OffsetsAreSafe` | cmd/worker/main.go:113-139 | below the committed offset every message was worked off and marked or is a product event that does not parse; the mark is one past the last message below the position that is not such an event, of whatever topic |
| `Worker.FlushedIsNotRepeated` | cmd/worker/main.go:113-139 | a flush commits the mark and a restart resumes there, so a whole partition that was taken and flushed is not repeated |
| `Worker.ReplayConverges` | cmd/worker/main.go:113-139 | after any number of restarts, back at the furthest place in every partition, the index is that of one single pass |
| `Worker.AuditIsComplete` | cmd/worker/main.go:205-223 | the audit index holds, counted with repetition, at least one entry per well-formed product event seen |
| `Consumer.ConsumerHandler.SyncProductToES` | cmd/worker/main.go:150-224 | a create or update that is carried out replaces the document, a delete removes it, anything else leaves the index; the audit entry is missing exactly if its call failed or the document call returned an error |
| `Consumer.ConsumerHandler.ConsumeClaim` | cmd/worker/main.go:113-140 | the loop folds all its messages into index and audit log; the mark ends one past the last message that is not a product event without a payload, and stays if there is none |
| `Consumer.LoopIsTakes` | cmd/worker/main.go:113-140 | with all calls succeeding, n rounds of the loop are n steps of the worker machine |
| `Consumer.LastAppliedWins` | cmd/worker/main.go:157-203 | with failing calls the index shows for each id the last event that was carried out |
| `Consumer.FailuresShowExactly` | cmd/worker/main.go:157-203 | after a whole log with failing calls a product's document is right if and only if the last event carried out and the last event have the same document |
| `Consumer.LastCallSuffices` | cmd/worker/main.go:157-203 | in particular it is right whenever the call for the product's last event succeeds, whatever happened to earlier calls |
| `Consumer.FailedCallLeavesOldDocument` | cmd/worker/main.go:132-136 | a log with one failed call: every message is marked and the old document stays |
| `Consumer.RedeliveryShowsExactly` | cmd/worker/main.go:113-203 | after redelivery from the committed offset, whatever is answered, a product's document is right if and only if the last event carried out, in the second pass or else in the first, has the document of the last event in the log |
| `Consumer.RestartRepairsExactly` | cmd/worker/main.go:113-136 | redelivery from the committed offset with succeeding calls makes a product's document right if and only if a redelivered message concerns it or it was right before |
| `Consumer.CommittedFailureStays` | cmd/worker/main.go:132-136 | once the mark past a failed call has been committed, a restart changes nothing about which documents are right |
| `Search.ExecAgrees` | repository/product_repo.go:159-178 | right after a disciplined product write its event agrees with the table |
| `Search.SiteRunKeepsInv` | repository/product_repo.go:133-264 | along every run, for each product, the unsent event or else the last logged one differs from the table by exactly the sales since the last write |
| `Search.ProjectionDrift` | cmd/worker/main.go:150-203 | with checkouts interleaving freely and any restarts, a caught-up index has a document exactly if there is a row, with the same name and price and a stock higher by exactly the units sold since the last create or update |
| `Search.IndexIdsAreTableIds` | cmd/worker/main.go:153-153 | when caught up everywhere, the document ids are the decimal forms of the table's ids |
| `SearchExact.DisciplinedIsFree` | repository/product_repo.go:133-264 | the runs under the hypotheses of `Search` are runs of the unrestricted machine |
| `SearchExact.IndexAgreesExactly` | repository/product_repo.go:133-206 | along every run, with overlapping, missing, unacknowledged and unannounced writes, the drift equation holds of a caught-up product if and only if the last message about it carries what its last write put into the row |
| `SearchExact.IndexAgreesUnderFailures` | cmd/worker/main.go:157-203 | the same for one pass over the partition with failing index calls, for the last event carried out |
| `SearchExact.LastAnnouncerMustAgree` | repository/product_repo.go:133-206 | the same condition in terms of processes: the last to announce, whose send succeeded, and the last to write, whose statement hit, say the same; it is met when they are one process |
| `SearchExact.OverlapAgreesExactlyInOrder` | repository/product_repo.go:159-178 | of two updates, one announced last and one committed last, the index agrees with the table if and only if they are the same process or asked for the same row |
| `SearchExact.UpdateAgreesExactlyOnHit` | repository/product_repo.go:159-178 | an update's event agrees with the table after its statement exactly if the row existed |
| `SearchExact.MissingUpdateDiffers` | repository/product_repo.go:159-178 | a run from an empty catalogue, without any failure, after which the index has a product that the table does not have |
| `SearchExact.ReversedAnnouncementsDiffer` | repository/product_repo.go:159-178 | a run without any failure of a create and two overlapping updates after which, caught up, index and table agree only if both updates asked for the same row |
| `Repository.SaleKeepsDrift` | repository/product_repo.go:208-245 | a checkout moves cache and table apart by exactly what it sold |
| `Repository.EditKeepsDriftExactly` | repository/product_repo.go:161-169 | after an update the cache still only drifts by sales if and only if the key was dropped, was absent, or the update wrote the row as it was |
| `Repository.FailedDropLeavesWrongEntry` | repository/product_repo.go:169-169 | an update of a cached product to any other row, with a failed drop, leaves a wrong entry |
| `Repository.DeleteKeepsDriftExactly` | repository/product_repo.go:184-193 | after a delete the cache is right exactly if the key was dropped or was absent |
| `Repository.ProductRepository.GetByID` | repository/product_repo.go:108-131 | a fresh entry is returned as it is, otherwise the row of the table; a product found, also from the cache, has a row of that name and price; not found means no hit and no row or a failed query; the fill lasts ten minutes |
| `Repository.ProductRepository.GetAll` | repository/product_repo.go:39-106 | a fresh entry is returned and neither breaker nor table touched; otherwise the breaker decides, and a successful query lists rows whose name fits the search, in order, none twice, all of them when the page has room, and fills the entry |
| `Repository.ProductRepository.Create` | repository/product_repo.go:133-157 | succeeds exactly if the statement does not fail and id, name, price and stock fit their columns; then the row is there under the id of the sequence, exactly its event is appended when the send succeeds, and the index folded from the log shows the row |
| `Repository.ProductRepository.Update` | repository/product_repo.go:159-181 | changes exactly the existing row or, for a missing one, nothing, appends exactly its event either way, after which the index folded from the log shows the table if and only if the row existed; keeps the cache drift if and only if its key was dropped, was absent or the row was repeated |
| `Repository.ProductRepository.Delete` | repository/product_repo.go:183-206 | fails exactly for a failed statement, an id beyond 32 bits or a referenced product, otherwise leaves no row, appends exactly its event, and the index folded from the log has no document; keeps the cache drift if and only if its key was dropped or absent |
| `Repository.ProductRepository.Checkout` | repository/product_repo.go:208-264 | without faults succeeds if and only if user and product exist, the stock suffices and quantity, remaining stock and total fit 32 bits, and then lowers the stock, adds the transaction and one invoice of the exact total; out of stock means exactly that the row is missing or short; an error changes nothing unless only the acknowledgement was lost |
| `Repository.ListQueryCounts` | repository/product_repo.go:50-95 | a list query in a closed breaker runs; it opens the breaker if and only if it fails as at least the third failure with three fifths of the queries failed, for thirty seconds, and is counted otherwise |
| `Repository.ListQueryProbes` | repository/product_repo.go:50-95 | after the pause one query is tried, which closes the breaker with fresh counts for sixty seconds or opens it for thirty more |
| `Repository.ThreeFailedListsOpen` | repository/product_repo.go:50-95 | after three failing list queries in the first sixty seconds, lists are refused without a query for exactly the next thirty |
| `Repository.ScanRows` | repository/product_repo.go:74-82 | the row loop returns the rows in order |
| `Handlers.ProductHandler.CreateProduct` | handler/product_handler.go:122-140 | 400 exactly for no body, a name under three characters, or a price or stock that is not positive; 201 exactly if the values also fit their columns and the statement does not fail, and then the row and its event are there |
| `Handlers.ProductHandler.UpdateProduct` | handler/product_handler.go:175-202 | the same validation; a successful update hits an existing row although the guard reads through the cache, and appends the event of what the table then holds; without faults it succeeds exactly for valid values and an existing row |
| `Handlers.ProductHandler.DeleteProduct` | handler/product_handler.go:215-229 | a successful delete removes an existing, never sold row and appends its event; without faults it succeeds exactly for such a row, and 404 means there is none |
| `Handlers.ProductHandler.HandleCheckout` | handler/product_handler.go:242-271 | success lowers the stock by the positive quantity, not below zero, and adds one transaction and one invoice; without faults it succeeds if and only if the request is valid, user and product exist, the stock suffices and all numbers fit |
| `Handlers.ProductHandler.GetAllProducts` | handler/product_handler.go:68-107 | page and limit default to 1 and 10; a cache hit answers 200 with the cached list and touches nothing; otherwise 503 exactly when the breaker is open, 200 with the rows whose name fits exactly when it admits and the query succeeds, else 500 |
| `RateLimit.Limiter.Allow` | middleware/ratelimit.go:74-74 | a request is served if and only if the tokens, refilled since the last use up to b, are at least one, and takes exactly one |
| `RateLimit.IPRateLimiter.GetLimiter` | middleware/ratelimit.go:36-47 | returns the address's limiter, creating a full one only if there is none; no two addresses share one |
| `RateLimit.IPRateLimiter.Reset` | middleware/ratelimit.go:50-58 | replaces the whole map |
| `RateLimit.IPRateLimiter.Limit` | middleware/ratelimit.go:61-82 | a request spends from its own address's bucket only; an unparsable address is served without one |
| `RateLimit.WaitingRefills` | middleware/ratelimit.go:42-42 | waiting d seconds brings d * r tokens, up to b |
| `RateLimit.PacedIsServed` | middleware/ratelimit.go:61-82 | an address that waits 1 / r seconds before each request is always served, from any state |
| `RateLimit.BurstIsServed` | middleware/ratelimit.go:61-82 | an unknown address is served exactly b of any number of requests at once |
| `RateLimit.ObjectBound` | middleware/ratelimit.go:36-82 | with lookups and Allow calls interleaved freely, one limiter object admits at most b + r * T requests, also after the map dropped it |
| `RateLimit.CallsAreEvents` | middleware/ratelimit.go:61-82 | a run in which each lookup is followed at once by its Allow is a run of the machine that interleaves them freely |
| `RateLimit.CallIsVisit` | middleware/ratelimit.go:36-82 | one request, reset or pause of the map moves each address's view of it by that address's own visit, and by nothing otherwise |
| `RateLimit.AddressBound` | middleware/ratelimit.go:36-82 | on the map with any number of addresses, each lookup followed at once by its Allow: over T seconds with k resets an address is let through at most b * (k + 1) + r * T times, from any state |
| `RateLimit.ResetsAreRare` | middleware/ratelimit.go:50-58 | the map is reset at most floor(T / 300) + 1 times in T seconds |
| `RateLimit.AddressBoundInWindow` | middleware/ratelimit.go:50-82 | both together, on the map: a bound for each address that depends on the length of the window only |
| `Breaker.TripRuleExact` | pkg/resiliency/breaker.go:23-27 | for all 32-bit counts the rounded quotient test decides exactly whether failures are three fifths of the requests |
| `Breaker.MinimumRequestsRedundant` | pkg/resiliency/breaker.go:26-26 | as failures are requests, the minimum of three requests never decides |
| `Breaker.FailureTripsExactly` | pkg/resiliency/breaker.go:23-27 | a failing query of the current interval opens a closed breaker if and only if it is at least the third failure and three fifths of the requests have failed; otherwise it is counted |
| `Breaker.ThreeFailuresTrip` | pkg/resiliency/breaker.go:17-27 | in every run within the first sixty seconds, however queries overlap, three failures that make three fifths of the queries started have opened the breaker |
| `Breaker.ClosedAdmits` | pkg/resiliency/breaker.go:17-22 | a closed breaker runs and counts every query, and counts start afresh only after sixty seconds |
| `Breaker.PauseEnds` | pkg/resiliency/breaker.go:17-22 | after the pause the breaker is half open and admits its probe |
| `Breaker.ProbeDecides` | pkg/resiliency/breaker.go:17-22 | half open, one query runs at a time; success closes for a new interval of sixty seconds, failure opens for thirty |
| `Breaker.BreakerSafety` | pkg/resiliency/breaker.go:17-29 | in every reachable state: closed means fewer than three failures or fewer than three fifths, half open that at most one query admitted in this phase is running, open that none is |
| `Breaker.TripNeedsThreeFailures` | pkg/resiliency/breaker.go:17-29 | only a failing query of the current generation opens a breaker, a closed one as at least the third failure of its interval; after any opening no query starts for thirty seconds, and the next may after |
| `InvoiceQueue.TasksConserved` | internal/worker/processor.go:14-46 | with any number of workers every payload is in the list, in hand, delivered, discarded or lost, unchanged, and exactly the failed pushes lose one each |
| `InvoiceQueue.OutcomesFit` | internal/worker/processor.go:22-26 | only unreadable payloads are discarded, only readable ones delivered or lost |
| `InvoiceQueue.QueueIsFair` | internal/worker/processor.go:15-33 | retries join at the tail: after n <= k pops the payload in place k waits k - n places from the head |
| `InvoiceQueue.RunLength` | internal/worker/processor.go:30-39 | the length of every run is fixed by the load and the number of retries |
| `InvoiceQueue.QueueDrains` | internal/worker/processor.go:14-46 | a run can stop only when list and hands are empty, with everything delivered, discarded or lost |
| `InvoiceQueue.InvoiceWorker.ProcessTaskInvoice` | internal/worker/processor.go:14-46 | an unreadable task is discarded, a mailed one delivered, one whose mail failed pushed to the tail, or lost with an error when the push fails |

## Left out

- Failing Elasticsearch calls inside the worker machine of `Worker` and `Search`: there a taken message is carried out;
  calls that fail, and what a restart repairs, are in `Consumer` and `SearchExact.IndexAgreesUnderFailures`.
- `Repository.ProductRepository.Update`, `Delete` and `Create` do not cover a statement that took place although it
  reported an error; the concurrent store does (`ExecLost`).
- A producer send that reports an error although the broker appended the message.
- An Elasticsearch call that takes effect only after a later call was made.
- The classes run one request at a time; update in place under concurrency is modelled on values, in `Store`, `Cache`,
  `Search`, `Worker` and `RateLimit.Gate`.
- Delivery of invoices by the Kafka worker, which the code performs only for messages that do not decode.
- The restart loop around `Consume`, which panics when `Consume` returns nil; a restart is a step of the environment.
- The endless loop of `cleanupVisitors`: one round is `IPRateLimiter.Reset`, and its pace is `CleanupPaced`.
- Rounding inside the token bucket: it is computed over exact reals.
- Wrap-around of gobreaker's 32-bit counters inside one interval.
- Row-iteration errors in `GetAll`, which does not look at `rows.Err()`: the iteration is taken to complete.
- PostgreSQL details: trailing blanks cut from an over-long name, NUL bytes, case folding beyond ASCII in ILIKE, and
  changes to the users table by registration.
- JSON encoding: messages and cached values are values, with a case for those that do not decode.
- Authentication, registration, passwords and tokens, logging, telemetry, HTTP responses, start-up, generated code and
  deployment files.
