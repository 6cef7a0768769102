# Verified model of the prediction-market backend and indexer

This project models, in Dafny, the parts of the repository that carry state and arithmetic over many
steps, and proves what they promise: the ledger coverage tracker and the loop that drives it, the webhook
delivery queue, the projection of contract events into markets and bets with its parimutuel payouts, the
keyset pagination of bets, the liquidity pool, the standalone indexer (poll loop, re-org and gap
detection, duplicate cache, fault-tolerant poller) and the oracle's signed message.
`dafny verify dfyconfig.toml` checks everything.

## How the model is laid out

| file | what it models | main results |
|---|---|---|
| `LedgerRanges.dfy` | interval lists of `ledgerTracker.ts` | the compact form of a set of ledgers is unique; merging computes it; the missing ranges are exactly the complement |
| `LedgerTracker.dfy` | the range table and its Redis copies as a protocol | in every interleaving the table is the union of the commits, the checkpoint is their highest end, and a stale copy hides no missing ledger |
| `Batching.dfy` | batches of backfill and resync | batches partition the interval |
| `StellarIndexer.dfy` | `pollOnce`, `backfillMissingLedgers`, `startIndexer` | every gap is recovered unless a call throws; no ledger is skipped, on every pattern of failures, over whole runs with restarts |
| `WebhookDelivery.dfy` | the delivery queue as a lease protocol | one live worker per row, `success` is final, six attempts at most, attempts add up; exactly what remains without the timing assumption |
| `EventProcessor.dfy` | event handlers and their replay | pools equal the recorded bets; exactly when a replay keeps the books, the statuses and the outcomes; order of bets is irrelevant |
| `Payouts.dfy` | payout formula and quotes | solvency with a bound on the dust; exactly when a quote agrees with the payout and when a projection falls |
| `BetPagination.dfy` | `fetchBetsByAddress` | every form of request gets exactly its page; each bet once across changing tables; cursor pages equal OFFSET pages |
| `LiquidityPool.dfy` | add, remove, lock routes | LP supply stays backed on every run; removals are fair; exactly when a round trip is; no withdrawal while locked |
| `LedgerContinuity.dfy` | anomaly detection, maintenance windows, resync range | exactly which skipped ledgers are reported; when a window claims a gap |
| `Poller.dfy` | the poll loop | safety of cursor and last ledger over every run, and of what is stored across restarts |
| `EventDedup.dfy` | `EventDedupCache`, `recordProcessedEvent` | exactly when an event is accepted again |
| `FaultTolerantPoller.dfy` | `detectReorg`, recovery, retry loop | exactly the missing ledgers, each recovered once, bounded attempts |
| `OracleMessage.dfy` | `buildSignedMessage` | unique decoding |

Code that changes state step by step is a class or a loop method, proved against a specification
function; protocols between concurrent parties are step functions over a state, and the theorems about
them quantify over all legal step sequences.

## Assumptions

- The RPC server, PostgreSQL and Redis appear as nondeterministic answers: every call may succeed, fail, or
  (for Redis) take effect late, out of order or never. A committed transaction is one atomic step.
- In `StellarIndexer.dfy` the ghost field `throws` counts the calls that threw, so that a promise can say "unless
  something threw".
- Ranges given to the tracker have `start <= end`, which `recordProcessedRange` guards.
- Webhooks: a live worker records its result within one minute of its claim (`Timely`). The model shows
  what happens without that.
- Payouts: sides are the three of the schema, amounts are positive, `fee_bps` lies in 0..10000, and bet rows
  are written by `handleBetPlaced` only.
- Payouts: where not said otherwise, market and bet row are read from one state, although the source uses two queries
  (`Payouts.LateRowIsCoveredIff`, `Payouts.PayoutIsZeroIff`).
- Standalone indexer: `getLastKnownLedger`, which reads the stored ledger, is defined nowhere in the repository and is
  not part of this model; the ledger is taken from the store that the cursor is read from: the SQLite row unless it
  has no cursor, else the file. Reading SQLite is taken to work.
- Pagination: the model keeps microseconds and says exactly which bets a cursor, which keeps milliseconds, cuts
  off. That cursor pages equal OFFSET pages assumes `placed_at` in whole milliseconds.
- Liquidity: `Number` arithmetic is taken as exact and each request as atomic. Deposits and burns are positive and
  minima non-negative, as the request schemas demand.

## Where code and documentation disagree

The model follows the code; each point is a lemma.

- `findMissingRanges` is documented as half-open. The interval `[from, latest]` is closed
  (`LedgerRanges.FindMissingRanges`).
- The last-ledger key is documented as "highest consecutively processed". It is the end of the last range,
  which is that only if the last range reaches back to the genesis ledger (`LedgerTracker.LastKeyIsConsecutive`).
- `pollOnce` passes over ledgers when the tracker is ahead of its argument, over a gap it then does not see, and
  a later gap is backfilled (`StellarIndexer.NothingSkippedIff`, `StellarIndexer.TrackerAheadSkips`).
- A worker that outlives its lease can turn `success` back into `retrying`
  (`WebhookDelivery.SlowWorkerUndoesSuccess`); a delivered row is final exactly when nobody holds it
  (`WebhookDelivery.DeliveredIsFinalIff`). The retry bound fails too (`WebhookDelivery.BoundHoldsIff`,
  `WebhookDelivery.BoundCanBreakIff`).
- A bet that arrives before its market is dropped, and a replay then records it; a replayed lock event takes a
  resolved market back to locked (`EventProcessor.EarlyBetIsRecordedByReplay`,
  `EventProcessor.ReplayReopensResolvedMarket`). Exactly when a replay keeps pools, bets, statuses
  and outcomes is `EventProcessor.ReplayLeavesTablesIff` and `EventProcessor.ReplayOfPrefixRestoresIff`.
- A projected payout falls to zero when the market is cancelled, or when the bettor has placed another bet there and
  that row is read, because the query has no order (`Payouts.LaterBetsElsewhereNeverLower`).
- The quote route does not look at the market's status, so on a cancelled market it quotes more than the zero that
  is paid (`Payouts.QuoteAgrees`).
- Two bets of one bettor in the same millisecond can fall out of cursor pagination
  (`BetPagination.CursorSkipsNothingIff`, `BetPagination.SameMillisecondIsLost`).
- A gap of exactly one ledger is not reported, although the documentation says "one or more"
  (`LedgerContinuity.ReportedIff`).
- Ledger bounds of a maintenance window do not exclude other gaps once its start time has come; the repository's
  test expects them to (`LedgerContinuity.ActiveWindowMatchesIff`, `LedgerContinuity.LedgerBoundsDoNotExclude`).
- A resync round that fails forgets where to resume, and re-fetched ledgers below the last one count as a re-org
  again (`Poller.ResyncForgottenIff`, `Poller.RetryLooksLikeReorgIff`, `Poller.StuckWhileBehind`).
- A ledger whose event query fails is saved as processed, and so is one with more events than a query returns
  (`FaultTolerantPoller.FailedQueriesGoUnnoticed`, `FaultTolerantPoller.NothingPassedOverIff`).
- A SQLite write that fails unnoticed leaves a row behind the file, which a restart then prefers
  (`Poller.RestartIsSafeIff`, `Poller.SilentLossLowersLedger`).
- A deposit mints LP tokens without regard to the reserves, so a round trip can return more than was put in
  (`LiquidityPool.RoundTripIsFairIff`).
- The oracle message describes its length prefix as XDR; the padding of section 4.11 of RFC 4506 is missing
  (`OracleMessage.LengthPrefixIsXdrIff`).

## Model

| member | source | states |
|---|---|---|
| LedgerRanges.CanonicalUnique | backend/src/indexer/ledgerTracker.ts:31-53 | two sorted, disjoint, non-adjacent lists that cover the same ledgers are the same list: the compact form is unique |
| LedgerRanges.InsertCoverage | backend/src/indexer/ledgerTracker.ts:41-50 | merging one range into a compact list covers exactly the ledgers of both |
| LedgerRanges.InsertCanonical | backend/src/indexer/ledgerTracker.ts:41-50 | merging one range into a compact list keeps it compact |
| LedgerRanges.CoalesceCanonical | backend/src/indexer/ledgerTracker.ts:31-53 | the merge of any ranges is compact and covers exactly their ledgers |
| LedgerRanges.CoalesceUnique | backend/src/indexer/ledgerTracker.ts:31-53 | any compact list with the input's coverage is the merge |
| LedgerRanges.CoalesceIdempotent | backend/src/indexer/ledgerTracker.ts:35-53 | merging twice changes nothing |
| LedgerRanges.CoalesceIgnoresOrderAndDuplicates | backend/src/indexer/ledgerTracker.ts:35-53 | the merge depends only on which ranges occur |
| LedgerRanges.CoalesceIncremental | backend/src/indexer/ledgerTracker.ts:155-163 | recording ranges one after the other equals merging them all at once |
| LedgerRanges.CoalesceRanges | backend/src/indexer/ledgerTracker.ts:35-53 | the sort-and-merge loop covers the input's ledgers and, on well-formed ranges, returns the unique compact list |
| LedgerRanges.MergeStepCoverage | backend/src/indexer/ledgerTracker.ts:41-50 | one step of the loop adds exactly the current range, whether it extends the last range or starts a new one |
| LedgerRanges.MissingUnique | backend/src/indexer/ledgerTracker.ts:55-89 | there is one compact list of the ledgers of [from, latest] outside the given ranges |
| LedgerRanges.ClipCoverage | backend/src/indexer/ledgerTracker.ts:67-72 | filter and map keep exactly the covered ledgers within [from, latest] |
| LedgerRanges.FindMissingRanges | backend/src/indexer/ledgerTracker.ts:60-89 | the result is compact and covers exactly the ledgers of the closed interval [from, latest] outside the ranges |
| LedgerRanges.ScanGaps | backend/src/indexer/ledgerTracker.ts:75-86 | the cursor loop over compact ranges emits exactly the gaps, early exit included |
| LedgerRanges.FillingGapsLeavesNone | backend/src/indexer/ledgerTracker.ts:60-89 | after the missing ranges are merged in, nothing in [from, latest] is missing |
| LedgerTracker.CommitGrowsTable | backend/src/indexer/ledgerTracker.ts:155-184 | a commit keeps the table compact and adds exactly its own ledgers |
| LedgerTracker.StepKeepsInv | backend/src/indexer/ledgerTracker.ts:92-194 | each step (commit, cache refill, delayed or lost Redis write, expiry) keeps the table compact and equal to the merge of all commits, and every cached or pending list inside the table; the table never loses a ledger |
| LedgerTracker.RunKeepsInv | backend/src/indexer/ledgerTracker.ts:92-194 | the same for every interleaving of recorders, readers and Redis writes |
| LedgerTracker.TableIsUnionOfCommits | backend/src/indexer/ledgerTracker.ts:138-194 | on every run from an empty table, a ledger is covered exactly if some committed range contains it |
| LedgerTracker.CheckpointIsHighestCommit | backend/src/indexer/ledgerTracker.ts:173-182 | on every run the checkpoint is absent exactly if nothing was committed; otherwise a committed range ends at it and none ends beyond it |
| LedgerTracker.LastKeyIsKnown | backend/src/indexer/ledgerTracker.ts:118-136 | on every run the last-ledger key, and every write of it under way, holds genesis or the end of some committed range |
| LedgerTracker.StaleListMissesNothing | backend/src/indexer/ledgerTracker.ts:60-116 | missing ranges computed from whatever list a reader got include every ledger missing from any later table |
| LedgerTracker.LastKeyIsConsecutive | backend/src/indexer/ledgerTracker.ts:118-136 | the stored last ledger has no hole below it exactly if the last range reaches down to genesis + 1 (or ends at or below genesis) |
| LedgerTracker.CommitAhead | backend/src/indexer/ledgerTracker.ts:163-187 | a range recorded beyond all others is appended to the table, and its end becomes the last-ledger key whatever is missing below |
| LedgerTracker.LastKeyCanOverstate | backend/src/indexer/ledgerTracker.ts:118-187 | a run of two commits after which the last-ledger key says 9 while ledger 6 was never processed |
| LedgerTracker.RecordSteps | backend/src/indexer/ledgerTracker.ts:147-194 | one call of `recordProcessedRange` is a run of three protocol steps, keeps the invariant, and adds exactly [start, end] |
| LedgerTracker.TrackerStore.GetProcessedRanges | backend/src/indexer/ledgerTracker.ts:92-116 | a usable cached list is returned unchanged, otherwise the table is read and a cache write issued; either way the answer lies within the table |
| LedgerTracker.TrackerStore.GetLastProcessedLedger | backend/src/indexer/ledgerTracker.ts:118-136 | a usable cached value is returned as it is; otherwise the highest end ever committed, or genesis if there is none, and that is what the cache then holds if the write worked |
| LedgerTracker.TrackerStore.RecordProcessedRange | backend/src/indexer/ledgerTracker.ts:147-194 | an inverted range changes nothing; otherwise the range joins the table, the checkpoint is the highest end committed, and each of the two Redis keys is the new list or last end if its write worked |
| Batching.BatchesPartition | backend/src/indexer/StellarIndexer.ts:249-250 | batches are non-empty, at most batchSize long, consecutive, all full but the last, and read in order list each ledger of the interval once |
| Batching.BatchesCoverage | backend/src/indexer/StellarIndexer.ts:249-250 | the batches cover exactly the requested interval |
| LedgerTracker.RecordOne | backend/src/indexer/ledgerTracker.ts:155-184 | recording a range adds exactly its ledgers and leaves the last end at the range or where it was |
| StellarIndexer.TruthfulRecord | backend/src/indexer/StellarIndexer.ts:264-266 | if everything up to the end of a recorded range is settled, every list and last-ledger value that a later read may return tells the truth |
| StellarIndexer.Indexer.ProcessBatch | backend/src/indexer/StellarIndexer.ts:252-262 | a batch hands over a prefix of its ledgers in order; a normal end means every one was handed over and settled |
| StellarIndexer.Indexer.BackfillBatch | backend/src/indexer/StellarIndexer.ts:249-268 | a batch is recorded only after all its ledgers were handed over and settled, also when a later call throws |
| StellarIndexer.Indexer.BackfillMissingLedgers | backend/src/indexer/StellarIndexer.ts:242-280 | also after an exception, the ranges recorded are a prefix of the batches, hold only ledgers already handed over, and lack at most one batch of those; without one, every ledger is counted once, recorded and settled, and the checkpoint is the last |
| StellarIndexer.Indexer.RecoverGaps | backend/src/indexer/StellarIndexer.ts:207-218 | the swallowed backfill: gaps computed from the reads; all of them are handed over in order and recorded in batches of 100, and the resume point lies past the last, unless a call threw; then the first ones are complete and the resume point lies past them |
| StellarIndexer.Indexer.RecoverEach | backend/src/indexer/StellarIndexer.ts:211-215 | the loop over the gaps backfills every one of them in order unless a call throws |
| StellarIndexer.Indexer.CatchUp | backend/src/indexer/StellarIndexer.ts:220-234 | the tail loop hands over and settles each ledger after the resume point once, in order, up to the head unless a call throws, and the checkpoint is the last one it got to |
| StellarIndexer.Indexer.PollOnce | backend/src/indexer/StellarIndexer.ts:194-235 | unless a call throws, a poll ends at the latest ledger, with every missing ledger handed over and settled and the table grown by exactly the ledgers above the tracker's last one that the range list lacks; if only the backfill throws, it still gets there, and an uncovered ledger above lastProcessed is handed over exactly unless it lies at or below the tracker's own last ledger and some gap was completed; with the tracker not ahead, none is skipped; truth of all stored values is kept |
| StellarIndexer.HandedExactly | backend/src/indexer/StellarIndexer.ts:207-232 | exactly which uncovered ledgers a poll hands to `processLedger` |
| StellarIndexer.NothingSkippedIff | backend/src/indexer/StellarIndexer.ts:207-232 | a poll skips nothing exactly if no gap was completed or the ranges read cover everything from its argument up to the tracker's last ledger |
| StellarIndexer.TrackerAheadSkips | backend/src/indexer/StellarIndexer.ts:207-214 | a concrete state with the tracker ahead in which ledger 6 is neither covered nor backfilled nor reached by the loop |
| StellarIndexer.NeverSkipsIff | backend/src/indexer/StellarIndexer.ts:207-232 | beforehand: no pattern of failures makes a poll skip a ledger exactly if there is no gap, or the ranges read hold everything from its argument up to the tracker's last ledger |
| StellarIndexer.Indexer.GetLastProcessedLedger | backend/src/indexer/StellarIndexer.ts:830-835 | a starting process resumes at the checkpoint, or at genesis, and every ledger up to there is settled |
| StellarIndexer.PlayRound | backend/src/indexer/StellarIndexer.ts:165-191 | one round starts where the process stands, or at the stored checkpoint, and ends at the network head, with all gaps filled and nothing skipped, or where it started if a call threw |
| StellarIndexer.StartIndexer | backend/src/indexer/StellarIndexer.ts:107-192 | on every run of the loop, with stale reads, failures at any call and restarts from the stored checkpoint, every ledger from genesis to the loop's position is settled and every stored or readable value stays truthful; if nothing threw, the loop stands at the last head |
| WebhookDelivery.ClaimExists | backend/src/cron/webhookDelivery.cron.ts:25-35 | whatever rows others have locked, the query has an answer |
| WebhookDelivery.ClaimTakesOldest | backend/src/cron/webhookDelivery.cron.ts:25-35 | a claim takes at most 25 rows, pending or retrying, due, not locked in the last minute nor by others, the ones due longest first; a row that qualifies is passed over only if 25 rows due earlier are taken |
| WebhookDelivery.ClaimIsDetermined | backend/src/cron/webhookDelivery.cron.ts:25-35 | the rows a claim takes, and their order, are settled by the rows others have locked |
| WebhookDelivery.ClaimLocks | backend/src/cron/webhookDelivery.cron.ts:41-46 | a claim locks exactly the rows it took, marks them retrying and leaves every other field and row as it was |
| WebhookDelivery.ClaimStarts | backend/src/cron/webhookDelivery.cron.ts:41-46 | each row taken gets one new worker, which knows its retry count; the other workers go on |
| WebhookDelivery.HeldRowIsDueIffLeaseExpired | backend/src/cron/webhookDelivery.cron.ts:28-44 | a row held by a worker can be claimed by another exactly if more than a minute has passed since the claim |
| WebhookDelivery.ClaimKeepsInv | backend/src/cron/webhookDelivery.cron.ts:21-57 | a claim, overlapping with other workers, keeps one live worker per row and each worker's snapshot of retry_count current |
| WebhookDelivery.RecordKeepsInv | backend/src/cron/webhookDelivery.cron.ts:84-115 | recording a result keeps the invariant and frees the row, although the UPDATE has no status guard |
| WebhookDelivery.StepKeepsInv | backend/src/cron/webhookDelivery.cron.ts:21-151 | every timely step (enqueue, tick, claim, record, crash, admin retry) keeps the invariant: one live worker per row, retry_count <= 5, failed only at 5 |
| WebhookDelivery.RowsWritten | backend/src/cron/webhookDelivery.cron.ts:84-115 | what a success, a failure with and without retries left, a new delivery and a requeue write into their row, and that nothing else changes |
| WebhookDelivery.RunKeepsInv | backend/src/cron/webhookDelivery.cron.ts:21-151 | the same on every run with overlapping cron ticks and crashes |
| WebhookDelivery.SuccessIsFinal | backend/src/cron/webhookDelivery.cron.ts:84-93 | once delivered, a row never changes again |
| WebhookDelivery.UnheldRowIsUntouched | backend/src/cron/webhookDelivery.cron.ts:21-115 | a row changes only through a claim, a result of its own worker or an admin retry |
| WebhookDelivery.CrashedRowIsClaimableAgain | backend/src/cron/webhookDelivery.cron.ts:28-30 | a row whose worker died keeps its retry_count and becomes claimable exactly when its lease expires |
| WebhookDelivery.RetryIsDueOnSchedule | backend/src/cron/webhookDelivery.cron.ts:95-108 | after a failed attempt and until its next claim, a row is due exactly from its scheduled delay on |
| WebhookDelivery.RetrySchedule | backend/src/cron/webhookDelivery.cron.ts:6 | the retries are due a minute, five minutes, a quarter of an hour, an hour and six hours after the failure before them |
| WebhookDelivery.RequeuedRowStaysDue | backend/src/routes/admin.routes.ts:32-38 | a failed row is never due; once requeued it stays due until it is claimed, with all retries to go and its attempts kept |
| WebhookDelivery.RetryIsNotEarly | backend/src/cron/webhookDelivery.cron.ts:95-108 | whoever claims a row again after a failed attempt does so no earlier than the scheduled delay |
| WebhookDelivery.StepCounts | backend/src/cron/webhookDelivery.cron.ts:84-115 | how one step moves attempt_count, retry_count and the end states against the number of results and requeues |
| WebhookDelivery.RunCounts | backend/src/cron/webhookDelivery.cron.ts:84-115 | the same balance over every run |
| WebhookDelivery.AttemptsAddUp | backend/src/cron/webhookDelivery.cron.ts:84-115 | for every reachable row: retry_count <= 5, failed implies 5, attempt_count is the number of recorded results and equals retry_count + (1 if ended) + 6 per admin retry, and it is delivered at most once |
| WebhookDelivery.AlwaysFailingStopsAtSix | backend/src/cron/webhookDelivery.cron.ts:95-115 | a row that always fails has at most six recorded attempts, and six exactly when it is failed |
| WebhookDelivery.SlowWorkerUndoesSuccess | backend/src/cron/webhookDelivery.cron.ts:84-115 | without the timing assumption: a run in which a delivered row ends as retrying |
| WebhookDelivery.RunKeepsTokens | backend/src/cron/webhookDelivery.cron.ts:21-139 | on every run, timely or not, workers hold rows that exist and no token is used twice |
| WebhookDelivery.DeliveredIsFinalIff | backend/src/cron/webhookDelivery.cron.ts:28-115 | without any timing assumption, a delivered row is unchanged on every run, and keeps status success on every run, exactly if no worker holds it any more |
| WebhookDelivery.BoundHoldsIff | backend/src/cron/webhookDelivery.cron.ts:95-108 | on any run, timely or not, retry_count stays within five exactly as long as no failure is recorded from a snapshot below five on a row that has reached five |
| WebhookDelivery.BoundCanBreakIff | backend/src/cron/webhookDelivery.cron.ts:95-108 | with slow workers some run takes a row's retry_count past five exactly unless the row is delivered and nobody holds it |
| WebhookDelivery.DeliveryQueue.ClaimDueDeliveries | backend/src/cron/webhookDelivery.cron.ts:21-57 | the claim locks exactly the selected rows and starts one worker for each |
| WebhookDelivery.DeliveryQueue.Deliver | backend/src/cron/webhookDelivery.cron.ts:84-115 | success or failure is written as the two UPDATEs say, deciding from the snapshot taken at claim |
| WebhookDelivery.DeliveryQueue.Requeue | backend/src/routes/admin.routes.ts:23-47 | only a failed row is reset to pending with no retries used; any other id is refused and nothing changes |
| EventProcessor.SideSumAppend | backend/src/indexer/EventProcessor.ts:131-142 | a recorded bet adds its amount to its own market and side and to no other sum |
| EventProcessor.PlaceBetKeepsBooks | backend/src/indexer/EventProcessor.ts:112-143 | recording a bet, new or repeated, keeps each pool equal to the recorded bets of its side and the pools adding up to total_pool |
| EventProcessor.ProcessKeepsBooks | backend/src/indexer/EventProcessor.ts:28-57 | every event, with or without a swallowed error, keeps the books |
| EventProcessor.RunKeepsBooks | backend/src/indexer/EventProcessor.ts:28-149 | after any log with duplicates, replays and failures the pools equal the distinct recorded bets |
| EventProcessor.RunOnlyGrows | backend/src/indexer/EventProcessor.ts:79-130 | no log removes a market or a bet |
| EventProcessor.ReplayKeepsBooksIff | backend/src/indexer/EventProcessor.ts:84-130 | a replay leaves bets and pools alone exactly if each event of it is already absorbed by the state it is replayed on |
| EventProcessor.KnownIff | backend/src/indexer/EventProcessor.ts:79-100 | which markets exist after a log |
| EventProcessor.FeeIsFromCreation | backend/src/indexer/EventProcessor.ts:79-100 | after any log the fee of a market is that of the first creation event that was processed, 200 if it names none |
| EventProcessor.RecordedIff | backend/src/indexer/EventProcessor.ts:114-130 | a transaction is recorded exactly if some entry of it succeeded while its market existed |
| EventProcessor.RecordedBetsAre | backend/src/indexer/EventProcessor.ts:112-130 | the recorded bets are exactly those of the first successful event of each transaction on a known market, with all their fields |
| EventProcessor.ReplayOfPrefixKeepsBooks | backend/src/indexer/EventProcessor.ts:59-149 | if every market is created before its bets, replaying any prefix changes no bet and no pool |
| EventProcessor.ColumnsAreLastAccepted | backend/src/indexer/EventProcessor.ts:155-272 | after any log a market has the status of the last status event that found it, else its old one, else open; and the outcome, time and oracle of the last resolution that found it, which locks and cancellations leave alone |
| EventProcessor.StatusEventsSet | backend/src/indexer/EventProcessor.ts:155-251 | a lock, a cancellation and a resolution of a known market set locked, cancelled, and resolved with the outcome, and nothing else |
| EventProcessor.UnknownMarketStays | backend/src/indexer/EventProcessor.ts:155-251 | a status event of an unknown market changes nothing |
| EventProcessor.ColumnsSurviveIff | backend/src/indexer/EventProcessor.ts:155-272 | a market's status and resolution survive a replay exactly if the last ones the replay asks for, if any, are those |
| EventProcessor.PrefixKeepsColumnsIff | backend/src/indexer/EventProcessor.ts:155-272 | replaying a prefix of any log keeps all statuses and resolutions exactly if each market's last ones in the prefix are its last accepted ones in the whole log |
| EventProcessor.ReplayLeavesTablesIff | backend/src/indexer/EventProcessor.ts:59-272 | a replay leaves status, resolution (with the outcome), pools and fee of every market and all bets as they are exactly if every event is absorbed and the last status and the last resolution asked for in each market are those it has |
| EventProcessor.ReplayOfPrefixRestoresIff | backend/src/indexer/EventProcessor.ts:59-272 | if every market is created before its bets and status events, replaying a prefix restores status, resolution, pools, fee and bets exactly unless some market's last status or last resolution in the prefix differs from its last one in the log |
| EventProcessor.EarlyBetIsRecordedByReplay | backend/src/indexer/EventProcessor.ts:109-149 | a bet before its market fails on the foreign key and is recorded by a later replay |
| EventProcessor.ReplayReopensResolvedMarket | backend/src/indexer/EventProcessor.ts:155-160 | replaying a lock event takes a resolved market back to locked |
| EventProcessor.AcceptedBetsCommute | backend/src/indexer/EventProcessor.ts:109-149 | two distinct bets recorded in either order give the same markets and the same bets |
| EventProcessor.OrderDoesNotMatter | backend/src/indexer/EventProcessor.ts:109-149 | any two orders of the same bet events give the same pools and the same recorded bets |
| EventProcessor.StellarEventProcessor.HandleMarketCreated | backend/src/indexer/EventProcessor.ts:59-107 | an existing market is left alone, a new one starts empty and open with its fee or 200 |
| EventProcessor.StellarEventProcessor.HandleBetPlaced | backend/src/indexer/EventProcessor.ts:109-149 | the state changes exactly if the transaction is new and the market exists; the transaction fails exactly if it is new and the market does not |
| EventProcessor.StellarEventProcessor.HandleMarketLocked | backend/src/indexer/EventProcessor.ts:155-160 | a known market becomes locked and keeps its resolution; an unknown one is no error |
| EventProcessor.StellarEventProcessor.HandleMarketResolved | backend/src/indexer/EventProcessor.ts:162-173 | a known market becomes resolved with this outcome, time and oracle, whatever it had before |
| EventProcessor.StellarEventProcessor.HandleMarketCancelled | backend/src/indexer/EventProcessor.ts:243-251 | a known market becomes cancelled and keeps its resolution |
| EventProcessor.StellarEventProcessor.ProcessEvent | backend/src/indexer/EventProcessor.ts:28-57 | errors are swallowed and leave the state as it was |
| Payouts.PayoutIsShare | backend/src/services/BetService.ts:346-366 | a payout is the floor of the bettor's share of what is distributed |
| Payouts.PayoutFormula | backend/src/services/BetService.ts:345-366 | with the fee in ten-thousandths of the total: amount times the rest over the pool of the side, for each of the three sides |
| Payouts.ProjectionErrors | backend/src/services/BetService.ts:307-320 | refused exactly for an address that is not G and 55 letters A-Z or digits 2-7, or, if the address is valid, for an unknown market |
| Payouts.PayoutsBracketShare | backend/src/services/BetService.ts:346-366 | the payouts of all winning bets together fall short of their exact share by less than one unit per bet |
| Payouts.Solvency | backend/src/services/BetService.ts:346-366 | for every reachable market and outcome with a winning pool, payouts sum to at most total_pool - fee and what is left is less than the number of winning bets |
| Payouts.ProjectionsAreSolvent | backend/src/services/BetService.ts:302-373 | while a market is not cancelled, the payouts projected for all its bets obey the same two bounds |
| Payouts.PromisesAreCovered | backend/src/services/BetService.ts:302-373 | on every reachable market, whichever of the rows recorded by then are read for however many bettors, the projections together are covered by the pool after the fee |
| Payouts.LateRowIsCoveredIff | backend/src/services/BetService.ts:313-366 | for a row recorded after the market was read, the projection is covered exactly if amount times pool after the fee stays below (that pool + 1) times the side's pool; an amount within the side's pool always is |
| Payouts.LateRowIsOverpromised | backend/src/services/BetService.ts:313-366 | with pools of 1 and 1 read before a bet of 1000, 2000 is promised |
| Payouts.QuoteAgrees | backend/src/routes/betGroup4.routes.ts:198-211 | the payout quoted before a bet equals `calculateProjectedPayout` after it is recorded, exactly unless the market is cancelled and the quote is not zero |
| Payouts.QuoteFormula | backend/src/routes/betGroup4.routes.ts:198-211 | the quote divides the total with the new bet, less the fee in ten-thousandths, by the side with the new bet |
| Payouts.PayoutIsZeroIff | backend/src/services/BetService.ts:302-373 | a projected payout is zero exactly on a cancelled market, without a bet, for another outcome, when the side's pool is empty, or when the share is worth less than one unit; the row may be read from a later state than the market, and if it is not, the pool is not empty |
| Payouts.CancelledPaysNothing | backend/src/services/BetService.ts:324-327 | from a cancellation on, every projection for the market is zero until a lock or a resolution of it is processed, whatever else happens |
| Payouts.PayoutGrowsWithTotal | backend/src/services/BetService.ts:347-366 | with the side's pool fixed, a larger total never lowers a payout, flooring of fee and payout included |
| Payouts.FormulaElsewhereNeverLower | backend/src/services/BetService.ts:346-366 | events that add no new bet to a side never lower the value of the payout formula for it |
| Payouts.ProjectionElsewhereIff | backend/src/services/BetService.ts:324-373 | a projected payout does not fall exactly if it was zero, or the market is not cancelled at the end and the row read then is on the same side and its exact share is worth as much, as it always is if its amount is no smaller |
| Payouts.StaysOnlyBetIff | backend/src/services/BetService.ts:330-339 | a bet stays the only row that the unordered query can read exactly if the log records no new bet of the bettor in the market |
| Payouts.LaterBetsElsewhereNeverLower | backend/src/services/BetService.ts:302-373 | after later bets on other sides, the payout projected for a bettor's only bet has not fallen, whichever row is read, exactly if it was zero, or the last status set is not cancelled and the log records no further bet of the bettor in the market |
| Payouts.BatchPayout | backend/src/routes/betGroup4.routes.ts:257-284 | one answer per simulation, in order, each the single quote or the unknown-market error |
| BetPagination.QuerySpec | backend/src/services/BetService.ts:219-243 | the SELECT lists exactly the bettor's bets below the cursor in descending (placed_at, id) order |
| BetPagination.DescendingUnique | backend/src/services/BetService.ts:228-240 | the order leaves one possible listing |
| BetPagination.CursorKeepsKey | backend/src/services/BetService.ts:289-291 | a cursor keeps its bet's key exactly if placed_at is a whole millisecond, and never lies above it |
| BetPagination.CursorSkipsNothingIff | backend/src/services/BetService.ts:219-231 | a cursor continues where its bet stood exactly if no other bet of the bettor falls between the truncated and the full time |
| BetPagination.SameMillisecondIsLost | backend/src/services/BetService.ts:289-291 | a bet in the same millisecond as the last one of a page is never returned |
| BetPagination.CutSpec | backend/src/services/BetService.ts:279-286 | fetching one row more than the limit decides whether there is a next page, and the cursor is that of the last bet shown |
| BetPagination.PageSpec | backend/src/services/BetService.ts:200-286 | a page holds the highest bets below the cursor; without a next cursor nothing is left, with one the rest lies below it |
| BetPagination.FetchBetsSpec | backend/src/services/BetService.ts:181-291 | every form of the request: refused exactly for a bad address, page, limit, cursor or negative offset, and for that reason; otherwise the page holds exactly the bets that stand behind as many of the bettor (below the cursor, if any) as the offset says, up to the limit, newest first, and the total counts them all; an offset overrides the page number |
| BetPagination.WalkIsCompleteIff | backend/src/services/BetService.ts:200-291 | a finished walk has returned a bet that was there throughout exactly if no cursor cut it off by its lost microseconds |
| BetPagination.WalkReturnsEachOnce | backend/src/services/BetService.ts:200-291 | following nextCursor, with the table changing between requests and any times, returns bets in strictly descending order (none twice), and a finished walk returns every bet that was present throughout except exactly those cut off; with whole milliseconds all of them |
| BetPagination.WalkTerminates | backend/src/services/BetService.ts:279-286 | a walk ends after at most as many requests as there are bets ever seen, plus one |
| BetPagination.NextCursorPage | backend/src/services/BetService.ts:252-286 | the page after an OFFSET page, taken by its cursor, is the OFFSET page one limit further |
| BetPagination.CursorPageIsOffsetPage | backend/src/services/BetService.ts:200-287 | on a fixed table the k-th cursor page exists exactly if offset k * limit is within the rows, and equals the OFFSET page there |
| BetPagination.TotalTellsPagesIff | backend/src/services/BetService.ts:245-277 | count and page come from two queries; the total says rightly whether an OFFSET page has bets, and a next page, exactly unless the bound falls between the two numbers of bets |
| BetPagination.RequestsAgree | backend/src/services/BetService.ts:181-287 | the same as two calls of `fetchBetsByAddress`, validation and cursor decoding included |
| LiquidityPool.ISqrt | backend/src/routes/liquidityGroup17.routes.ts:212-214 | the floor of the square root |
| LiquidityPool.AddSpec | backend/src/routes/liquidityGroup17.routes.ts:202-241 | a deposit mints the integer root of its product, never less than asked for, and adds to reserves, supply and deposit time; otherwise the reason is given and nothing changes |
| LiquidityPool.CrossTerms | backend/src/routes/liquidityGroup17.routes.ts:212-228 | twice supply times minted is at most the cross products of reserves and deposit, for unbalanced deposits too |
| LiquidityPool.AddKeepsBacked | backend/src/routes/liquidityGroup17.routes.ts:211-230 | after a deposit the LP supply squared still does not exceed the product of the reserves |
| LiquidityPool.ShareBounds | backend/src/routes/liquidityGroup17.routes.ts:357-359 | a withdrawal is the floor of the proportional share, never more than the reserve, and all of it when all LP tokens are burnt |
| LiquidityPool.RemoveSpec | backend/src/routes/liquidityGroup17.routes.ts:316-375 | which of the four refusals a withdrawal gets, in the order of the checks, and what it pays and takes off the pool otherwise |
| LiquidityPool.RemovalIsFair | backend/src/routes/liquidityGroup17.routes.ts:351-375 | a removal never lowers the reserve per LP token on either side, and burning everything empties the pool |
| LiquidityPool.RemoveKeepsBacked | backend/src/routes/liquidityGroup17.routes.ts:351-375 | a removal keeps the supply backed |
| LiquidityPool.RoundTripIsFairIff | backend/src/routes/liquidityGroup17.routes.ts:211-230 | a deposit whose tokens are burnt at once returns at most what was put in, on each side, exactly if reserve times minted is below amount times supply + supply + minted |
| LiquidityPool.LopsidedDepositsDilute | backend/src/routes/liquidityGroup17.routes.ts:211-230 | after two lopsided deposits a balanced one returns nearly twice its amount |
| LiquidityPool.HandleKeepsBacked | backend/src/routes/liquidityGroup17.routes.ts:185-392 | every request, refused or not, keeps all pools backed |
| LiquidityPool.RunKeepsBacked | backend/src/routes/liquidityGroup17.routes.ts:185-392 | the same on every sequence of requests over all markets |
| LiquidityPool.LockPeriodIsLastSet | backend/src/routes/liquidityGroup17.routes.ts:30-41 | after any requests the lock period of a market is the last one set, and a day before that |
| LiquidityPool.DepositKeyInjective | backend/src/routes/liquidityGroup17.routes.ts:43-53 | deposit keys of addresses of one length collide only for the same market and provider |
| LiquidityPool.NoWithdrawalWhileLocked | backend/src/routes/liquidityGroup17.routes.ts:317-340 | after a deposit, whatever other requests come between, a withdrawal by that provider succeeds only after the period last set for the market, 86400 seconds if none ever was |
| LiquidityPool.LiquidityRoutes.AddLiquidity | backend/src/routes/liquidityGroup17.routes.ts:202-241 | mints the floor of the geometric mean, or refuses and changes nothing |
| LiquidityPool.LiquidityRoutes.RemoveLiquidity | backend/src/routes/liquidityGroup17.routes.ts:314-375 | pays within the reserves and not below the minima, or refuses and changes nothing |
| LiquidityPool.LiquidityRoutes.SetMarketLockPeriod | backend/src/routes/liquidityGroup17.routes.ts:274-281 | sets a non-negative lock period, or refuses and changes nothing |
| LedgerContinuity.AcceptedBounds | indexer/src/ledgerContinuity.ts:195-239 | accepted events never go back, and the final ledger is the last accepted one |
| LedgerContinuity.ReportedIff | indexer/src/ledgerContinuity.ts:204-236 | over any stream of events, a ledger is reported as missing exactly if it was passed over and not skipped alone between two seen neighbours |
| LedgerContinuity.ReportedCanonical | indexer/src/ledgerContinuity.ts:209-236 | the reported gaps are sorted, disjoint and never adjacent |
| LedgerContinuity.OneSkippedLedgerIsSilent | indexer/src/ledgerContinuity.ts:189-210 | a single skipped ledger raises nothing |
| LedgerContinuity.ComputeResyncRange | indexer/src/ledgerContinuity.ts:250-276 | the batches list each ledger of [last + 1, current] once, in order, each at most batchSize long, and totalGaps counts them |
| LedgerContinuity.ActiveWindowMatchesIff | indexer/src/ledgerContinuity.ts:125-150 | an unexpired window claims a gap exactly if its start time, or else the time it was scheduled, has come or the gap lies within its ledgers |
| LedgerContinuity.WindowLifetime | indexer/src/ledgerContinuity.ts:74-107 | a scheduled window is over exactly past its end time or its time to live; zero never ends, a negative one ends at once |
| LedgerContinuity.ScheduledAs | indexer/src/ledgerContinuity.ts:74-90 | the defaults of a window: it starts now, and asks for a backfill |
| LedgerContinuity.LedgerBoundsDoNotExclude | indexer/src/ledgerContinuity.ts:78-88 | a window for ledgers 100 to 500 claims the gap 51 to 79 |
| LedgerContinuity.ActiveMembers | indexer/src/ledgerContinuity.ts:97-109 | the active windows are exactly the unexpired ones |
| LedgerContinuity.CompletedIsNotPendingIff | indexer/src/ledgerContinuity.ts:171-181 | completing an id takes it off the pending list exactly if no later entry with the same id is pending |
| LedgerContinuity.MaintenanceStore.Schedule | indexer/src/ledgerContinuity.ts:64-92 | stores the window with its defaults, in the place of one with the same id or at the end, and touches no other |
| LedgerContinuity.MaintenanceStore.GetActive | indexer/src/ledgerContinuity.ts:97-109 | returns the unexpired windows in insertion order and drops the others |
| LedgerContinuity.MaintenanceStore.FindMatching | indexer/src/ledgerContinuity.ts:125-150 | the first unexpired window that claims the gap, or none exactly if none does |
| LedgerContinuity.MaintenanceStore.DetectAnomaly | indexer/src/ledgerContinuity.ts:195-239 | re-org, gap, maintenance gap or nothing, each under its exact condition; a claimed gap is queued whole, once, exactly if its window asks for a backfill |
| LedgerContinuity.MaintenanceStore.CompleteBackfill | indexer/src/ledgerContinuity.ts:176-181 | marks the first backfill with that id as completed and no other; an unknown id changes nothing |
| Poller.GroupingKeepsEvents | indexer/src/poller.ts:336-341 | grouping a page by ledger loses no event and invents none |
| Poller.GroupsAre | indexer/src/poller.ts:336-341 | one group for each ledger, in the order of their first events, and in it exactly the events of that ledger in page order |
| Poller.SortedPageKeepsOrder | indexer/src/poller.ts:336-343 | a page in ledger order is processed in its own order |
| Poller.PageProgress | indexer/src/poller.ts:343-388 | a page is processed up to the first group behind the last ledger, and completely exactly if there is none |
| Poller.HighestIsMaximum | indexer/src/poller.ts:383-387 | the recorded ledger is the maximum of the start value and the positive ledgers processed |
| Poller.RoundSpec | indexer/src/poller.ts:220-431 | a round processes a prefix of what was delivered, stops exactly when that is out of order, and moves and saves the cursor exactly when the last page was reached |
| Poller.SavesOnlyCompleteRounds | indexer/src/poller.ts:402-416 | a cursor is saved exactly when every event of every page was processed and no re-org was seen, together with the highest ledger |
| Poller.ReorgRewinds | indexer/src/poller.ts:347-400 | a re-org saves nothing and sets the resync point five ledgers below the last one, never below ledger 1; nothing else sets one |
| Poller.RequestsChain | indexer/src/poller.ts:279-330 | each request follows the paging token of the page before it or repeats a rate-limited one; no page is skipped |
| Poller.FirstRequest | indexer/src/poller.ts:235-272 | a round starts at the pending resync ledger, else at the cursor, else at the network's latest ledger |
| Poller.ResyncForgottenIff | indexer/src/poller.ts:238-242 | a resync point is lost together with the cursor exactly if the round that takes it up meets no re-org and ends without a cursor |
| Poller.RoundIsSafe | indexer/src/poller.ts:220-470 | one round is safe: ledgers ascend, `lastProcessedLedger` is the highest processed, every save names the highest at that time |
| Poller.RunIsSafe | indexer/src/poller.ts:220-470 | the same over every run, across re-orgs, failed pages, rate limits, failed saves and lock contention |
| Poller.LastNeverDecreases | indexer/src/poller.ts:383-387 | `lastProcessedLedger` never decreases on any run |
| Poller.SavedLedgersNeverDecrease | indexer/src/poller.ts:412-414 | of two saves the later never names a lower ledger |
| Poller.SavesRiseAcrossRestarts | indexer/src/poller.ts:187-209 | over processes that die or are stopped at any point and start again, neither the ledger in the file nor the ledgers of the saves ever decrease, as long as each start and shutdown finds SQLite current or without a cursor |
| Poller.NoSilentLossKeepsCurrent | indexer/src/db.ts:97-131 | that is so on every life in which no save reaches the file without reaching SQLite |
| Poller.RestartIsSafeIff | indexer/src/db.ts:73-95 | the ledger in the file cannot fall after a restart exactly if the SQLite row has no cursor or is not behind the file |
| Poller.ShutdownIsSafeIff | indexer/src/poller.ts:200-209 | a save on shutdown, which writes the stored ledger again, lowers the one in the file exactly if it reaches the file while SQLite is behind |
| Poller.SilentLossLowersLedger | indexer/src/db.ts:106-130 | 10 saved, 20 saved with SQLite failing unnoticed, a restart, 12 saved: what is stored falls from 20 to 12 |
| Poller.StuckWhileBehind | indexer/src/poller.ts:360-364 | as long as re-fetched pages start below the last ledger, no round processes or saves anything |
| Poller.RetryLooksLikeReorgIff | indexer/src/poller.ts:343-364 | when the pages of a failed round come back, the retry sees a re-org exactly if they span two ledgers |
| Poller.PollLoop.PollRound | indexer/src/poller.ts:235-431 | one call of the loop moves cursor, last ledger, resync point, processed events, saves and requests exactly as the specification says |
| Poller.PollLoop.SaveCursorTo | indexer/src/db.ts:97-131 | a save writes cursor and ledger to each store that takes it, and fails exactly if the file does |
| Poller.PollLoop.ProcessPage | indexer/src/poller.ts:334-393 | the grouping loop and the nested ledger and event loops refine the page specification |
| EventDedup.RecencyMembers | indexer/src/poller.ts:112-135 | the reference order lists each key ever added once |
| EventDedup.RecencyOrder | indexer/src/poller.ts:124-135 | ... by its last addition |
| EventDedup.AddKeepsRecent | indexer/src/poller.ts:124-135 | adding to the most recent keys that fit gives the most recent keys that fit, for a new, a known and an evicting key |
| EventDedup.RankIsOthersSince | indexer/src/poller.ts:124-135 | the position of a key from the end is the number of distinct other keys added since |
| EventDedup.ForgottenIff | indexer/src/poller.ts:124-135 | a key is forgotten exactly if at least as many other keys as fit were added since its last addition |
| EventDedup.EventKeyInjective | indexer/src/poller.ts:154 | two events share a key exactly if transaction and index are the same |
| EventDedup.EventDedupCache.Add | indexer/src/poller.ts:124-135 | the cache holds the most recently added distinct keys after every add |
| EventDedup.EventDedupCache.Size | indexer/src/poller.ts:136-138 | the size is the number of distinct keys, up to the capacity |
| EventDedup.EventDedupCache.RecordProcessedEvent | indexer/src/poller.ts:147-160 | an event is refused exactly if it was accepted before and fewer than the capacity of others were accepted since |
| FaultTolerantPoller.AnsweringSpec | indexer/src/faultTolerantPoller.ts:47-53 | the answering ledgers of the window, newest first |
| FaultTolerantPoller.HolesMembers | indexer/src/faultTolerantPoller.ts:56-65 | the nested loops list exactly the ledgers between two answering ones |
| FaultTolerantPoller.HolesDistinct | indexer/src/faultTolerantPoller.ts:56-65 | ... each once |
| FaultTolerantPoller.MissingMembers | indexer/src/faultTolerantPoller.ts:42-71 | a ledger is reported exactly if it stays silent between two ledgers of the window that answer |
| FaultTolerantPoller.DetectReorg | indexer/src/faultTolerantPoller.ts:42-80 | reports without duplicates exactly those ledgers, and nothing when the lookup throws |
| FaultTolerantPoller.PlanSpec | indexer/src/faultTolerantPoller.ts:88-100 | each ledger is handled and then saved, once, in order |
| FaultTolerantPoller.AttemptCursor | indexer/src/faultTolerantPoller.ts:275-298 | an attempt leaves the cursor at the last ledger it finished, which is the current one exactly on success |
| FaultTolerantPoller.AttemptCursorInWindow | indexer/src/faultTolerantPoller.ts:275-298 | an attempt moves the cursor only to the current ledger or into the window below it |
| FaultTolerantPoller.SuccessRecoversEachOnce | indexer/src/faultTolerantPoller.ts:276-295 | the successful attempt saves each missing ledger once and then the current one, and no other |
| FaultTolerantPoller.FailedQueriesGoUnnoticed | indexer/src/faultTolerantPoller.ts:112-137 | success and the ledgers saved do not depend on whether the event queries worked |
| FaultTolerantPoller.NothingPassedOverIff | indexer/src/faultTolerantPoller.ts:84-137 | a successful attempt has handled all events of all ledgers it saved exactly if each of them has no events, or its query answered and it has no more than the 100 that one query returns |
| FaultTolerantPoller.Poller.Recover | indexer/src/faultTolerantPoller.ts:84-108 | ledgers are handled and saved in order up to the first failure, which is passed on |
| FaultTolerantPoller.Poller.Attempt | indexer/src/faultTolerantPoller.ts:275-298 | one pass through the loop body performs the plan up to the first failure |
| FaultTolerantPoller.Poller.PollWithFaultTolerance | indexer/src/faultTolerantPoller.ts:267-331 | at most the configured attempts, another one exactly after an RPC error; success leaves the cursor at the current ledger and returns the next, and the cursor moves only to the current ledger or into the window below it |
| OracleMessage.BigEndianRoundTrip | backend/src/oracle/OracleService.ts:202-206 | reading back n big-endian bytes gives the number written |
| OracleMessage.DecodeBuilt | backend/src/oracle/OracleService.ts:200-214 | from a message followed by anything, match id, outcome and signed timestamp are read back and the rest is left over |
| OracleMessage.MessageLayout | backend/src/oracle/OracleService.ts:200-214 | byte by byte: the length in four bytes, the match id, the outcome as 0 to 3, and the timestamp in eight bytes of two's complement; it exists exactly if both numbers fit |
| OracleMessage.MessagesArePrefixFree | backend/src/oracle/OracleService.ts:200-214 | no message is a prefix of another report's, so distinct reports never share one |
| OracleMessage.LengthPrefixIsXdrIff | backend/src/oracle/OracleService.ts:202-213 | the message begins with an XDR string (section 4.11 of RFC 4506) exactly if the match id's length is a multiple of four |

## Left out

- HTTP, Express, zod schemas, SQL text, Redis commands, timers, logging and metrics: they appear only as steps and answers that may succeed or fail.
- StellarIndexer.Indexer.RecordProcessedRange: treats a failed COMMIT as a rollback and folds the Redis writes into the set of values that a later read may return; `LedgerTracker.dfy` has them as separate steps.
- StellarIndexer.Indexer.PollOnce: takes the ranges it reads to be compact, as every list is that the tracker stores or caches.
- Payouts.BatchPayout: requires the side's pool with the bet added to be non-zero, which positive amounts guarantee; BigInt division would throw otherwise.
- LedgerRanges.FindMissingRanges: requires ranges with `start <= end`, which is what the table and its copies hold.
- StellarIndexer.ts `handleBetPlaced` (lines 591-652) and the other event handlers there: deprecated copies of EventProcessor.ts.
- StellarIndexer.ts `processLedger`: how a ledger's events are fetched and parsed is not modelled; a call settles its ledger, reports it unavailable, or fails.
- WebhookDelivery: signing, HTTP delivery and timeouts are the worker's success or failure; the timing assumption stands in for the 10-second timeout.
- EventProcessor: claims, notification jobs and engagement streaks; they do not touch pools or bets, but a replayed resolution or cancellation inserts its notification jobs again. Markets are reduced to status, resolution, pools and fee, bets to market, bettor, side, amount and transaction.
- BetService `recordBet` and `placeBet`: locks and serialization retries around rows whose pools the indexer projects.
- BetPagination: base64url and JSON of the cursor; a cursor is a pair of time and id, or undecodable.
- Payouts: the XLM-formatted numbers and the quote's multiplier, which are floating-point renderings of the exact results.
- AMMService.ts: floating-point odds.
- LiquidityPool: double rounding of `Number`, LP positions, staking and rewards; removal does not update positions in the source either. The lock maps live in memory and are lost on a restart.
- Liquidity requests are atomic; two handlers that interleave between their SELECT and UPDATE are not modelled.
- LedgerContinuity: cancelling and clearing windows, descriptions, and the generated window id; the two clock reads of one queued backfill are one.
- LedgerContinuity.ComputeResyncRange: requires a positive batch size; with zero or less the source's loop does not end.
- Poller.PollLoop.PollRound: leaves out health counters, the gap warning and the maintenance queue, which do not steer the loop.
- Poller: progress after a re-org is not proved, because the last ledger is not rewound and the loop can stay where it is (`StuckWhileBehind`).
- Poller: the distributed lock beyond "held by another process"; events between the last save and a restart are processed again, which is not counted.
- StellarIndexer.StartIndexer: a starting process reads the checkpoint once; the source reads it twice and backfills from the event history if another process moved it in between.
- FaultTolerantPoller: backoff delays and failure labels; a ledger that answers is taken to answer with its own sequence.
- FaultTolerantPoller.Poller.Recover: the handlers of one ledger's events are one action, so a handler that fails halfway counts as not handled.
- OracleMessage: signing, key handling and ScVal building; a match id is its UTF-8 bytes.
- Rust contracts, frontend, leaderboards, notifications, admin exports and the mock route handlers.
