# DOKI inventory engine: a verified model

This project models the inventory engine of the DOKI hotel backend in Dafny and proves what its two
tiers keep, over every run and every interleaving.

**The Redis fast path.** A hold increments one counter per night and lists the night's key under the
hold's token; both expire. `RedisStore` has the two Lua scripts as atomic steps of a store, and a class
whose methods are proved to perform them. `HoldAccounting` proves what any sequence of these steps (by any
number of clients, with time passing in between) does to counters, token lists and capacity.
`Acquisition` and `HoldAdapter` are the multi-night acquisition with its `EVALSHA`-then-`EVAL` retry and its
rollback, on a Redis that others use at the same time and over a network that loses requests and replies.
`Reservations`, `HoldService` and `HoldSweeper` are the reservations table, the hold with its compensation,
and the sweep. `HoldLifecycle` interleaves any number of calls, retries, rollbacks, compensations, crashes,
sweepers, status changes and clock ticks in one step machine.

**The PostgreSQL tier.** `Allocations` has the `daily_allocations` table and its operations one at a time;
`AllocationTransactions` interleaves any number of commits and chunk upserts lock by lock and proves them
serialisable in commit order, free of deadlock and terminating, where a stay's nights are counted right.
`SerialOrder` proves that bookings of any stays are strictly serialisable, in the order in which they take
effect (a booking at its UPDATE, a batch at its commit), and that no night is overbooked. `MiscountedStays`
shows that the hypotheses cannot be dropped: every stay that commit order leaves out breaks it, and every
stay that deadlock freedom leaves out can deadlock.

**The rest.** `RollingGenerator` (the chunked horizon refines a day-by-day upsert), `SearchAgreement` and
`SearchPaging` (search against commit; grouping and paging), `Idempotency` (the lock and replay protocol) and
`Money`. `StayNights` compares the three ways in which the code enumerates a stay's nights.

How things are represented: instants are integer seconds in UTC, dates are day numbers, identifiers are
numbers or strings; clocks, fresh tokens and ids, and the fate of each round trip (`Delivery`: it ran and
replied, it ran but the reply was lost, it never ran) are parameters. What other clients do between two
calls of ours is an arbitrary sequence of operations. Ghost results (`trace`, `acquired`, `gone`, ...) name
what happened so that contracts can speak of it.

Hypotheses used, each a predicate:

- `Quiet`: no expiry fires in the run. Needed only where every counter is to equal its token lists exactly.
- `KeepsToken`: the token spoken of does not expire; any other key may. `PromptKeepsToken` has it from less
  than the TTL passing after each of the token's holds.
- `GivesBack`: a token's releases find their night counted. It is exact for net effect
  (`OwnChangeIsListedIff`).
- `NeverOrphans`: one night's counter never expires under a token that lists it. It is exact for dominance
  (`DominanceThroughoutIff`) and for overselling (`NeverOversellsIff`), and implies `GivesBack` for the night.
- `Punctual` / `ClockWaits`: one TTL, and a clock that stands still while an acquisition in flight has counted
  the night; then it is never orphaned. `SlowAcquisitionOversells` is a run in which the clock moves, and a
  night is oversold.
- `WellFormed` / `Orderly`: a valid stay's hours/24 count is the number of dates in its range, as it is for all
  stays of whole days (`WholeDaysCountNights`); or, for `Orderly`, it is zero. Batches are in date order.
- `LockOutlasts`, `CacheHolds`: a key's lock does not expire under its owner; its stored response is not lost.
- `Network`: what the network and the others may do during one call.

Where code and documentation differ, the model follows the code:

- Holds last 15 minutes (`internal/domain/inventory/hold_service.go:14`), not the 10 of `README.md:229` and
  `README.md:389`.
- `internal/domain/inventory/hold_service.go:49-52` says that no capacity is ever left decremented without a
  reservation. `OrphanIff` says exactly when it is, until the hold expires: a hold was granted, and neither a
  release nor the INSERT ever ran. `FailedReleasesStrand` is such a run.
- `internal/adapter/repository/postgres/reservation_repo.go:195` says that `SKIP LOCKED` prevents races between
  sweepers. The query is not in a transaction, so its locks end with it and sweepers may work on the same
  rows; `HoldLifecycle` lets them.
- `internal/adapter/http/middleware/idempotency.go:44-45` says "exactly once". `HandlerCanRunTwice` is a run with
  two executions and nothing expired, and `ExecutesIff` says exactly when a handler runs again.
- The recorder keeps the last status written, while the response sent has the first. A replay therefore equals
  the recorded response, and what the first client received only for handlers that write one header
  (`RecordedIsSent`, `TwoHeadersDiffer`).
- `README.md:256` promises freedom from deadlock by lock order. `NoDeadlock` proves it for all stays but those
  of `MiscountCanDeadlock`, whose hours/24 count is positive and falls short of their dates.

## Model

| member | source | states |
|---|---|---|
| StayNights.LoopDaysAreConsecutive | internal/adapter/cache/redis/inventory_hold_adapter.go:74-76 | the 24-hour loop terminates and visits consecutive dates from the check-in date on, one per started day |
| StayNights.SqlCountIff | internal/adapter/repository/postgres/inventory_repo.go:122 | the hours/24 count never exceeds the dates of the SQL range, and equals them exactly when the check-out clock time is not before the check-in one (and the duration does not saturate) |
| StayNights.SqlCountIs | internal/adapter/repository/postgres/inventory_repo.go:122 | the count is the dates of the range, one less when the check-out clock time is before the check-in one, and at most 106751 |
| StayNights.LoopMatchesSqlIff | internal/adapter/cache/redis/inventory_hold_adapter.go:74-76 | the loop and the SQL range visit the same dates exactly when the check-out clock time is not after the check-in one; otherwise the loop adds the check-out date |
| StayNights.HoldKeysCoverRange | internal/adapter/cache/redis/inventory_hold_adapter.go:74-76 | the keys held contain every night of the SQL range, and nothing else unless the check-out clock time is after the check-in one |
| StayNights.EnumerationsAgreeIff | internal/adapter/repository/postgres/inventory_repo.go:78-87 | loop, range and count describe the same distinct dates exactly for stays of whole days |
| HoldAccounting.HoldEffect | internal/adapter/cache/redis/scripts/inventory_hold.lua:9-24 | a granted hold adds one to its night, on the counter, in the token's list and in the total over all lists, and nothing anywhere else; a refused one adds nothing |
| RedisStore.Redis.InventoryRelease | internal/adapter/cache/redis/scripts/inventory_release.lua:6-31 | the loop over the token list performs the atomic release step, whole new state and reply |
| RedisStore.DecrAllEffect | internal/adapter/cache/redis/scripts/inventory_release.lua:23-28 | releasing takes each night's multiplicity in the list off its counter, never below zero, and moves no expiry |
| RedisStore.ReleaseIsIdempotent | internal/adapter/cache/redis/scripts/inventory_release.lua:9-31 | a second release of a token changes nothing and replies 0, so a retry after a lost reply is harmless |
| HoldAccounting.CountersAreSumOfTokenLists | internal/adapter/cache/redis/scripts/inventory_hold.lua:16-22 | while no TTL fires, after any run every counter equals the total multiplicity of its night over all token lists, duplicates by retries included |
| HoldAccounting.OwnChangeIsListedIff | internal/adapter/cache/redis/scripts/inventory_release.lua:23-30 | whatever others do in between and whichever other keys expire, a token that lives takes no more off a counter than its list loses, and its net effect is its list's gain exactly when its releases never meet the script's guard, that is, find their nights counted |
| HoldAccounting.UnorphanedGivesBack | internal/adapter/cache/redis/scripts/inventory_release.lua:24-27 | they do find night k counted while k's counter dominates at first and never expires under a token that lists k |
| HoldAccounting.OwnChangeIsListed | internal/adapter/cache/redis/scripts/inventory_release.lua:23-30 | hence the equality for such a night k, whatever becomes of all other nights |
| HoldAccounting.GoneMeansNoNetEffectIff | internal/domain/inventory/hold_service.go:101-113 | a token absent before and after a run in which its list did not expire has taken nothing off any counter, and has had zero net effect on a counter exactly when its releases found that night counted |
| HoldAccounting.PromptKeepsToken | internal/adapter/cache/redis/scripts/inventory_hold.lua:20-22 | a token's list lives, through any run, while less than the TTL passes after each of its granted holds, and expires by the same measure |
| HoldAccounting.CounterLivesIff | internal/adapter/cache/redis/scripts/inventory_hold.lua:16-17 | after any run, a night's counter is in Redis exactly while less than the TTL of its last granted hold has passed since then, whatever was released |
| HoldAccounting.NoDoubleCredit | internal/adapter/cache/redis/scripts/inventory_release.lua:7-31 | over every schedule, clocks and expiries unrestricted, a token's releases never give back more than its holds took |
| HoldAccounting.TickKeepsDominanceIff | internal/adapter/cache/redis/scripts/inventory_hold.lua:16-22 | letting time pass keeps a night's counter above the token lists exactly when it does not expire under a surviving token that lists the night |
| HoldAccounting.DominanceThroughoutIff | internal/adapter/cache/redis/scripts/inventory_hold.lua:16-22 | a night's counter dominates the token lists in every state of a run exactly when no tick of it orphans that night |
| HoldAccounting.PunctualRunsNeverOrphan | internal/domain/inventory/hold_service.go:14 | a night's counter outlives every token listing it, in any run, when the holds that concern the night use one TTL and tokens listing it are extended only at the instant of their previous hold |
| HoldAccounting.CountersNeverExceedCapacity | internal/adapter/cache/redis/scripts/inventory_hold.lua:9-16 | in any run no counter exceeds the largest capacity ever passed for its night, or its initial value |
| HoldAccounting.LiveHoldsNeverExceedCapacity | internal/adapter/cache/redis/scripts/inventory_hold.lua:9-22 | from an empty store, any mix of holds, rollbacks, releases and expiries in which a night is never orphaned: live holds <= counter <= largest capacity passed for the night |
| HoldAccounting.FillingOversellsIff | internal/adapter/cache/redis/scripts/inventory_hold.lua:9-22 | after any run, filling a night up to a capacity no smaller than any passed so far oversells it exactly when its counter is below its live holds |
| HoldAccounting.NeverOversellsIff | internal/adapter/cache/redis/scripts/inventory_hold.lua:9-22 | a night can be oversold in no state of a run exactly when its counter never expires under a token that lists it |
| HoldAccounting.SlowAcquisitionOversells | internal/adapter/cache/redis/inventory_hold_adapter.go:74-97 | a concrete run in which an acquisition takes time: its first night's counter expires under it and one unit is held twice |
| Acquisition.AcquisitionNetEffect | internal/adapter/cache/redis/inventory_hold_adapter.go:51-53 | while its list lives, a call takes no more off a counter than its list loses, and its net effect is its token's final list (zero once rolled back) exactly when its releases find the night counted; undisturbed, it always is, and is the counter's whole change |
| Acquisition.SuccessAddsOnePerNight | internal/adapter/cache/redis/inventory_hold_adapter.go:73-113 | a successful acquisition whose list has not expired has added exactly one to each of its nights and nothing elsewhere, whatever others do and whatever else expires; one or two where replies were lost |
| HoldAdapter.InventoryHoldAdapter.EvalNight | internal/adapter/cache/redis/inventory_hold_adapter.go:78-97 | one night by EvalSha then Eval: a granted night extends what has been acquired by it, counted twice at most; a refusal means that a hold found the night full, and no answer that two attempts in a row went unanswered |
| HoldAdapter.InventoryHoldAdapter.ReleaseFastHold | internal/adapter/cache/redis/inventory_hold_adapter.go:118-134 | success, or a reachable Redis, means that the script ran and the token is gone; failure means two unanswered calls in a row; an empty token is a no-op |
| HoldAdapter.InventoryHoldAdapter.HoldNights | internal/adapter/cache/redis/inventory_hold_adapter.go:73-111 | the night loop acquires all nights in date order or rolls back; both error paths |
| HoldAdapter.InventoryHoldAdapter.AcquireFastHold | internal/adapter/cache/redis/inventory_hold_adapter.go:54-114 | all or nothing: success lists exactly the stay's nights in date order (a night twice only after a lost reply), whatever other keys expire meanwhile; unavailability is reported only when a hold found its night full, an infrastructure failure only after two unanswered attempts in a row; failure leaves no token once the rollback has reached Redis; undisturbed, it succeeds exactly when every night has room |
| Reservations.HoldBecomesSweepable | internal/adapter/repository/postgres/reservation_repo.go:35-50 | an inserted hold joins the expired ones exactly from its expiry on, and no other row leaves or joins them |
| Reservations.ReservationRepository.GetExpiredHolds | internal/adapter/repository/postgres/reservation_repo.go:196-237 | every row returned is an INVENTORY_HOLD, not locked by others, whose expiry is at or before the cutoff; they are distinct, in expiry order, and at most the limit (100 by default); such a row is left out only when the limit is reached, and then expires no earlier than any returned |
| Reservations.MarkingShrinksBacklog | internal/adapter/repository/postgres/reservation_repo.go:240-257 | marking takes exactly its row from the expired holds, at every cutoff; overlapping sweepers may mark in any order and repeatedly |
| Reservations.GuardedTransitionHasOneWinner | internal/adapter/repository/postgres/reservation_repo.go:156-192 | of any number of callers racing to move a reservation out of a status, with any replies lost, the first to reach the database decides its status for good and is the only one told of success; none if it had another status |
| Reservations.TransitionIs | internal/adapter/repository/postgres/reservation_repo.go:157-192 | a transition takes place exactly on a row with the old status, or on any row if none is asked for; an absent row and a failed guard each have their own error; all other rows stay |
| HoldService.HoldService.CreateHold | internal/domain/inventory/hold_service.go:53-122 | accepts stays that end after they begin and begin today or later; success persists a row whose half-open date range is listed night for night under its token until that expires, and which sweeps find exactly from the returned expiry on, 900 seconds later; failure after acquisition leaves no token unless it calls for reconciliation; a lost INSERT reply may leave the row; undisturbed, room decides |
| HoldSweeper.HoldSweeperService.SweepExpiredHolds | internal/domain/inventory/hold_sweeper.go:33-86 | each row of the batch is released and then marked in turn, whatever others do to the table in between; the count is the acknowledged updates; with Redis reachable every token of the batch is gone, also where the update failed; cancelled or without a batch nothing happens |
| HoldSweeper.UndisturbedSweep | internal/domain/inventory/hold_sweeper.go:54-76 | with nobody else at work, exactly the rows of the batch whose update ran become EXPIRED |
| HoldSweeper.SweepSparesOthers | internal/domain/inventory/hold_sweeper.go:43-76 | an undisturbed sweep changes no row in another status, with a later expiry or none, or locked by others, and of the rest only the status, to EXPIRED |
| HoldSweeper.SweptUnlessChanged | internal/domain/inventory/hold_sweeper.go:67-76 | with others at work, a row whose update ran is EXPIRED afterwards unless they have changed it since |
| HoldSweeper.ElsewhereUndisturbed | internal/domain/inventory/hold_sweeper.go:67-76 | and every other row is what they alone have made of it |
| HoldSweeper.CleanSweep | internal/domain/inventory/hold_sweeper.go:54-85 | a sweep whose updates all succeed expires exactly its batch and returns its size |
| HoldSweeper.AcknowledgedIs | internal/domain/inventory/hold_sweeper.go:67-85 | the count returned is the number of updates whose acknowledgement arrived |
| HoldSweeper.BacklogDrains | internal/domain/inventory/hold_sweeper.go:43-85 | k undisturbed sweeps of size b expire exactly the min(n, k*b) oldest of n expired holds, leave every other row alone, and return counts that add up to that number |
| HoldSweeper.BacklogDrainsRows | internal/domain/inventory/hold_sweeper.go:43-85 | in terms of the columns: k sweeps leave every row in another status or not yet expired as it was, mark as many as they report, and none that expires after one that is left |
| HoldLifecycle.TokenInRedisIff | internal/adapter/cache/redis/scripts/inventory_release.lua:23-31 | in every interleaving a token whose list has not expired is in Redis exactly from its first granted hold to the first release of it that ran, acknowledged or not |
| HoldLifecycle.OrphanIff | internal/domain/inventory/hold_service.go:72-121 | in every interleaving, a token whose list has not expired is in Redis without a reservation exactly when a hold of it was granted and neither a release of it nor its INSERT ever ran |
| HoldLifecycle.NoOrphanHold | internal/domain/inventory/hold_service.go:72-121 | a token whose call is over without a failed release belongs to a persisted reservation if it is in Redis, whatever becomes of all other calls |
| HoldLifecycle.NoOrphanHolds | internal/domain/inventory/hold_service.go:72-121 | so, with no call in flight and no failed release, every Redis token does |
| HoldLifecycle.PersistedHoldsListTheirNights | internal/domain/inventory/hold_service.go:72-99 | in every interleaving, a call comes to its INSERT only with every night of its stay in its token's list, and a token inserted, not released and not expired lists them all |
| HoldLifecycle.CallsEndForAReason | internal/adapter/cache/redis/inventory_hold_adapter.go:78-134 | in every interleaving, a call ends up releasing only when a night was full, two attempts at a night in a row went unanswered, or its INSERT was tried, and is over only after an acknowledged INSERT or release, two unanswered attempts, or its death |
| HoldLifecycle.FailedReleasesStrand | internal/domain/inventory/hold_service.go:99-112 | a concrete run whose releases do not reach Redis and which leaves a counted token without a reservation |
| HoldLifecycle.SweptOnlyAfterRelease | internal/domain/inventory/hold_sweeper.go:54-76 | under any schedule of overlapping sweepers, every tokened row a sweeper expired had its release attempted first, and a token any release of which ran never comes back |
| HoldLifecycle.OnlyExpiredHoldsAreSwept | internal/domain/inventory/hold_sweeper.go:43-76 | in every interleaving, sweepers have in hand, and mark, only rows that were INVENTORY_HOLD and past their expiry when fetched |
| HoldLifecycle.RunsAreTraces | internal/adapter/cache/redis/inventory_hold_adapter.go:74-111 | every interleaving of calls and sweepers is a run of the two atomic scripts and the clock |
| HoldLifecycle.LifecycleAccounting | internal/domain/inventory/hold_service.go:72-121 | in every interleaving: counters are exact while nothing expires; a call whose token is gone without its list expiring took nothing off any counter and had zero net effect exactly when its releases found the night counted; releases never return more than was taken, always |
| HoldLifecycle.WaitingCallsHaveNoNetEffect | internal/domain/inventory/hold_service.go:99-113 | in every interleaving, a call whose token was released within the TTL of its holds had zero net effect on a night's counter, if the clock stands still while an acquisition in flight has counted that night, however many holds of others expired |
| HoldLifecycle.NoOversell | internal/domain/inventory/hold_service.go:72-80 | in every interleaving in which the clock stands still while an acquisition in flight has counted the night, or in which the night is otherwise never orphaned, its live holds never exceed the largest capacity passed for it |
| Allocations.RowsAre | internal/adapter/repository/postgres/inventory_repo.go:82-88 | the range query returns exactly the rows covered, at most one per date, and as many as dates exactly when none is missing |
| Allocations.CommitEffect | internal/adapter/repository/postgres/inventory_repo.go:127-145 | a commit raises every covered night by one, had room for it, changes nothing else and keeps the bounds |
| Allocations.CommitOkIff | internal/adapter/repository/postgres/inventory_repo.go:105-145 | when the nights are counted right, a commit succeeds exactly when every covered night exists with room, and otherwise reports unavailability |
| Allocations.MiscountedCommit | internal/adapter/repository/postgres/inventory_repo.go:122-145 | when they are not, a fully stocked range is always refused for its row count, and any commit that succeeds has missed a night |
| Allocations.MiscountedCommitExample | internal/adapter/repository/postgres/inventory_repo.go:122-145 | such a commit: 14:00 to 11:00 three dates later with the middle night missing succeeds |
| Allocations.WholeDaysCountNights | internal/adapter/http/v1/search_handler.go:118 | stays of whole days have their nights counted right |
| Allocations.UpsertsProtectAllocations | internal/adapter/repository/postgres/inventory_repo.go:204-215 | upserts remove no row, never touch a row with allocations, never change an allocated or blocked count, add exactly the nights named, and keep the bounds |
| Allocations.UpsertIs | internal/adapter/repository/postgres/inventory_repo.go:204-215 | an upsert fails exactly when the proposed counts, or those of the row to be updated, would break the bounds; it inserts where no row is, sets units and rate where nothing is allocated, and leaves all else alone |
| Allocations.InventoryRepository.GetDailyAllocations | internal/adapter/repository/postgres/inventory_repo.go:155-185 | returns the rows of the range, in date order |
| Allocations.InventoryRepository.AcquireHold | internal/adapter/repository/postgres/inventory_repo.go:29-54 | the read-only check accepts exactly the stays that a commit in the same state accepts or refuses only for its row count, so exactly those it accepts when nights are counted right |
| Allocations.InventoryRepository.CommitAllocation | internal/adapter/repository/postgres/inventory_repo.go:65-152 | lock-and-check loop, count check, update and rows-affected check: the whole commit is written when it is due and its COMMIT ran, also when its reply is lost and the call fails; otherwise nothing is, with the right error |
| Allocations.InventoryRepository.BatchUpsertDailyAllocations | internal/adapter/repository/postgres/inventory_repo.go:190-248 | all items are upserted in order or none is; an error leaves all of them exactly when the COMMIT ran unacknowledged; an empty batch is a no-op |
| AllocationTransactions.LockedAllNights | internal/adapter/repository/postgres/inventory_repo.go:96-145 | a locked-row count equal to the night count means that the locked rows are the whole range: no missing night, no phantom |
| AllocationTransactions.CommitIsSerial | internal/adapter/repository/postgres/inventory_repo.go:127-149 | what a transaction writes at its commit, after any interleaving, is its serial execution on the table it finds, and touches only rows it has locked |
| AllocationTransactions.CommitsAreSerialisable | internal/adapter/repository/postgres/inventory_repo.go:82-151 | when nights are counted right: in every reachable state of any number of commits and batches, the table is the serial execution of the committed ones in commit order |
| AllocationTransactions.WellFormedFailsForAReason | internal/adapter/repository/postgres/inventory_repo.go:105-145 | in every reachable state, the step at which a booking whose nights are counted right fails without an abort has met a night of its range that is full, or was missing when it began |
| AllocationTransactions.AloneIff | internal/adapter/repository/postgres/inventory_repo.go:65-152 | a booking run by itself, once done, has committed the table of the sequential commit, or has failed exactly as that reports an error and written nothing |
| AllocationTransactions.AloneProceeds | internal/adapter/repository/postgres/inventory_repo.go:65-152 | run by itself, it can always proceed until it is done |
| SerialOrder.AllBookingsAreSerialisable | internal/adapter/repository/postgres/inventory_repo.go:82-151 | for bookings of any stays: in every reachable state the table is the serial execution of the committed transactions in the order in which they took effect, a booking at its UPDATE and a batch at its commit, each once |
| SerialOrder.OrderRespectsRealTime | internal/adapter/repository/postgres/inventory_repo.go:127-149 | in that order a transaction that had committed before another began comes first: strict serialisability |
| SerialOrder.BoundsAlwaysHold | migrations/000003_init_inventory_schema.up.sql:17-22 | for bookings of any stays the bounds hold in every reachable state: no night is overbooked |
| SerialOrder.JobCommutes | internal/adapter/repository/postgres/inventory_repo.go:127-132 | a booking's effect on its rows commutes with every transaction that avoids them |
| AllocationTransactions.AllocationsAreCommittedStays | migrations/000003_init_inventory_schema.up.sql:17-22 | for stays whose nights are counted right, in every reachable state: allocated_count = initial + committed stays covering the night, the bounds hold, blocked counts never change, and the nights provisioned are the initial ones plus those of committed batches |
| AllocationTransactions.FinishIsReady | internal/adapter/repository/postgres/inventory_repo.go:127-134 | a booking that counts its nights, or holds any row, never waits at its range UPDATE |
| AllocationTransactions.NoDeadlock | internal/adapter/repository/postgres/inventory_repo.go:81-88 | with any jobs whose stays count their nights right or count none, every reachable state with an unfinished transaction has one whose next statement can proceed |
| AllocationTransactions.RunsAreBounded | internal/adapter/repository/postgres/inventory_repo.go:65-152 | with any jobs at all, every step uses up work, so no run is longer than the work its jobs begin with |
| MiscountedStays.MiscountBreaksCommitOrder | internal/adapter/repository/postgres/inventory_repo.go:122-145 | for every other stay, a run among well-formed jobs whose table is not the serial execution in commit order: its first night appears beside it and is never allocated |
| MiscountedStays.MiscountCanDeadlock | internal/adapter/repository/postgres/inventory_repo.go:127-134 | for every stay that NoDeadlock leaves out, a run in which it and another booking wait for each other |
| RollingGenerator.ChunksAreSized | internal/domain/inventory/allocation_service.go:68-73 | the chunks sent are non-empty, at most 100 long, and full except for the last of the horizon |
| RollingGenerator.ChunksRefineDays | internal/domain/inventory/allocation_service.go:54-74 | the chunks concatenate to the days in ascending order without repeats, and their transactions have the effect of upserting day by day |
| RollingGenerator.DaysProvision | internal/domain/inventory/allocation_service.go:54-66 | what upserting the days does to each night, in terms of the columns |
| RollingGenerator.ChunksAreBatches | internal/domain/inventory/allocation_service.go:56-66 | every chunk is a batch as the transaction theorems want it: one room type, ascending dates, nothing allocated |
| RollingGenerator.AllocationService.Provision | internal/domain/inventory/allocation_service.go:54-74 | the day loop over one reused buffer commits consecutive stretches; success leaves every night of the horizon with the given units and rate, nothing allocated where it is new, its blocked units kept, and untouched where it has allocations; on failure of a chunk the table holds exactly the chunks before it, and that chunk as a whole if its COMMIT ran unacknowledged |
| RollingGenerator.AllocationService.GenerateRollingAllocations | internal/domain/inventory/allocation_service.go:34-77 | the same of the days from today on, 365 by default: all of them on success, and on failure those of whole chunks up to the failing one, or through it if its COMMIT ran unacknowledged; all other nights stay |
| RollingGenerator.UpsertsSettle | internal/adapter/repository/postgres/inventory_repo.go:204-215 | after a batch every named night has the batch's total and rate, unless it has allocations |
| RollingGenerator.RepeatedRunIsNoOp | internal/domain/inventory/allocation_service.go:54-74 | repeating a run on the same days changes nothing, where the chunks of the first run were committed at any time among any bookings and any batches with the same total and rate for those days |
| RollingGenerator.CommittedChunkSettles | internal/domain/inventory/allocation_service.go:67-73 | a chunk committed anywhere in such a history leaves each of its nights, for good, with its total and rate or with allocations |
| RollingGenerator.OtherRunsAreHarmless | internal/domain/inventory/allocation_service.go:54-74 | the chunks of any run of another room type, or with the same total and rate, are such batches |
| RollingGenerator.RunCovers | internal/domain/inventory/allocation_service.go:54-74 | after the chunks a run has committed, the nights provisioned are exactly those from before and the days of those chunks |
| RollingGenerator.CommittedRunIsNamed | internal/domain/inventory/allocation_service.go:54-74 | among any other transactions, every day of every run whose chunks were committed is provisioned (with AllocationsAreCommittedStays) |
| SearchAgreement.CommitTimesIff | internal/adapter/repository/postgres/inventory_repo.go:105-145 | a stay can be committed n times over exactly when its rows are as many as its nights and each has n units free, and then each covered night is raised by n |
| SearchAgreement.SearchAgreesWithCommit | internal/adapter/http/v1/search_handler.go:136-148 | a room type listed with min_available = m accepts exactly m successive commits and rejects the next; an unlisted one accepts none (save a stay of no counted night and no row) |
| SearchAgreement.ListedIs | internal/adapter/http/v1/search_handler.go:136-148 | a room type is listed exactly when its rows are as many as the nights counted, at least one, and all have a unit free, with the smallest number free |
| SearchPaging.GroupRows | internal/adapter/http/v1/search_handler.go:164-211 | the scan loop's map and key order are the groups by property in order of first appearance |
| SearchPaging.Search | internal/adapter/http/v1/search_handler.go:164-235 | element i of page p is element (p - 1) * pageSize + i of the groups, as many as remain, at most pageSize, whenever that offset fits; the total is the number of groups, and a wrapped negative offset is the index panic |
| SearchPaging.IdsInOrder | internal/adapter/http/v1/search_handler.go:194-210 | properties appear once each, in the order of their first rows |
| SearchPaging.RowsKeepTheirPlace | internal/adapter/http/v1/search_handler.go:194-210 | every row's room stands in its property at the place given by the earlier rows of that property |
| SearchPaging.RanksAscend | internal/adapter/http/v1/search_handler.go:194-196 | rows of one property keep their relative order |
| SearchPaging.GroupingLosesNothing | internal/adapter/http/v1/search_handler.go:194-210 | the groups together hold exactly as many rooms as there are rows |
| SearchPaging.GroupsAre | internal/adapter/http/v1/search_handler.go:194-210 | each group has the property columns of its first row, and its rooms are those of its rows in their order |
| SearchPaging.PagesConcatenate | internal/adapter/http/v1/search_handler.go:215-228 | the pages, one after the other, are the list without gaps or repeats |
| SearchPaging.ResultsConcatenate | internal/adapter/http/v1/search_handler.go:215-228 | the results for pages 1 to n, one after the other, are the first n * pageSize groups |
| SearchPaging.PageIsRightIff | internal/adapter/http/v1/search_handler.go:216-219 | with the machine's integers a page is the right one exactly when its offset does not overflow, or wraps to beyond the list |
| SearchPaging.OverflowingPage | internal/adapter/http/v1/search_handler.go:216-228 | a page number whose offset wraps to a negative start |
| Idempotency.AtMostOneInside | internal/adapter/http/middleware/idempotency.go:82-108 | in any interleaving, Redis errors, crashes and all expiries of other keys and of abandoned locks included, at most one request with a key is between lock and unlock while its lock does not expire under its owner |
| Idempotency.OwnedExpiryLetsTwoIn | internal/adapter/http/middleware/idempotency.go:18-100 | from every reachable state with one request of a key inside and another past its lookup, that expiry lets the second in beside the first |
| Idempotency.ReplaysRepeatExecutions | internal/adapter/http/middleware/idempotency.go:67-80 | every replay equals the response below 500 of an earlier execution with its key, whatever expires, errs or dies |
| Idempotency.LateExecutionsLookedUpEarly | internal/adapter/http/middleware/idempotency.go:67-123 | once a response is stored under a key, and while it is neither lost nor missed by a failed lookup, only requests that had missed the cache before then can still execute |
| Idempotency.ExecutesIff | internal/adapter/http/middleware/idempotency.go:67-108 | in any interleaving, a request goes on to execute the handler, for the first or another time, exactly when nothing is stored under its key yet or it had missed the cache before the first response was |
| Idempotency.OnlyThenExecuted | internal/adapter/http/middleware/idempotency.go:67-108 | no step of any interleaving executes the handler for a request of which that is not so |
| Idempotency.HandlerCanRunTwice | internal/adapter/http/middleware/idempotency.go:67-108 | one key, two executions, with nothing expired: the cache is not looked up again under the lock |
| Idempotency.ServeIsARun | internal/adapter/http/middleware/idempotency.go:67-123 | a request served alone, with any mix of Redis failures, does what its steps do in the machine: the same cache, an execution exactly when a handler ran, refused exactly on a conflict, replayed exactly on a replay |
| Idempotency.RetryReplaysIff | internal/adapter/http/middleware/idempotency.go:67-123 | a retry replays the first response, and runs no handler, exactly when the first got its lock, answered 200 to 499 and could store that, and the retry's lookup works |
| Idempotency.RecordedStatus | internal/adapter/http/middleware/idempotency.go:28-42 | the recorded status is that of the last header written, or 200 |
| Idempotency.RecordedBody | internal/adapter/http/middleware/idempotency.go:28-42 | the recorded body is all that was written, piece by piece in order |
| Idempotency.RecordedIsSent | internal/adapter/http/middleware/idempotency.go:34-37 | a handler that writes at most one header, before all else, has recorded the status that was sent |
| Idempotency.TwoHeadersDiffer | internal/adapter/http/middleware/idempotency.go:34-37 | one that writes two headers has recorded the last and sent the first |
| Idempotency.IdempotencyMiddleware.ServeHTTP | internal/adapter/http/middleware/idempotency.go:46-126 | pass-through, bad key, replay, conflict (no handler runs while another request owns the lock), fail-open, and execute-store-unlock, each with the whole new cache; a failed lookup or unreadable entry counts as a miss |
| Money.SubUndoesAdd | pkg/types/money.go:48-67 | Sub undoes Add, also when the sum wraps around |
| Money.AddIsExactIff | pkg/types/money.go:48-67 | amounts of different currencies are neither added nor subtracted; of one currency, the result is exact precisely when it fits 64 bits |
| Money.PercentageExactIff | pkg/types/money.go:78-83 | a share is the exact truncated share precisely when the product does not overflow |
| Money.SplitFallsShort | pkg/types/money.go:78-83 | k exact shares of 10000 basis points never exceed the amount in size, fall short by at most k - 1 units, for either sign, and are exact precisely when every share is |
| Money.ResumFallsShort | pkg/types/money.go:48-83 | the same of the code's own Percentage and Add, whenever no share's product overflows |
| Money.RoundTripIff | pkg/types/money.go:86-93 | String can be read back exactly for amounts >= 0 or <= -100 |
| Money.StringExample | pkg/types/money.go:86-93 | 350000 prints as 3500.00 and -1205 as -12.05, each with its currency |
| Money.PrintsAlikeIff | pkg/types/money.go:86-93 | two amounts print alike exactly when they are equal, or opposite and below one major unit |

## Left out

Stated with a hypothesis or weaker than a reader might expect:

- HoldAccounting.LiveHoldsNeverExceedCapacity: the night must never be orphaned, which NeverOversellsIff shows to be exact; the code does not see to it, because each later night of an acquisition refreshes the token's TTL but not the earlier nights' counters (SlowAcquisitionOversells).
- HoldLifecycle.NoOversell: the same, on the interleaved machine.
- AllocationTransactions.CommitsAreSerialisable: bookings must have their nights counted right; MiscountBreaksCommitOrder has all others, and AllBookingsAreSerialisable a different order for them. Batches must be in date order, as the generator's are.
- AllocationTransactions.NoDeadlock: PostgreSQL would end the deadlocks of MiscountCanDeadlock by aborting one side, which the machine allows as Abort.
- HoldSweeper.BacklogDrains: sweeps one after another, without failures.
- SearchAgreement.SearchAgreesWithCommit: the active-status, guest-capacity, region and city filters are taken as passed.

Not modelled:

- The string-key fallback of `inventory_release.lua:10-19`: the hold script only ever writes lists.
- How PostgreSQL, Redis and their drivers work inside: scripts are atomic, row locks are held to the end of a transaction, a row is read when it is locked, and an upsert locks its key.
- The check-violation branch of `CommitAllocation`: the rows it updates are locked and checked, so it cannot be reached by the statements modelled.
- INT and BIGINT ranges of table columns, fractions of a second, time zones and floating-point hours.
- Retries inside the Redis client, whose limit `internal/platform/cache/redis.go:39-48` leaves at the driver's default: each EVALSHA or EVAL runs its script at most once, and none runs after a later call of the same client has returned.
- Any bound on holds and allocations together: no code path connects the two tiers, and the router passes no property repository, so the hold capacity defaults to 100.
- That a CONFIRMED reservation is never expired by a sweep: the update has no status guard, so it is not so.
- That a sweep always gives capacity back: a token that has expired while its counters live on is released to no effect.
- The rows themselves of a reservation beyond dates, status, token and expiry: guest data, booking references, timestamps.
- `ProcessAllActiveProperties` and its counters: loops around the generator, and the property listing they use caps its limit.
- Average rates, the ordering of search rows by the query, JSON, routing, status codes, headers other than the content type, logging and metrics.
- `Multiply`, `Scan` and `Value` of money, and the default currency.
- Accounts, tokens of authentication, roles, property administration and the ledger.
