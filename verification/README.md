# Verified models of the Nexus cores

A Dafny model of the parts of Nexus whose correctness depends on interleavings, clocks, retries or
whole runs, with proofs about them. `dafny verify dfyconfig.toml` checks everything. Each module
follows one component; imperative components are classes or methods with loops, proved against
specification functions, and the properties of those functions are lemmas beside them.

- `Text`, `Tokens`, `LockGuard`, `LockProtocol`, `LockAttempts`: the cross-process run lock.
  `LockProtocol` is a state machine of any number of processes against one lock server; `LockGuard` is
  the code one process runs, with its guard, its acquire and the on-demand run; `LockAttempts` carries
  an attempt out as steps of the protocol.
- `Scheduler`, `SleepWall`: the cron loop of one job and the wall-clock deadline of a run.
- `Addresses`, `Takedown`, `TakedownHandlers`: event addresses, the takedown protocol over every
  interleaving, and the handler of PUT events and moderator tags, whose every effect is a step of
  that protocol.
- `Bisection`, `Backoff`, `Resolver`: the homeserver resolver's order, backoff and bindings.
- `Ordering`, `KeysetScan`: keyset-paged scans and the reindex pages they drive.
- `Migrations`, `MediaGate`, `Collection`, `Attachments`, `CsvReport`, `CappedStream`: the migration
  manager, the media gates, the cache-first read, batched attachments, the trust report and the
  capped body reader.

## What is assumed

- Run lock: one job's slot on one server, and one clock, read by all, that never runs backwards.
  `Lags.reply` bounds the time from the acquire timeout to the clock reading that starts the run;
  `Lags.wake` bounds how late a process acts on the end of a chunk of its deadline. No two
  `RedisRunLock` instances share both pid and seed, and no instance mints more than 2^64 tokens:
  `Tokens.MintedCollideIff` shows a token repeats exactly when the counter has gone round. Claims and
  releases may reach the server at any later time or never; runs of the loop and on-demand runs are
  the same attempts.
- Scheduler: everything the loop can observe is a finite script of moments. The script is free in its
  clock readings, timers, job and lock replies; the shutdown channel obeys the rules of a tokio watch
  channel (a new value is a new version, versions never go back, nothing follows the last sender).
  A theorem about every script that may be cut off anywhere is one about every finite part of every
  run. A schedule is a set of ticks with its least tick after an instant.
- Addresses: an abstract parser and renderer that agree with each other (`Addresses.Lawful`).
- Takedown: a removal that reports success, or that nothing was indexed, leaves the record not live
  if nothing was written to it meanwhile. If something was, the removal may or may not have erased it.
  A write becomes visible in parts. A failed event is queued again, any number of times. A
  moderator's tag names the same record each time it is fetched, as a tag's address is derived from
  what it says.
- Reindex: a table that stays fixed during the scan, with distinct keys in the query's order, none of
  them the empty cursor. Rows, or only their other columns, may be unreadable.
- Migrations: the store keeps one node per id, and an id stands for one registered migration.
- Collection and attachments: the graph answers one row per id, in order; a stored file carries its
  own key; ids have at least one part and no colons.
- Report: the score's text has no comma, quote or line break, as the float formatter's has none; the
  details query and the score list are inputs.
- Body reader: `max + 1` fits the machine's integers.

## Where the code and its documentation part

- `check` is documented as mirroring `run`. It does exactly when no registered migration that is done
  is listed as ready (`Migrations.CheckMirrorsRun`); the code names the exception itself (#967).
- A takedown is meant to hold for good. It does in every run exactly when no early end of an event
  that is let happen loses a removal (`Takedown.StaysDownIff`, for any set of ends let happen). Two
  kinds of end do. One is giving an event up while it owes a removal: a PUT that has written
  (`Takedown.GivenUpPutStaysLive`), or a tag whose takedown is stored and not yet carried out
  (`Takedown.GivenUpTagStaysLive`). The other gives up nothing: while such a tag waits to retry its
  removal a second tag takes it down, and its retry stops at its own first check
  (`Takedown.FallenTagStaysLive`). Giving up events that owe nothing, or DELs, is harmless, and so is
  every tag's fall while no tag with a takedown to carry out is itself taken down
  (`Takedown.StandingTagsStayDown`).
- The lease margin keeps runs apart exactly when acquire timeout and lags leave part of it unused
  (`LockProtocol.MutualExclusionIff`); at equality two runs overlap.
- The drop of all shutdown senders is documented as shutdown. While the channel carries `false` it
  starts no run any more, but the loop leaves only by a sleep: a sleep under way ends at its next poll
  unless the clock reaches its tick first, and a later one ends the loop exactly when its tick is not due at the first reading
  (`Scheduler.OutlivesCloseIff`, ensured by `Scheduler.JobLoop.RunJob` for every script). A loop whose
  ticks are always due outlives the close for as long as it is looked on, claiming the lock and
  releasing it without a run (`Scheduler.StayBusy`).
- A multi-staged migration that is flagged in the run that first stores it is not moved to backfill:
  flags are applied to stored migrations only, before new ones are stored. It stays at dual write
  until flagged again (`Migrations.DoneInThreeRuns`, `Migrations.DoneIffStored`).
- Joined keys of colon-free ids are distinct except that the id of no parts and the id of one empty
  part share a key (`Collection.JoinInjective`).
- The report is documented as quoted per RFC 4180, whose section 2 ends lines with a carriage return
  and a line feed. The report ends them with a bare line feed, so a strict reader rejects every report
  (`CsvReport.StrictRejects`); a reader that takes a bare line feed as a line break reads every one
  back (`CsvReport.WriteCsv`).
- A scan with a batch size of zero is finished at once, with nothing handled (`KeysetScan.Reindex`).

## Model

| member | source | states |
|---|---|---|
| LockProtocol.MutualExclusionIff | nexusd/src/jobs/lock.rs:14-33 | over any processes and runs, two runs of a job are never active at once if and only if 5 s plus both lags stay below the 60 s margin |
| LockProtocol.FittingMarginExcludes | nexusd/src/jobs/lock.rs:235-267 | with a fitting margin no reachable state has two running attempts |
| LockProtocol.UsedUpMarginOverlaps | nexusd/src/jobs/lock.rs:19-22 | a margin the lags use up has a reachable state with two running attempts |
| LockProtocol.RunsInsideLease | nexusd/src/jobs/lock.rs:14-33 | every running attempt, cut off by the chunked deadline, is strictly inside the 3660 s lease it took, and still holds the slot |
| LockProtocol.StepKeepsInv | nexusd/src/jobs/lock.rs:235-267 | every step of every process keeps lease, deadline and guard bookkeeping of every attempt |
| LockProtocol.SlotSurvives | nexus-common/src/db/kv/lock.rs:21-42 | no claim or release of another attempt changes the slot of one that counts on it |
| LockProtocol.LateReleaseIsHarmless | nexus-common/src/db/kv/lock.rs:38-42 | a release, however late it lands and whatever the lags, leaves a slot held under another token as it is |
| LockProtocol.ServedReleaseFrees | nexus-common/src/db/kv/lock.rs:10-42 | a release served once its claim has been handled leaves the slot free of its token for good, in every reachable state and whatever the lags |
| LockProtocol.NextClaimIsGranted | nexus-common/src/db/kv/lock.rs:21-42 | after the holder's release, with no claim served in between, the next claim is granted a full lease, however much of the old one is left |
| LockProtocol.SentWhenOwed | nexusd/src/jobs/lock.rs:315-378 | the step that ends an attempt owing a release puts it on the wire, and no step of a process takes it off |
| LockProtocol.OneReleasePerGuard | nexusd/src/jobs/lock.rs:269-378 | an attempt issues one release once it is over, none while armed or when denied, and none can be on the wire during its run |
| LockProtocol.LateRunSleepsOn | nexusd/src/jobs/scheduler.rs:126-139 | a run taken as late as allowed sleeps chunk after chunk to the end of its deadline |
| Tokens.RenderInjective | nexusd/src/jobs/lock.rs:92-100 | equal tokens have equal pid, seed and counter |
| Tokens.TokenIsSpelled | nexusd/src/jobs/lock.rs:92-100 | a token is pid, seed and counter in decimal, in this order, joined by dashes |
| Tokens.MintedCollideIff | nexusd/src/jobs/lock.rs:61-69 | two mints give one token if and only if they are on one instance, whole counter periods apart |
| Tokens.RedisRunLock.NewToken | nexusd/src/jobs/lock.rs:93-100 | the k-th mint carries the k-th counter value, wrapping at 64 bits |
| LockGuard.Guard.Release | nexusd/src/jobs/lock.rs:315-344 | sends the owed release once for its own token, and none when disarmed; says how it went |
| LockGuard.Guard.Drop | nexusd/src/jobs/lock.rs:346-378 | sends what is still owed, and nothing after a release |
| LockGuard.Acquire | nexusd/src/jobs/lock.rs:235-267 | one claim under a fresh token; an armed guard exactly when won, a release at once exactly when the reply does not settle the claim, none when held elsewhere |
| LockGuard.RunOnceLocked | nexusd/src/jobs/runner.rs:21-81 | whatever the replies and the run's end, the attempt issues exactly the releases it owes, and each error, a panic counted as one, comes exactly from its cause |
| LockAttempts.Process.Attempt | nexusd/src/jobs/runner.rs:21-81 | carried out among any other processes, an attempt is a run of the lock protocol, and ends with as many releases as the code's reply leaves it owing |
| LockAttempts.Process.Round | nexusd/src/jobs/scheduler.rs:126-139 | a run is abandoned only once its whole deadline has passed |
| LockGuard.ReleasesAreOnce | nexusd/src/jobs/lock.rs:92-108 | no token is released twice or without having been claimed |
| Scheduler.JobLoop.RunJob | nexusd/src/jobs/scheduler.rs:184-242 | over any clock, ticks fire strictly in order, only once reached, with no backlog; no run starts once shutdown is set or the senders are gone; a lasting shutdown ends the loop within three observations, and a close at the first later tick that is not due; only these stop it; attempts are completed plus skipped |
| Scheduler.OutlivesCloseIff | nexusd/src/jobs/scheduler.rs:141-162 | after the senders are gone the loop is stopped by a later sleep if and only if some tick it waits for is not due at its first reading |
| Scheduler.StayBusy | nexusd/src/jobs/scheduler.rs:198-242 | a closed channel and an always due schedule on which the loop is never stopped, however long the script |
| Scheduler.JobLoop.FireTick | nexusd/src/jobs/scheduler.rs:212-241 | firing a tick chosen past the clock and the last fired tick keeps the order of all fires |
| Scheduler.AnchoredFireIsGood | nexusd/src/jobs/scheduler.rs:207-235 | the tick after the anchor follows the last fired one, and any tick passed over was past when the anchor was read |
| Scheduler.JobLoop.RunLocked | nexusd/src/jobs/scheduler.rs:275-404 | a fire is skipped exactly when stopped or not granted the lock, with the reason; its claim is paid with the releases due; it starts one run at most |
| Scheduler.JobLoop.AcquireAndRun | nexusd/src/jobs/scheduler.rs:290-393 | from the acquire on, the outcome counted is what ended the run, and the guard owes nothing afterwards |
| Scheduler.JobLoop.Race | nexusd/src/jobs/scheduler.rs:336-364 | the run lasts until the first moment of shutdown, result or deadline, and the outcome is the first of these in that order; the deadline has passed only when the clock has moved on by it since the start, so never by a backward step |
| Scheduler.JobLoop.SleepUntil | nexusd/src/jobs/scheduler.rs:251-267 | the clock is read when the sleep begins and again after each timer, and the sleep returns at the first such reading at or past the deadline, or on shutdown |
| Scheduler.JobLoop.SleepChunk | nexusd/src/jobs/scheduler.rs:260-265 | a chunk lasts until its timer is done or the first poll that finds shutdown |
| Scheduler.JobLoop.PollShutdown | nexusd/src/jobs/scheduler.rs:147-162 | fires on an unseen `true` or when the senders are gone; a `false` is consumed and never stops it |
| Scheduler.JobLoop.LookForShutdown | nexusd/src/jobs/scheduler.rs:141-162 | after the value was read as `false`, a pending wait never misses a `true` |
| SleepWall.SleepWall | nexusd/src/jobs/scheduler.rs:126-139 | returns at the first reading that lies the duration past the start, whatever the clock does, and after each one before asks for what is left, or all of it when the clock went back, up to the longest sleep |
| SleepWall.EndsWithinLag | nexusd/src/jobs/scheduler.rs:119-139 | never early, and late by no more than one chunk's lag, however many chunks there were |
| Addresses.OneAddressPerRecord | nexus-watcher/src/events/event.rs:150-162 | corollary of the address format's laws: two accepted events name one record if and only if they carry one address |
| Addresses.LineRoundTrip | nexus-watcher/src/events/event.rs:80-101 | the line an event is kept under is accepted again as that event, spaces in the address included |
| Addresses.LineDecides | nexus-watcher/src/events/event.rs:80-101 | what stands before a line's first space decides its type, all that follows is its address, and no other line is read |
| Addresses.AddressDecides | nexus-watcher/src/events/event.rs:124-170 | an address is accepted exactly when it is the one its handled record renders to; unknown and unhandled resources are told apart |
| Addresses.TargetDecides | nexus-watcher/src/events/moderation.rs:118-138 | corollary: which targets are profiles, which are ignored, and which are rejected |
| Addresses.TakenDownAddress | nexus-watcher/src/events/moderation.rs:118-138 | corollary: however the moderator spells it, the takedown is stored under the one address the record's events carry |
| Addresses.TakeDownIff | nexus-watcher/src/events/moderation.rs:78-138 | corollary: exactly the post, tag and file targets that have an address are taken down, under it; removal at that address deletes that very record |
| Takedown.StaysDownIff | nexus-watcher/src/events/mod.rs:108-224 | for any set of early ends let happen, settled takedowns hold in every run if and only if none of those ends loses a removal |
| Takedown.TakenDownStaysDown | nexus-watcher/src/events/mod.rs:198-224 | with nothing in flight or awaiting retry, a taken-down record is not live, unless an event that owed its own removal ended early |
| Takedown.TakenButLiveIsCovered | nexus-watcher/src/events/mod.rs:203-210 | at any instant a record both taken down and live has an event under way that owes its removal, unless one was lost |
| Takedown.StepKeepsCover | nexus-watcher/src/events/mod.rs:108-201 | every step of every event, failed writes, stored but unheard takedowns and own-address checks included, keeps such an event |
| Takedown.FallenTagStaysLive | nexus-watcher/src/events/mod.rs:115-121 | with nothing given up, a tag that is taken down while it waits to retry its removal leaves its target taken down and live |
| Takedown.GivenUpPutStaysLive | nexus-watcher/src/events/mod.rs:211-224 | a PUT given up at any stage at which it owes its removal leaves a taken-down record live |
| Takedown.GivenUpTagStaysLive | nexus-watcher/src/events/moderation.rs:66-75 | a tag given up at any stage between storing its takedown and removing its target leaves the target live |
| Takedown.StandingTagsStayDown | nexus-watcher/src/events/mod.rs:108-224 | in every run in which no tag with a takedown to carry out is itself taken down, and nothing is given up while it owes a removal, settled takedowns hold |
| Takedown.RecordedBeforeRemoval | nexus-watcher/src/events/moderation.rs:66-74 | whenever a tag is removing its target, the takedown of that target is stored |
| Takedown.TakedownsArePermanent | nexus-common/src/models/takedown.rs:19-30 | a recorded takedown is never lost and keeps the tag that made it |
| TakedownHandlers.Watcher.HandlePut | nexus-watcher/src/events/mod.rs:108-201 | whatever other loops do, an event ends exactly as its checks, its fetch, its write or takedown, and its removals went: done only when every call it came to succeeded. A record that is done with has been written, and with no other loop about it is indexed exactly when it is not taken down |
| TakedownHandlers.Watcher.RemoveIfTakenDown | nexus-watcher/src/events/mod.rs:211-224 | says not taken, down or failed exactly as the address is taken down and the check and removal succeed |
| TakedownHandlers.Watcher.ApplyModeration | nexus-watcher/src/events/moderation.rs:42-75 | the takedown is stored before the removal begins, also when the store's failure hides it; the outcome is that of the two calls |
| TakedownHandlers.Watcher.WriteRecord | nexus-watcher/src/events/mod.rs:137-196 | the write is over exactly when none of its parts failed, and the record is then indexed and its removal owed by the event |
| TakedownHandlers.Watcher.HandleDel | nexus-watcher/src/events/mod.rs:227-250 | a user's DEL removes the record, whether or not it is taken down |
| Bisection.BisectionOrder | nexus-watcher/src/service/user_hs_resolver.rs:279-300 | the result is a permutation of the input: the sorted keys picked in the order of the walk |
| Bisection.PrefixIsSpread | nexus-watcher/src/service/user_hs_resolver.rs:267-278 | after 2^d - 1 lookups no run of keys not yet looked up is longer than n / 2^d |
| Bisection.GapsHalve | nexus-watcher/src/service/user_hs_resolver.rs:279-300 | with every midpoint of depth below d emitted, every remaining gap has at most n / 2^d keys |
| Bisection.OrderByDepth | nexus-watcher/src/service/user_hs_resolver.rs:291-298 | the queue emits all midpoints of one depth before any of the next |
| Bisection.DepthLeftToRight | nexus-watcher/src/service/user_hs_resolver.rs:291-298 | within a depth, intervals are disjoint and midpoints come out from left to right |
| Bisection.LeftHalfFirst | nexus-watcher/src/service/user_hs_resolver.rs:291-298 | a midpoint leaves two halves that make up the rest, the left one as large as the right or larger by one |
| Bisection.OrderEmitsQueued | nexus-watcher/src/service/user_hs_resolver.rs:286-299 | a queue emits exactly the positions its intervals hold, each as often as it is held |
| Bisection.MeasureOfSplit | nexus-watcher/src/service/user_hs_resolver.rs:291-298 | splitting an interval lowers the sum of 2 * size + 1 over the queue |
| Bisection.Walk | nexus-watcher/src/service/user_hs_resolver.rs:283-299 | the loop emits the sorted keys at the positions of the walk |
| Backoff.UnboundBackoff.RetainDue | nexus-watcher/src/service/user_hs_resolver.rs:59-73 | selects exactly the listed users whose wait is over, in order, and keeps entries of listed users only |
| Backoff.UnboundBackoff.RecordUnbound | nexus-watcher/src/service/user_hs_resolver.rs:75-90 | the map stays what the whole history of lookups means: next attempt and doubled wait |
| Backoff.UnboundBackoff.Clear | nexus-watcher/src/service/user_hs_resolver.rs:92-97 | a found homeserver starts the user over |
| Backoff.MissesAfter | nexus-watcher/src/service/user_hs_resolver.rs:59-97 | found or unlisted starts over, an empty lookup adds one, a failed one or another user's changes nothing |
| Backoff.WaitIsPower | nexus-watcher/src/service/user_hs_resolver.rs:75-90 | k empty lookups since the last clear wait min(60 s * 2^(k-1), ttl) |
| Backoff.WaitsOut | nexus-watcher/src/service/user_hs_resolver.rs:55-97 | while listed, with failed lookups or not, a user is selected if and only if its wait is over |
| Resolver.Runner.ResolveUser | nexus-watcher/src/service/user_hs_resolver.rs:469-537 | binding, stale flag and kept record after any history are those the history means; a failed lookup or a graph error changes nothing; any other leaves the binding, flag and record that the lookup itself says; the resolution reports the step truly |
| Resolver.Runner.ResolveAndCount | nexus-watcher/src/service/user_hs_resolver.rs:202-244 | counted transitions to stale minus counted realignments stay equal to the growth of the stale population; no bound homeserver changes; failed grows unless a homeserver was named and the user is bound; the backoff sees the right event |
| Resolver.BoundForGood | nexus-watcher/src/service/user_hs_resolver.rs:469-537 | a bound user's homeserver is the one of its first binding, whatever is looked up later |
| Resolver.ConclusionReports | nexus-watcher/src/service/user_hs_resolver.rs:417-463 | every resolution's labels say the mapping before, whether a homeserver was named and which, why a mapping went stale, and a crossing to stale as they were |
| Resolver.StaleUsersAfter | nexus-watcher/src/service/user_hs_resolver.rs:436-463 | the stale population moves by one exactly with the user's own crossing |
| KeysetScan.Scan | nexus-common/src/db/graph/pagination.rs:40-68 | the loop ends on every advancing step, with the outcome and records of the recursive scan |
| KeysetScan.Reindex | nexus-common/src/db/reindex.rs:82-144 | on any table it stalls if and only if a batch of consecutive rows is unreadable, and otherwise handles exactly the readable rows, in order; an early stop has handled a first part of them |
| KeysetScan.ReindexByString | nexus-common/src/db/reindex.rs:82-144 | the same for the string cursor and batches of 500 |
| KeysetScan.ReindexByRowValue | nexus-common/src/db/graph/pagination.rs:19-35 | the same result for a scan on the composite cursor |
| KeysetScan.ReindexPage | nexus-common/src/db/reindex.rs:96-140 | the cursor of a page is its last readable key, none only when no key could be read |
| KeysetScan.HandledOnce | nexus-common/src/db/reindex.rs:82-144 | what is handled has no repeats and is every readable row |
| KeysetScan.DriveTable | nexus-common/src/db/graph/pagination.rs:40-68 | from any cursor on, unreadable rows at a page's end are fetched again and nothing readable twice |
| Ordering.CursorsOrdered | nexus-common/src/db/graph/pagination.rs:11-38 | strings and row values are strictly and totally ordered, with the default cursor below every key |
| Ordering.LexDecides | nexus-common/src/db/graph/pagination.rs:19-23 | the first column or character that differs decides, and a proper prefix comes first |
| Migrations.CheckMirrorsRun | nexusd/src/migrations/manager.rs:221-247 | check lists exactly what run stores or works on, in order, if and only if no done migration is listed as ready |
| Migrations.TouchedMeans | nexusd/src/migrations/manager.rs:160-217 | what a run touches is exactly what it stores anew or does work of |
| Migrations.MirrorBreaks | nexusd/src/migrations/manager.rs:298-317 | otherwise it lists too few, never too many |
| Migrations.Manager.Check | nexusd/src/migrations/manager.rs:227-247 | each listed id comes with the name of the phase stored before any flag is applied, or `new` exactly when it is not stored |
| Migrations.Manager.Run | nexusd/src/migrations/manager.rs:147-219 | from any state, with any failure, no stored phase passes one whose work has not succeeded; a success has moved every migration on by what it read after flagging, and a failure has moved none by more |
| Migrations.Manager.Advance | nexusd/src/migrations/manager.rs:161-217 | a successful turn stores what follows the phase read, a failed one at most stores a new migration, and no other migration is touched |
| Migrations.Manager.Execute | nexusd/src/migrations/manager.rs:196-216 | the next phase is stored only after the work of this one has succeeded |
| Migrations.DoneInThreeRuns | nexusd/src/migrations/manager.rs:147-219 | a multi-staged migration flagged once: stored by then, it is done after exactly three successful runs, having run backfill, cutover and cleanup once each in order; first stored by that run, it stays at dual write and does nothing |
| Migrations.DoneIffStored | nexusd/src/migrations/manager.rs:151-180 | after the flagged run and others, it is done if and only if it was stored before the flagged run and two more have followed |
| Migrations.SuccessesMoveOn | nexusd/src/migrations/manager.rs:160-217 | with failed runs anywhere between, each successful run moves it on by a phase at least and none takes it back |
| Migrations.DoneByThirdSuccess | nexusd/src/migrations/manager.rs:147-219 | with failed runs between, the third success leaves it done if and only if it was stored before the flagged run |
| Migrations.SingleStagedInOneRun | nexusd/src/migrations/manager.rs:168-216 | a new single-staged migration is stored, backfilled once and done in its first successful run |
| Migrations.RunMovesOn | nexusd/src/migrations/manager.rs:25-34 | a successful run leaves each registered migration at the phase that follows the one it read |
| Migrations.RunWorksOnce | nexusd/src/migrations/manager.rs:190-208 | a run does the work of the phase it reads, once |
| MediaGate.StepKeepsInv | nexus-webapi/src/media/concurrency.rs:98-163 | every step of queued, fail-fast, timed-out and cancelled callers keeps permits and counters in account |
| MediaGate.PermitsConserved | nexus-webapi/src/media/concurrency.rs:19-50 | free plus held permits equal the capacity at every point |
| MediaGate.QueueIsBounded | nexus-webapi/src/media/concurrency.rs:98-120 | callers in a queue never exceed its cap, and the counter is those plus the rejected ones not yet counted out |
| MediaGate.TryDecides | nexus-webapi/src/media/concurrency.rs:98-112 | a call is granted at once exactly when fewer permits are held than there are, refused at once when its gate does not queue or there are none at all, and queues otherwise |
| MediaGate.EnterDecides | nexus-webapi/src/media/concurrency.rs:149-157 | a caller is parked exactly when the queue, with those yet to count themselves out, is below its cap, and turned away otherwise |
| MediaGate.WaitEnds | nexus-webapi/src/media/concurrency.rs:114-119 | a parked caller can be granted any freed permit and then holds it; one turned away leaves without one |
| MediaGate.IdleGateCountsZero | nexus-webapi/src/media/concurrency.rs:145-163 | the counter is zero if and only if no counted caller is left |
| MediaGate.GatesAreSeparate | nexus-webapi/src/media/concurrency.rs:122-143 | a caller touches no counter but its own gate's, and a fail-fast caller none |
| MediaGate.FailFastNeverWaits | nexus-webapi/src/media/concurrency.rs:135-143 | a fail-fast caller is only ever trying, holding or gone |
| Collection.Store.GetByIds | nexus-common/src/models/traits.rs:43-72 | for any mix of hits, misses and repeats the answer is the graph's at every position, the cache still agrees with the graph and holds every found id |
| Collection.Store.PutToIndex | nexus-common/src/models/traits.rs:113-135 | found records are cached under their own ids and no agreement is broken |
| Collection.JoinInjective | nexus-common/src/models/traits.rs:13-23 | keys of colon-free ids are equal if and only if the ids are, but for no parts and one empty part |
| Attachments.BatchIsSingle | nexus-webapi/src/models/post.rs:57-106 | the batch gives each post what reading it alone gives: same attachments, order and repeats |
| Attachments.SingleInOrder | nexus-webapi/src/models/post.rs:39-49 | a post read alone holds the file of each of its attachments that leads to one, position by position, in order and with repeats |
| Attachments.LookupIsRecord | nexus-webapi/src/models/post.rs:78-84 | the batch's lookup holds a URI's key exactly when its file exists, and then that file |
| Attachments.FoundByKey | nexus-webapi/src/models/post.rs:111-148 | what is fetched is exactly the existing files the well-formed URIs name |
| CsvReport.WriteCsv | nexusd/src/trust/export.rs:75-101 | read with bare line feeds as line breaks and otherwise by the grammar of section 2 of RFC 4180, the report is the expected records, for any names, ids and counts; read strictly it is rejected |
| CsvReport.StrictRejects | nexusd/src/trust/export.rs:75-77 | a strict reader rejects whatever begins with the report's first line |
| CsvReport.RecordsAlign | nexusd/src/trust/export.rs:80-101 | the records are the header, then each score's own, in order |
| CsvReport.RecordShape | nexusd/src/trust/export.rs:83-100 | under each of the thirteen header names stands that value: id and name with an apostrophe in front exactly when they start with one of six characters, the score, and ten counts in decimal |
| CsvReport.DetailsAreLast | nexusd/src/trust/export.rs:53-73 | a score's details are those of the last row for its id |
| CsvReport.ReadField | nexusd/src/trust/export.rs:138-149 | a written field, whatever it holds, reads back as itself with the trigger prefix applied |
| CappedStream.ReadStreamCapped | nexus-watcher/src/homeserver/fetch.rs:26-47 | for any chunking the first min(length, max + 1) bytes are kept, and exceeded is reported if and only if the length is over max |
| CappedStream.FetchCapped | nexus-watcher/src/homeserver/fetch.rs:56-75 | with an absent or truthful Content-Length exactly the bodies of at most max bytes are accepted, whole |

## Left out

- Several jobs in one process: `supervise`, its task set and its reports; a panic appears only as an attempt that ends with its guard dropped.
- Clock steps and suspension in the mutual exclusion proof; for sleeps alone, `SleepWall` and `Scheduler` allow any clock.
- Freeing of a slot whose claim lands after its release: it stays held until its lease runs out, and no bound is proved on skipped fires meanwhile.
- Metrics, logging and tracing, except the counters the proved identities are about.
- Cron parsing and calendar arithmetic, and the construction-time checks of a schedule.
- URI parsing and the `pubky-app-specs` crate, which is not part of this model; its parser and renderer are parameters.
- Retry scheduling: its nonces, delays and limits. A failed event may be retried at any time or given up; an entry overwritten in the queue counts as given up.
- Moderation of profiles, which deletes the user and records nothing; and the choice of moderated labels.
- How soon a taken-down record is removed: the proofs say only that it is gone once its events have settled.
- The bodies of the post, tag and file handlers: a write makes the record live, a removal makes it not live.
- The resolver's run around one user: its summary, shutdown, and population gauges.
- Deadlock freedom and fairness of the semaphore's queue; sizing of the queue from the number of permits.
- Migration files, registration and the dual-write hook.
- Keys of collections other than joined parts, and reindexing through `extend_on_index_miss`.
- The report's file name, directory and writing to disk; the graph queries behind its rows.
- Content of error bodies and their trimming for logs.
- HTTP, Redis and Neo4j access: only the contracts listed above.
