# outbox-dispatcher in Dafny

The dispatcher turns rows of `outbox_events` into webhook deliveries. This project models the part of it
that is hard to get right and proves what it promises: the delivery-row protocol that any number of
replicas run over one table, the scheduler's cursor, the three readers of an event's callbacks array, and
the smaller pieces of arithmetic and text around them.

## How it is built

- `Table` holds the delivery row and the row-level effect of every SQL statement. Both models below use
  these functions, so a statement means the same in each.
- `Protocol` is a state machine: one database, one clock, any number of dispatch tasks and schedulers.
  Every SQL statement is one step. A task or scheduler that takes no more steps has crashed. A run is
  *well timed* if a holder writes back before its `locked_until` or never. `Leases`, `Attempts`,
  `Progress` and `Cursor` each prove one invariant for every step; `Runs` collects them into theorems
  about every state of every run, or of every well-timed run where a late write-back would break them.
- `Witnesses`, `Budget` and `Stored` build runs, from an empty database, in which the limits of those
  theorems are met: rows that stick, callbacks that are lost, bounds that are attained. `Deadline` bounds
  the time to a dead letter over runs.
- `Callbacks`, `Agreement` and `Interpretation` model the parsers and the sweep's SQL lookup, and show that
  what they produce meets the assumptions the state machine makes about events.
- `Repository` is the class `PgRepo`, whose methods change the two tables in place. `Scheduler`,
  `Dispatch` and `RetentionWorker` are the imperative callers. `Refinement` shows that the statements are
  steps of the state machine.
- `Retry`, `Retention`, `Paging`, `Signing`, `Statistics`, `Conservation`, `Config` and `Utf8` are the
  remaining pieces. `Ordered`, `Decimal`, `Json` and `Basics` serve the others.

Inputs from outside are parameters: the clock, the random draw, the receiver's answer, the point at
which the database fails, the URL check (`Rules.urlOk`), the wording of rejections (`Rules.message`),
PostgreSQL's cast from text to integer (`Cast`), and the MAC (`Hmac`). Times are reals, in seconds.
An event's UUID is identified with its sequential id. Events become visible in id order.

`dafny verify dfyconfig.toml` checks everything.

## What the proofs found

- A callback named `true` or `false` can stick. The sweep compares `cb->>'name'`, which turns a JSON
  boolean into that text, while dispatch compares strings. A delivered row is picked up again exactly if
  the first stored element with its name text has a timeout that casts and a cycle limit that casts or is
  absent, and no waiting row makes a cast fail (`Interpretation.DeliveredExactly`). Behind an element such
  as `{"name": true}` a valid external callback named `true` is delivered and then touched by nothing but an
  operator (`Stored.ShadowedSticks`).
- One such row can stop every sweep. If that element has a timeout that does not cast, the whole UPDATE
  fails, and no delivered row of the table is swept until an operator acts (`Stored.ShadowedBreaks`,
  `Progress.SweepDisabled`).
- The limits of such an element can also replace the callback's own. Locks stay within the callback's own
  limits exactly if the sweep does not read a higher cycle limit for it (`Stored.ExceedsExactly`).
- An earlier invalid element makes dispatch reject a callback of the same name that scheduling accepted
  (`Agreement.RejectedAtDispatch`; exactly when: `Agreement.ScheduledExactly`).
- A crash between the two INSERT statements of an event loses its invalid callbacks until a rescan
  (`Stored.InvalidLost`; exactly when: `Cursor.RecoverExact`). Valid callbacks are never lost
  (`Runs.RecoveredCursorSafe`).
- An abandon while a delivery is in flight is undone exactly when the holder has attempts left
  (`Progress.AbandonDuringFlight`, `Witnesses.AbandonUndone`).
- A row that had been recorded as invalid and is retried sticks once it is delivered, exactly if its target
  is external (`Witnesses.SuccessSticksExactly`, `Stored.OversizedRetrySticks`). It is then counted by no
  statistic (`Statistics.OneKindExactly`).
- Retention deletes an event that was never scheduled on age alone (`Retention.UnscheduledExactly`), and its
  callbacks are then lost (`Stored.UnscheduledLost`).
- A comment at crates/core/src/scheduler.rs:338-339 says the cursor stays at the last fully processed event
  when a pass fails. The code drops the whole pass; the model follows the code.
- README.md:26 of the repository mentions `FOR UPDATE SKIP LOCKED`. The code uses a plain SELECT and a
  conditional UPDATE; the model follows the code.

## Model

| member | source | states |
|---|---|---|
| `Leases.InsertRowsSpec` | crates/core/src/repo.rs:240-247 | an INSERT keeps every existing row, gives every tuple its row, and keeps (event, name) unique |
| `Leases.KeyInvStep` | migrations/0001_initial_schema.sql:68-117 | every step keeps keys consistent, ids unused twice, and the target of every task the one its row's event describes |
| `Leases.LeaseInvStep` | crates/core/src/repo.rs:401-478 | every well-timed step keeps each holder's lease on its row |
| `Leases.LeaseInvRun` | crates/core/src/dispatch.rs:112-138 | so does every well-timed run |
| `Runs.StoreInvStep` | crates/core/src/scheduler.rs:239-362 | every step, well timed or not, keeps the invariants of keys, schedulers, rows and recovery |
| `Runs.StoreInvRun` | crates/core/src/scheduler.rs:239-362 | and so does every run |
| `Runs.InvStep` | crates/core/src/dispatch.rs:103-249 | every well-timed step keeps leases, counts and reach of the sweep as well |
| `Runs.InvRun` | crates/core/src/dispatch.rs:103-249 | and by every well-timed run |
| `Runs.MutualExclusion` | crates/core/src/repo.rs:401-420 | in every reachable state at most one holder per row is in flight, the row carries its `locked_until`, is not dispatched and cannot be locked |
| `Witnesses.LateWriteHappens` | crates/core/src/dispatch.rs:112-116 | a run in which a write-back after the lease ran out strips the next holder in flight of its lease, so that the row can be locked a third time |
| `Attempts.CountInvStep` | crates/core/src/dispatch.rs:171-247 | every well-timed step keeps the balance of locks, attempts and completion cycles of every row |
| `Attempts.BalancedSweep` | crates/core/src/repo.rs:513-541 | a sweep either exhausts the cycles or opens a new epoch of attempts, paid for by one cycle |
| `Attempts.BalancedFailure` | crates/core/src/dispatch.rs:178-181 | a failed attempt keeps the balance although the dead-letter decision uses the fetched attempt count |
| `Runs.BoundedLocks` | crates/core/src/repo.rs:401-420 | in every reachable state, without an operator retry: locks of a row are at most the cycle limit the sweep reads (1 if none) times max_attempts, plus those never written back, plus those fetched stale |
| `Budget.BudgetAttained` | crates/core/src/repo.rs:401-420 | the bound is attained: for every event and external callback there is a run with exactly that many locks, none of them excused |
| `Interpretation.BoundedByTarget` | crates/core/src/repo.rs:499-506 | unless a JSON boolean shadows the name, locks are at most the target's own max_completion_cycles times its max_attempts, plus the excused ones |
| `Stored.ExceedsExactly` | crates/core/src/repo.rs:499-506 | some run exceeds the target's own limits exactly if the sweep reads a higher cycle limit for the stored name |
| `Runs.BoundedAttempts` | crates/core/src/dispatch.rs:218-220 | `attempts` counts the locks since the last reset; a lockable row has used at most max_attempts - 1 of them, plus excused ones |
| `Runs.BoundedAttemptNumber` | crates/core/src/dispatch.rs:93-95 | with accurate fetches and no unwritten lock no attempt is numbered above max_attempts |
| `Progress.TrackInvStep` | crates/core/src/repo.rs:438-451 | every well-timed step keeps live dispatched rows external and acceptable to dispatch |
| `Progress.PickedUpExactly` | crates/core/src/repo.rs:331-335 | a live row is picked up again exactly if it is not dispatched, or is external with a timeout the sweep reads while the sweep statement runs |
| `Runs.NoStuckRows` | crates/core/src/repo.rs:489-511 | a live row from `ensure_deliveries` is external once dispatched, and is picked up again exactly if it is not dispatched or the sweep reads its timeout and runs |
| `Interpretation.DeliveredExactly` | crates/core/src/repo.rs:489-511 | a delivered row is picked up exactly if the first stored element with its name text has limits that cast and no waiting row makes a cast fail |
| `Interpretation.NoStuckDelivery` | crates/core/src/repo.rs:489-511 | while no delivered callback is shadowed by a JSON boolean, no live row from `ensure_deliveries` is stuck |
| `Stored.ShadowedSticks` | crates/core/src/repo.rs:499-506 | a run that delivers a valid external callback behind any boolean-named element with unreadable limits; in every continuation without an operator on it the row stays as it is and is not picked up |
| `Stored.ShadowedBreaks` | crates/core/src/repo.rs:499-511 | if a limit of that element does not cast: no continuation without an operator on the row contains a sweep, and no delivered row of the table is picked up |
| `Witnesses.SuccessSticksExactly` | crates/core/src/repo.rs:295-299 | a success leaves a row that was inserted dead live and out of reach exactly if its target is external and nobody finished it meanwhile |
| `Stored.OversizedRetrySticks` | crates/core/src/scheduler.rs:258-282 | a run in which an oversized event's external callback is recorded as invalid, retried, delivered and stuck |
| `Progress.StuckForever` | crates/core/src/repo.rs:507-511 | a stuck row stays unchanged, neither due nor swept, in every well-timed run without an operator on it |
| `Progress.SweepDisabled` | crates/core/src/repo.rs:499-511 | a row on which a cast fails: in every such run there is no sweep and no delivered row is picked up |
| `Progress.CompletionPermanent` | crates/core/src/repo.rs:694-707 | in every run without a retry, a completed external row keeps its first `processed_at`, and later tasks on it were fetched before |
| `Runs.CompletedStays` | crates/core/src/repo.rs:694-707 | the same from every state of every run, for every completed external row, with nothing assumed of its callback |
| `Progress.GoneStaysGone` | migrations/0001_initial_schema.sql:70-74 | in every run a deleted row id never reappears |
| `Progress.DeadLetterPermanent` | crates/core/src/repo.rs:453-478 | in well-timed runs a dead letter without a holder in flight stays one until retry or deletion |
| `Progress.AbandonDuringFlight` | crates/core/src/repo.rs:709-723 | an abandon during a flight is undone by the failure write exactly when the holder has attempts left |
| `Witnesses.AbandonUndone` | crates/core/src/repo.rs:453-478 | a run in which a row abandoned during its first flight is live and due again after the failure write |
| `Cursor.SchedInvStep` | crates/core/src/scheduler.rs:253-361 | every step keeps, for every scheduler, what its cursor and its position in the batch promise |
| `Cursor.RowInvStep` | crates/core/src/repo.rs:230-255 | every step keeps one row per event and name, and rows only for reported names |
| `Runs.CommitPoint` | crates/core/src/scheduler.rs:177-198 | in every run: each surviving event between a scheduler's starting and current cursor has exactly one row per reported name and no other |
| `Cursor.BaseInvStep` | crates/core/src/repo.rs:558-582 | every step without a rescan keeps the valid callbacks of all events up to any cursor or row scheduled |
| `Runs.RecoveredCursorSafe` | crates/core/src/repo.rs:558-582 | restart safety in every run without a rescan: every valid callback of every surviving event at or below the recovered cursor has its row |
| `Cursor.FullInvStep` | crates/core/src/scheduler.rs:339-357 | as long as recoveries find the newest row's event complete, invalid callbacks are recorded below every cursor too |
| `Runs.NothingUnrecorded` | crates/core/src/scheduler.rs:339-357 | so over every run in which recoveries find it so |
| `Cursor.RecoverExact` | crates/core/src/repo.rs:558-582 | a recovery keeps that promise exactly if the newest row's event is completely scheduled |
| `Stored.InvalidLost` | crates/core/src/scheduler.rs:340-353 | a run that leaves the only scheduler past a stored event whose invalid callback has no row, and no continuation without a rescan gives it one |
| `Stored.NullIsLost` | crates/core/src/scheduler.rs:340-353 | for example the row of a JSON null behind any valid callback |
| `Witnesses.NeverRecorded` | crates/core/src/repo.rs:558-582 | an event that every cursor has passed gets no further row in any continuation without a rescan, whatever restarts and deletions happen |
| `Cursor.BirthInvStep` | crates/core/src/repo.rs:280-308 | every step keeps rows inserted alive traceable to a live tuple of their event's plan, and all other rows managed and, until retried, dead and untouched |
| `Runs.DeadOnArrival` | crates/core/src/repo.rs:280-308 | in every run a row inserted as a dead letter stays one and is never fetched until an operator retries it |
| `Interpretation.OversizedStaysDead` | crates/core/src/scheduler.rs:258-282 | in every run the rows of an oversized event are dead letters, never fetched, until an operator retries them |
| `Config.Validate` | crates/core/src/config.rs:451-558 | the database and dispatch checks find no problem exactly in bounded settings with a pool at least as large as the concurrency cut to 32 bits |
| `Callbacks.TargetWithinLimits` | crates/core/src/callbacks.rs:622-758 | under valid settings every accepted target is within the published limits and has a non-empty backoff |
| `Callbacks.ParseHeadersLoop` | crates/core/src/callbacks.rs:563-620 | the header loop accepts or refuses as its specification says, with the first problem as the reason |
| `Callbacks.DistinctHeaders` | crates/core/src/callbacks.rs:563-620 | accepted header fields differ pairwise in lower case |
| `Callbacks.HeadersNeverClash` | crates/http-callback/src/client.rs:114-137 | accepted custom headers are well formed and never repeat each other or a header `deliver` sets, in any case |
| `Callbacks.ParseOneSpec` | crates/core/src/callbacks.rs:274-390 | acceptance does not depend on the position; a target carries the element's own name; an external one has a timeout; a rejection names the element or its position |
| `Agreement.ParseCallbacks` | crates/core/src/callbacks.rs:169-217 | the loop with its vectors and its set of names computes the specified split |
| `Agreement.ValidExactly` | crates/core/src/callbacks.rs:199-214 | a target is valid exactly if it is the first valid element of its name |
| `Agreement.NothingLost` | crates/core/src/callbacks.rs:186-216 | valid and invalid entries together number the elements, and valid names are distinct |
| `Agreement.EveryLabelReported` | crates/core/src/callbacks.rs:186-216 | every element is reported under its name or position |
| `Agreement.FindName` | crates/core/src/callbacks.rs:243-250 | the first element of that name, or none |
| `Agreement.DispatchAgrees` | crates/core/src/callbacks.rs:229-259 | what dispatch accepts, scheduling accepted as the very same target |
| `Agreement.ScheduledExactly` | crates/core/src/callbacks.rs:229-259 | dispatch returns a target exactly if its element is the first of its name |
| `Agreement.RejectedAtDispatch` | crates/core/src/callbacks.rs:243-258 | any valid callback behind a bare element of the same name is scheduled and then rejected |
| `Agreement.SqlNames` | crates/core/src/repo.rs:504-505 | for a valid name the SQL comparison finds equal strings and the JSON boolean of that text, nothing else |
| `Agreement.SweepFindsExactly` | crates/core/src/repo.rs:499-506 | the sweep reads the element dispatch uses exactly if no element named by that boolean comes first |
| `Agreement.SweepAgrees` | crates/core/src/repo.rs:499-506 | then it reads that target's own timeout, if it has one, and cycle limit |
| `Agreement.ReadingExactly` | crates/core/src/repo.rs:499-506 | the sweep reads limits, or fails, exactly if the texts of the first stored element with that name text cast, or one of them does not |
| `Agreement.BehindBoolean` | crates/core/src/repo.rs:499-506 | behind any element named by the JSON boolean, scheduling and dispatch take the valid callback named "true" and the sweep reads the other element |
| `Agreement.BooleanReadings` | crates/core/src/repo.rs:499-506 | such elements make the sweep read nothing, an error, or limits of their own |
| `Interpretation.InterpretWellMade` | crates/core/src/callbacks.rs:366-390 | under valid settings every parsed event meets the state machine's assumptions |
| `Interpretation.ExternalIsListed` | crates/core/src/repo.rs:230-255 | in every run an external row was inserted by `ensure_deliveries` under a name that its stored event lists |
| `Interpretation.EveryCallbackReported` | crates/core/src/scheduler.rs:373-390 | every element of a stored event gets a row, whichever way the event is scheduled |
| `Interpretation.ExtractNames` | crates/core/src/scheduler.rs:373-390 | one label per element: its name or its position |
| `Scheduler.RunSpec` | crates/core/src/repo.rs:230-308 | the statements of a pass keep existing rows and give every tuple its row |
| `Scheduler.Idempotent` | crates/core/src/repo.rs:240-247 | scheduling twice, at any times, changes no row the second time |
| `Scheduler.BatchSplit` | crates/core/src/scheduler.rs:244-250 | the statements of a batch followed by those of what lies above it are the statements of everything |
| `Scheduler.SameShapeRun` | crates/core/src/repo.rs:240-247 | the clock decides timestamps only |
| `Scheduler.ScheduleEvent` | crates/core/src/scheduler.rs:253-361 | one event's branches run its planned statements up to a database error |
| `Scheduler.ScheduleBatch` | crates/core/src/scheduler.rs:251-361 | the loop runs the statements of the batch in order and stops at the first error |
| `Scheduler.ScheduleNewDeliveries` | crates/core/src/scheduler.rs:239-362 | a pass returns the last id and has scheduled its whole batch, or fails having run exactly the statements before the error |
| `Scheduler.Rescan` | crates/bin/src/main.rs:166-179 | the loop ends after the right number of batches, changes no existing row, and leaves the rows one pass over all events leaves, for every batch size |
| `Scheduler.RescanNothing` | crates/bin/src/main.rs:166-179 | rescanning events that are all scheduled changes nothing |
| `Repository.PgRepo.FetchNewEvents` | crates/core/src/repo.rs:198-228 | the lowest ids above the cursor, in order, up to the limit |
| `Repository.PgRepo.InsertTuples` | crates/core/src/repo.rs:230-308 | inserts the tuples that have no row yet, or fails on a missing event and changes nothing |
| `Repository.PgRepo.RecoverCursor` | crates/core/src/repo.rs:558-582 | the event of the newest row, or 0 |
| `Repository.PgRepo.SelectDue` | crates/core/src/repo.rs:310-343 | due rows ordered by `available_at` and id; a due row is left out only when the limit is reached by earlier ones |
| `Repository.PgRepo.FetchDueDeliveries` | crates/core/src/repo.rs:310-399 | of the selected rows exactly those with a valid callback are returned, the others are dead-lettered, nothing else changes |
| `Repository.AcceptedSpec` | crates/core/src/repo.rs:345-362 | the deliveries returned are distinct selected rows, each with the row's attempts and its callback's target, and no acceptable row is missing |
| `Repository.PgRepo.LockDelivery` | crates/core/src/repo.rs:401-420 | locks exactly a free, undispatched row that is no dead letter |
| `Repository.PgRepo.MarkDispatched` | crates/core/src/repo.rs:422-451 | the success write of the target's mode, on that row only |
| `Repository.PgRepo.MarkFailure` | crates/core/src/repo.rs:453-478 | the failure write, on that row only |
| `Repository.PgRepo.ResetHungExternal` | crates/core/src/repo.rs:480-556 | fails and changes nothing exactly if a cast fails on a waiting row; otherwise exactly the timed-out rows are swept, each counted once as reset or exhausted |
| `Repository.PgRepo.RetryDelivery` | crates/core/src/repo.rs:657-692 | resets a free row; tells a missing row from a locked one; changes nothing otherwise |
| `Repository.PgRepo.CompleteDelivery` | crates/core/src/repo.rs:694-707 | sets `processed_at` once |
| `Repository.PgRepo.AbandonDelivery` | crates/core/src/repo.rs:709-723 | dead-letters the row |
| `Repository.PgRepo.DeleteTerminalEvents` | crates/core/src/repo.rs:905-973 | one retention cycle; an event that goes had only terminal deliveries and was older than the cutoff of its class; the two counts add up to the events removed, at most the limit |
| `Repository.PgRepo.OldestTerminalAge` | crates/core/src/repo.rs:975-1006 | the greatest age of an eligible event, none exactly if there is none |
| `Repository.PgRepo.FetchStats` | crates/core/src/repo.rs:787-878 | the totals, the age of the oldest event with a pending delivery, and one group of counts per callback name |
| `Dispatch.DispatchOne` | crates/core/src/dispatch.rs:103-249 | sends exactly if the lock is taken, numbered one above the fetched count, and writes back what the answer asks for, or leaves the lease if the write fails |
| `Refinement.FetchRefines` | crates/core/src/repo.rs:345-362 | every delivery the repository returns is a fetch step with the same snapshot |
| `Refinement.PoisonRefines` | crates/core/src/repo.rs:363-395 | every row a fetch dead-letters is a poison-pill step |
| `Refinement.BatchRefines` | crates/core/src/repo.rs:198-228 | what `fetch_new_events` selects is a batch of the state machine |
| `Refinement.SweepFailsTogether` | crates/core/src/repo.rs:480-556 | in every run the sweep statement succeeds exactly if the sweep step is enabled |
| `Refinement.SweepRefines` | crates/core/src/repo.rs:480-556 | and then leaves the rows the step leaves |
| `Refinement.RetainRefines` | crates/core/src/repo.rs:905-973 | a retention cycle is an enabled retention step and leaves the machine's tables |
| `Refinement.DispatchRefines` | crates/core/src/dispatch.rs:103-249 | an undisturbed dispatch is a well-timed run of lock, wait and write-back with the same result |
| `Refinement.InsertIsStep` | crates/core/src/repo.rs:230-308 | an INSERT of a scheduler's next statement is the insertion step, and fails exactly if that step is disabled |
| `Refinement.LockIsStep` | crates/core/src/repo.rs:401-420 | a lock is the taking step exactly if it finds the row, else the skipping step |
| `Refinement.DispatchedIsStep` | crates/core/src/repo.rs:422-451 | a success write is the success step, or the losing step if the row is gone |
| `Refinement.FailureIsStep` | crates/core/src/repo.rs:453-478 | a failure write decided on the fetched count is the failure step, or the losing step if the row is gone |
| `Refinement.RetryIsStep` | crates/core/src/repo.rs:657-692 | a retry reports a reset exactly if the retry step is enabled, and is that step |
| `Refinement.CompleteIsStep` | crates/core/src/repo.rs:694-707 | a completion reports the row as found exactly if the step is enabled, and is that step |
| `Refinement.AbandonIsStep` | crates/core/src/repo.rs:709-723 | so does an abandon |
| `Refinement.RecoverIsStep` | crates/core/src/repo.rs:558-582 | a cursor recovered from the repository is the one the recovery step starts with |
| `Interpretation.NoEmptyStatement` | crates/core/src/scheduler.rs:253-361 | no statement that schedules a stored event is empty |
| `Retry.DelayBounds` | crates/core/src/retry.rs:34-54 | the delay is 0.75 to under 1.25 times the longer of Retry-After and the schedule's entry, the last entry repeating |
| `Deadline.PursuedStep` | crates/core/src/dispatch.rs:171-247 | every prompt, well-timed step against a failing receiver keeps the row exhausted, due in time, or leased in time |
| `Deadline.DeadLetterDeadline` | crates/core/src/dispatch.rs:171-247 | in every such run the row is dead-lettered by attempt max_attempts and not before, is due again as soon as its time comes, and is dead-lettered once the summed upper bounds plus max_attempts times timeout, buffer and pick-up have passed |
| `Deadline.DeadlinePassed` | crates/core/src/dispatch.rs:171-247 | for every target and every sequence of answers there is a prompt well-timed run that dead-letters the row and passes that deadline |
| `Deadline.StartsHappens` | crates/core/src/repo.rs:230-255 | every callback that has just been scheduled is where such runs start |
| `Retention.DeletedExactly` | crates/core/src/repo.rs:919-955 | a cycle deletes an event exactly if none of its deliveries is live, the window of its class has passed, and fewer than the limit of such events have smaller ids |
| `Retention.UnscheduledExactly` | crates/core/src/repo.rs:919-955 | a cycle deletes an event without rows exactly by age, and fewer than the limit of eligible events with smaller ids |
| `Stored.UnscheduledLost` | crates/core/src/repo.rs:931-937 | a run in which a retention cycle deletes a stored event before a scheduler reaches it; none of its callbacks gets a row in any continuation |
| `Witnesses.VanishedForever` | migrations/0001_initial_schema.sql:70-74 | an event that is gone without rows never has a row again, rescans included |
| `Retention.NothingLiveDeleted` | crates/core/src/repo.rs:931-937 | no deleted event had a live delivery |
| `Retention.OthersUnaffected` | crates/core/src/repo.rs:905-973 | a deletion changes the eligibility of no other event |
| `Retention.CyclesEmpty` | crates/core/src/retention.rs:126-161 | with fixed cutoffs nothing eligible is left exactly from cycle ceil(n / limit) on |
| `RetentionWorker.RunCycle` | crates/core/src/retention.rs:126-161 | a cycle deletes the lower of the limit and the eligible number, and reports no age exactly if nothing is left |
| `Paging.AtMostOnce` | crates/admin-api/src/routes.rs:123-144 | following the cursor lists ids in descending order, whatever happens to the table between requests |
| `Paging.AtLeastOnce` | crates/admin-api/src/routes.rs:123-144 | an id that matches throughout is listed |
| `Paging.OnlyMatching` | crates/admin-api/src/routes.rs:123-144 | an id that is listed matched when it was |
| `Paging.ExactListing` | crates/core/src/repo.rs:584-614 | on an unchanged table the pages list exactly the matching ids, descending, for any requested limit |
| `Paging.DeadLetterListed` | crates/core/src/repo.rs:584-614 | a row that stays a dead letter is listed exactly once |
| `Paging.ExternalPendingListed` | crates/core/src/repo.rs:616-655 | so is a row that stays external-pending and old enough |
| `Signing.FrameInjective` | crates/http-callback/src/signing.rs:34-40 | the signed bytes determine timestamp and body |
| `Signing.HexRoundTrip` | crates/http-callback/src/signing.rs:58-61 | decoding undoes encoding |
| `Signing.HeaderRoundTrip` | crates/http-callback/src/signing.rs:91-107 | parsing the header gives back the timestamp and the digest |
| `Signing.Sign` | crates/http-callback/src/signing.rs:34-40 | feeding the MAC in two pieces signs the framed message |
| `Signing.Verify` | crates/http-callback/src/signing.rs:52-67 | accepts exactly a header whose digest decodes to the MAC of the framed message |
| `Signing.AcceptedExactly` | crates/http-callback/src/signing.rs:77-89 | a signed request is accepted with any key and body exactly if it is fresh and the MACs agree |
| `Signing.OwnAccepted` | crates/http-callback/src/signing.rs:77-89 | with the same key and body, exactly while it is fresh |
| `Signing.OtherMessageCollides` | crates/http-callback/src/signing.rs:77-89 | accepting a digest for another timestamp or body takes two different messages of equal MAC |
| `Statistics.GroupsSumToTotals` | crates/core/src/repo.rs:793-868 | per-callback counts sum to the totals |
| `Statistics.OneKindExactly` | crates/core/src/repo.rs:793-868 | a row is of exactly one kind unless it is live, dispatched and managed |
| `Conservation.ReachableKind` | crates/core/src/repo.rs:793-868 | no reachable row is of that sort, unless an operator retried one recorded as invalid |
| `Conservation.AddsUp` | crates/core/src/repo.rs:793-868 | pending, awaiting, dead-lettered and done deliveries add up to all deliveries |
| `Statistics.Sampler.Tick` | crates/bin/src/main.rs:533-571 | after every history of ticks each callback ever seen shows its last successful statistics, or zero if absent there, and the lag is that of the last success |
| `Utf8.BoundaryExactly` | crates/core/src/repo.rs:1018 | on valid text the one-byte boundary test finds exactly the valid prefixes |
| `Utf8.Truncate` | crates/core/src/repo.rs:1013-1022 | the longest valid prefix within the limit, at most three bytes short of it |

## Left out

- PostgreSQL isolation, connection pooling and sqlx: every statement is one atomic step.
- The wake loop's LISTEN/NOTIFY, timers, error backoff and shutdown: a wake is a step that may happen at any time.
- `dispatch_due`'s bounded concurrent stream: the state machine allows every interleaving of dispatches, so the bound would only remove runs.
- HTTP, TLS, JSON serialization, Retry-After parsing: the answer to a delivery is an input.
- URL parsing and address checks: one uninterpreted predicate.
- HMAC and SHA-256 internals, constant-time comparison, the keyring.
- 32-bit and 64-bit overflow of counters and ids, and floating-point rounding of the jitter: integers are unbounded and delays are reals.
- Texts of rejection messages, their truncation to 4096 bytes where they are stored, metrics and logs; `Utf8` treats the truncation by itself.
- The log, admin, HTTP client and retention sections of the configuration.
- Poison-pill writes are allowed at any time on a row whose callback is rejected, and retention on any set of events without live rows: the machine has more runs than the program, so its invariants cover the program's.
- Repository.PgRepo.FetchDueDeliveries: the SELECT and its poison-pill writes are one call here; other replicas' statements in between are covered by the state machine, of which each row's part is a step (`Refinement.FetchRefines`, `Refinement.PoisonRefines`).
- Dispatch.DispatchOne: nothing comes between lock and write-back here; interleavings are covered by the state machine, of which the undisturbed call is a run (`Refinement.DispatchRefines`).
- Runs.BoundedLocks: the cycle limit is the one the sweep reads; `Interpretation.BoundedByTarget` and `Stored.ExceedsExactly` say when it is the target's own.
