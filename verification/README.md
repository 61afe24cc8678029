# Webhook delivery, verified

A Dafny model of the webhook delivery system: the attempt rows in PostgreSQL and the
transactions that move them, the program each delivery worker runs over those
transactions, the subscription cache in Redis, the dead-letter queue and its
reconciler, the recovery scan, and the in-process controls (circuit breaker, registry,
semaphore, token bucket, backoff, latency histogram).

`dafny verify dfyconfig.toml` checks the whole project.

## How it is built

| file | what it holds |
|---|---|
| `domain.dfy`, `store.dfy`, `repo.dfy` | the entities; each transaction as a function from tables to tables; `DeliveryLogRepo`, which makes the same transactions as in-place statements and is proved against those functions |
| `ledger.dfy` | the book of births and fates: for each row ever inserted what it was, and for each row no longer live what became of it; soundness of the book under every kind of table change |
| `program.dfy` | the control flow of `Deliverer.Process`, one program counter per run, shared by the two step systems below |
| `lifecycle.dfy`, `preservation.dfy`, `theorems.dfy` | the step system over the tables, its invariant, and what holds in every state of every run |
| `delivery.dfy` | `Deliverer.Process` as a method that performs lifecycle steps, the measure of attempts still owed, and the drain |
| `transitions.dfy`, `provenance.dfy` | the exact cause of every kind of table change, and where the columns of a row come from, over whole runs |
| `loss.dfy` | which step decided what became of a row, and that no accepted webhook is lost silently |
| `sends.dfy` | how often an attempt is sent |
| `controls.dfy`, `breaker.dfy`, `registry.dfy` | the step system over semaphores and breakers, and those objects |
| `targets.dfy`, `reports.dfy`, `protection.dfy` | one breaker per target URL, each breaker as what its runs reported to it, and how it keeps runs from its target, over all runs |
| `cap.dfy`, `overload.dfy`, `deletion.dfy` | the concurrency cap per subscription, and exactly when it is lifted |
| `cache.dfy` | the read-through cache with dirty marks and lock stripes, as a timed step system |
| `reconciler.dfy`, `recovery.dfy`, `scheduler.dfy`, `status.dfy` | DLQ repair, the recovery scan, the retry schedule, the status endpoint |
| `backoff.dfy`, `token_bucket.dfy`, `histogram.dfy` | arithmetic parts with exact specifications |
| `admission.dfy` | the token bucket behind its registry: the rate limit across sweeps and removals |
| `detail.dfy` | the byte truncation of error details, against UTF-8 |
| `keyset.dfy`, `arith.dfy` | ordered selection, and facts about numbers and sets, used by several of the above |

## What is assumed

- Each PostgreSQL transaction is one atomic step; a database error means that nothing
  was applied. Every database call of a run may fail.
- There is one clock and it never goes back. Generated identifiers are never reused.
- Redis is an adversary of the lifecycle: a run may begin for any row id at any time,
  so lost, duplicated and reordered queue entries are all covered. `Crash` ends any set of
  runs at any point between two of their calls.
- In the lifecycle a run's view of its subscription is arbitrary (the cache may be
  behind) and so are the due times of reschedules and retries; `Deliverer.Process`
  computes them exactly.
- A process of the cache or of the controls is alone: these are documented as
  process-local. Each breaker method is one atomic step.
- Configuration is only assumed to satisfy the relations that start-up validates
  (`internal/config/config.go:177-200`).

## What turned out not to hold

Each comes with inputs that show it and with the exact condition.

- The lease is rounded down to whole seconds, so VISIBILITY_TIMEOUT > WEBHOOK_TIMEOUT
  does not by itself make the granted lease outlast the HTTP timeout
  (`Repo.LeaseShorterThanTimeout`). `Repo.LeaseOutlastsTimeout` is the if-and-only-if;
  whole-second settings always meet it.
- A run slower than its lease is not alone: under every configuration there is a run in
  which two workers hold one row (`Theorems.SlowRunIsOvertaken`). A second claim succeeds
  exactly when the lease has ended (`Theorems.OvertakenExactly`).
- The token bucket moves its refill mark even when truncation gives nothing, so a caller
  every 0.9 ms gets a single admission for ever at one token a second
  (`TokenBucket.EagerCallerStarves`). Calls bring the bucket nothing exactly when each
  comes within a thousandth of a token's time of the one before
  (`TokenBucket.StarvesExactly`).
- A subscription is validated by the characters of its URL and an ingest by the bytes, so an
  https URL can be accepted and all its events refused (`Repo.LongUrlIsRefused`). An ingest is
  refused for its URL exactly beyond 2048 bytes (`Repo.DeliveryLogRepo.IngestPending`),
  and the two lengths are equal exactly for plain ASCII (`Repo.BytesAndCharacters`).
- A cache entry left by an earlier process can be served stale (`Cache.LeftoverCanBeStale`).
  A process can have a stale read exactly when Redis serves an untrue copy as it starts
  (`Cache.StaleExactly`), and for at most one TTL (`Cache.GetReturnsTheRow`).
- A not-found answer can be late: creating a subscription takes no lock stripe
  (`Cache.NotFoundCanBeLate`). The row is there at the return exactly if it was inserted
  after the repository read (`Cache.NotFoundExactly`).
- The retry poller can move a row early (`Scheduler.MovedEarly`): exactly within the
  millisecond of its due time, if the batch has room (`Scheduler.MovedEarlyExactly`).
- The self-heal of an early move can miss: a row that falls due between the lost claim and
  the second look is on neither schedule nor list until the recovery scan
  (`Scheduler.HealCanMiss`). It comes back with the poll exactly if it was not yet due at
  the second look (`Scheduler.HealsExactly`).
- The concurrency cap is lifted exactly when the registry forgets a semaphore that some
  run works under or waits for (`Overload.LiftedExactly`). Three things can do that:
  - a final failure that leaves the subscription inactive, by reaching the threshold or
    because an operator had deactivated it, and then a reactivation
    (`Overload.CapCanBeLifted`), exactly when another run works or waits
    (`Overload.FinalFailureLiftsCapExactly`);
  - a sweep past a run slower than the idle time (`Overload.SlowRunLiftsCap`), exactly
    when no other lookup came within that time (`Overload.SweepLiftsCapExactly`);
  - a delete, after which no run reads the subscription active
    (`Deletion.DeleteCanLiftCap`), exactly when a run works or waits, another is about to,
    and together they are more than the limit (`Deletion.DeleteLiftsCapExactly`).
- A final failure can report a disable that was not its own: the comment in the store takes
  the subscription for active, but an operator may have deactivated it while the request
  was out (`Repo.DisabledReportCanBeWrong`). The report is right exactly unless the write
  won and the subscription was inactive before (`Repo.DisabledReportExactly`).
- A swept token bucket comes back full, so a sweep can admit a second burst too early
  (`Admission.ForgottenEarly`). The rate limit holds across all sweeps exactly if a bucket
  fills within the idle time and one more nanosecond (`Admission.BoundedExactly`); the
  default settings meet that, but start-up does not check it. A removal always brings one
  more burst (`Admission.RemovalAddsBurst`).
- A breaker can be swept under a run slower than the idle time, and then two runs to one
  URL meet two breakers (`Protection.ForgottenUnderRun`). Two lookups in one process find
  the same one exactly if every sweep between them came within the idle time of some lookup
  since the first (`Protection.SameBreakerExactly`).

One branch turned out to be dead: no reachable pending row lacks a due time, so the rearm
of lease-less rows never finds one (`Preservation.RearmFindsNothing`). Its loop is still
modelled on all tables.

## Model

| member | source | states |
|---|---|---|
| `Loss.NoSilentLoss` | internal/worker/delivery.go:129-284 | in every state of every run, an accepted webhook has exactly one row that is pending or in the DLQ, or was ended by a step of the run: a recorded 2xx, a drop, an ack, a force-ack past the age or the end of its subscription; it is later than all its other rows, and those neither wait nor were ended so |
| `Loss.FateHasCause` | internal/store/delivery_lifecycle.go:119-250 | behind what became of a row there is the one kind of step that brings it about: the write of a run, a drop, or an ack, replay, force-ack or cascade of that row |
| `Loss.FateExactly` | internal/store/dlq.go:12-145 | a row still live gets a given fate at a step if and only if the step is of the kind that brings it about |
| `Loss.CauseHasFate` | internal/store/delivery_lifecycle.go:119-250 | what such a step decided stays so in every later state |
| `Loss.EndedExactly` | internal/worker/delivery.go:204-284 | a row was ended by a step of the run if and only if nothing continues it |
| `Theorems.Reached` | internal/store/delivery_lifecycle.go:24-357 | the whole invariant holds in every state of every run |
| `Theorems.RowAsBorn` | internal/store/delivery_lifecycle.go:232-239 | no transaction changes the identity, position, event or creation time of a row |
| `Theorems.NeverUndone` | internal/store/delivery_lifecycle.go:122-250 | between any two states of a run, births and fates stay and a cleared DLQ flag stays cleared |
| `Theorems.LeaseExclusion` | internal/store/delivery_lifecycle.go:339-357 | while every claim winner of a row that has not crashed writes inside its lease, no two runs are between claim and write for that row; the leases of other rows do not matter, and runs that crash with a lease are covered |
| `Theorems.OvertakenExactly` | internal/store/delivery_lifecycle.go:345-357 | a second claim of a held row succeeds if and only if the holder's lease has ended, and then both hold it |
| `Theorems.SlowRunIsOvertaken` | internal/store/delivery_lifecycle.go:345-357 | under every configuration, a run from the empty database in which two workers are between claim and write for one row |
| `Theorems.OnlyRunsTouch` | internal/store/delivery_lifecycle.go:252-263 | no step other than a run's own call moves the due time of a row that already exists |
| `Theorems.ChainShape` | internal/store/delivery_lifecycle.go:208-250 | rows of one webhook carry one event at different positions, a live row is the latest, and the surviving rows are the tail of the history in creation order |
| `Theorems.SuccessorSurvives` | internal/store/dlq.go:69-82 | a failed attempt still in the table has its successor beside it |
| `Theorems.DlqIsExhausted` | internal/worker/delivery.go:245-284 | a row in the DLQ used the whole attempt budget and rests on a reply that was not 2xx |
| `Theorems.PendingBounded` | internal/worker/delivery.go:245-264 | every pending row has a due time and an attempt number within the budget |
| `Theorems.ClaimIsSingle` | internal/store/dlq.go:12-28 | the claim of an ack or a replay never matches two rows |
| `Theorems.KeyNamesOneWebhook` | internal/store/delivery_lifecycle.go:38-61 | while a key is retained its record never changes |
| `Theorems.KeyRetained` | internal/store/dlq.go:84-92 | a key stays for the whole deduplication window unless its subscription is deleted |
| `Theorems.IdempotentIngest` | internal/store/delivery_lifecycle.go:15-93 | an ingest with a retained key returns the first webhook, changes nothing, and that webhook has exactly one original first attempt |
| `Theorems.FailureCounter` | internal/store/delivery_lifecycle.go:119-191 | the failure counter is the number of final failures since the last success; a subscription active at the threshold was written active after its last final failure |
| `Transitions.RowComesExactly` | internal/store/delivery_lifecycle.go:24-250 | a row appears if and only if a well-formed submission is accepted, a DLQ row is replayed, or an attempt fails with budget left |
| `Transitions.FirstColumns` | internal/store/delivery_lifecycle.go:70-79 | a first attempt has the webhook, subscription, URL, payload and event type that were submitted and is due at once |
| `Transitions.RetryColumns` | internal/store/delivery_lifecycle.go:232-240 | a retry repeats webhook, subscription, event and chain under the next attempt number, at the chosen time |
| `Transitions.ReplayColumns` | internal/store/dlq.go:49-57 | a replay starts the next chain of a DLQ row of that subscription and webhook, due at once |
| `Transitions.RowGoesExactly` | internal/store/dlq.go:69-82 | a row leaves the table if and only if its subscription is deleted or it is settled and older than the retention |
| `Transitions.DecidedExactly` | internal/worker/delivery.go:165-211 | a pending row that stays is decided if and only if a run with its reply writes or a drop does |
| `Transitions.SettledColumns` | internal/store/delivery_lifecycle.go:122-250 | a run's write records the reply's status and leaves identity and due time alone |
| `Transitions.SuccessColumns` | internal/store/delivery_lifecycle.go:124-126 | a reply from 200 to 299 makes the row a success without error details |
| `Transitions.FailedColumns` | internal/store/delivery_lifecycle.go:221-223 | any other reply below the budget makes it a failed attempt with the reply's details |
| `Transitions.FinalColumns` | internal/store/delivery_lifecycle.go:157-159 | any other reply at the budget puts it in the DLQ with the reply's details |
| `Transitions.PendingColumns` | internal/store/delivery_lifecycle.go:252-357 | a pending row that stays pending changes in due time and stamp alone: to the lease end if and only if it is claimed, to the chosen time if it is put off, to now if it is rearmed |
| `Transitions.DecidedColumns` | internal/store/dlq.go:12-145 | a decided row that stays in the table changes only by leaving the DLQ, and is stamped then |
| `Transitions.DroppedColumns` | internal/store/delivery_lifecycle.go:196-206 | a drop is final, outside the DLQ, without a due time, and says why |
| `Transitions.FlaggedExactly` | internal/store/dlq.go:15-145 | after a step a row is in the DLQ if and only if its last attempt just failed, or it was there and was not acked or replayed by its own subscription and webhook, forced past the age, or cascaded |
| `Transitions.CallSub` | internal/store/delivery_lifecycle.go:134-175 | a run's call adds one to the counter exactly at a final failure, zeroes it exactly at a success, and disables exactly at the threshold |
| `Transitions.CounterIsStreak` | internal/store/delivery_lifecycle.go:119-191 | in every state of every run the failure counter is the number of final-failure writes since the last success write |
| `Transitions.ActiveExactly` | internal/store/delivery_lifecycle.go:168-177 | along every run a subscription is active after a step if and only if an operator just wrote it so, or it was and this is not the final failure that makes those since its last success as many as the threshold |
| `Transitions.SubThereExactly` | internal/store/subscription_repo.go:47-176 | after a step a subscription is there if and only if it was just created, with no failures, or was there and was not just deleted |
| `Transitions.KeyGoesExactly` | internal/store/dlq.go:84-92 | a key is forgotten if and only if its subscription is deleted or it is older than the configured time |
| `Provenance.EventAsSubmitted` | internal/store/delivery_lifecycle.go:15-93 | every attempt ever made for a webhook carries the subscription and event of the ingest that was accepted for it |
| `Provenance.StatusMatchesReply` | internal/worker/delivery.go:195-211 | in every state a success has a status from 200 to 299, and a failed attempt or DLQ row has not |
| `Provenance.StampIsLastChange` | internal/store/delivery_lifecycle.go:122-357 | in every state the update time of a row is a moment since which it has not changed |
| `Provenance.ForcedOnlyWhenOld` | internal/store/dlq.go:125-145 | a row is force-acked only after it has been in the DLQ, unchanged, for the whole configured age |
| `Provenance.ForcedExactly` | internal/store/dlq.go:125-145 | the safety valve takes a DLQ row if and only if it was already there before the configured age began |
| `Provenance.DeletedForGood` | internal/store/subscription_repo.go:162-176 | once a subscription is deleted, it, its attempts and its keys are gone in every later state and nothing is accepted for it |
| `Sends.SendsAccounted` | internal/worker/delivery.go:195-211 | in every state of every run, the requests made for a row are the runs on the way to their write, those lost there, and those that wrote |
| `Sends.OneWrite` | internal/worker/delivery.go:204-211 | with the leases of a row kept, at most one write follows a request for it, and then nobody works on it again |
| `Sends.SentOnce` | internal/worker/delivery.go:141-211 | with the leases of its row kept, an attempt is sent once, and once more for each run of it that crashed or failed between its request and its write |
| `Sends.StaysDecided` | internal/store/delivery_lifecycle.go:122-250 | a row that is no longer pending never is again |
| `Ledger.RootKeeps` | internal/store/delivery_lifecycle.go:70-86 | inserting the first attempt of a new webhook keeps the book sound |
| `Ledger.TouchKeeps` | internal/store/delivery_lifecycle.go:252-263 | rewriting a live row that stays live keeps the book sound |
| `Ledger.SettleKeeps` | internal/store/delivery_lifecycle.go:122-148 | ending live rows with one final fate keeps the book sound |
| `Ledger.ContinueKeeps` | internal/store/delivery_lifecycle.go:217-250 | a row settled by the row inserted after it keeps the book sound |
| `Ledger.ExpireKeeps` | internal/store/dlq.go:69-82 | retention keeps the book sound: survivors are the tail of each history |
| `Ledger.CascadeKeeps` | internal/store/subscription_repo.go:162-176 | deleting a subscription takes whole histories and settles their live rows |
| `Ledger.EndOf` | internal/store/delivery_lifecycle.go:208-250 | following successors from any row ends, in the one row nothing was inserted after |
| `Ledger.LiveIsLast` | internal/store/dlq.go:12-28 | at most one row of a webhook is live and it comes after all the others |
| `Preservation.StepSound` | internal/store/delivery_lifecycle.go:24-357 | every step keeps the book sound |
| `Preservation.StepTied` | internal/store/delivery_lifecycle.go:24-357 | every step keeps keys, counters, runs, replies and flags tied to the book |
| `Preservation.DlqRowIsUnique` | internal/store/dlq.go:15-28 | the rows an ack matches are one row |
| `Preservation.ReplayIsRechained` | internal/store/dlq.go:34-67 | a replay clears one flag and appends one new chain to that row |
| `Preservation.RearmFindsNothing` | internal/store/delivery_lifecycle.go:303-337 | in a sound state there is no lease-less row to rearm |
| `Preservation.SuccessCounted` | internal/store/delivery_lifecycle.go:119-148 | a success, won or lost, keeps counters equal to their history |
| `Preservation.FinalizeCounted` | internal/store/delivery_lifecycle.go:150-191 | a final failure, won or lost, keeps counters equal to their history and the disable rule |
| `Delivery.RunLowersWork` | internal/worker/delivery.go:174-284 | a run that is not denied strictly lowers the attempts owed; a denied one keeps them, its row and its attempt number |
| `Delivery.OneRowOwes` | internal/worker/delivery.go:247-264 | writing one row changes the total owed by exactly that row's difference |
| `Delivery.LeadsDependable` | internal/worker/delivery.go:129-212 | after any steps from a state with the invariant, pending rows have a due time, a subscription and attempts left |
| `Delivery.Deliverer.Process` | internal/worker/delivery.go:129-212 | the run performs lifecycle steps only and leaves the tables as the outcome function says, or unchanged if its row was not due; the next five rows say what that outcome is |
| `Delivery.RetryWaits` | internal/worker/delivery.go:247-264 | a failed attempt below the budget is followed by the next one, due after min(base * 3^(attempt-1), max) give or take a fifth |
| `Delivery.DeniedWaits` | internal/worker/delivery.go:174-193 | a run refused its permit is due again in 3 s, one refused by the breaker after the reset timeout, on the same attempt with nothing else changed |
| `Delivery.SuccessEnds` | internal/worker/delivery.go:204-210 | a 2xx ends the attempt and zeroes the subscription's failures |
| `Delivery.LastFailureEnds` | internal/worker/delivery.go:266-284 | the last attempt ends in the DLQ and the subscription stays active exactly below the threshold |
| `Delivery.UnsendableEnds` | internal/worker/delivery.go:157-172 | an inactive subscription's row is dropped, one without a subscription is left leased |
| `Delivery.Deliverer.Attempt` | internal/worker/delivery.go:157-212 | the part after the claim ends the run, other runs untouched, with the tables as the outcome function says |
| `Delivery.Deliverer.Contend` | internal/worker/delivery.go:174-212 | the part of an active subscription: a permit and the guarded section, or the same attempt again after the back-off |
| `Delivery.Deliverer.Guarded` | internal/worker/delivery.go:183-212 | the part under the permit ends ready to release it, other runs untouched |
| `Delivery.Deliverer.Exchange` | internal/worker/delivery.go:195-202 | request, reply and breaker report leave the tables alone and carry the reply to the write |
| `Delivery.Deliverer.Finish` | internal/worker/delivery.go:247-264 | the last write, at the time that `Delivery.RetryWaits` pins down |
| `Delivery.Deliverer.Settle` | internal/worker/delivery.go:204-228 | the finalising or rescheduling write, by outcome |
| `Delivery.Deliverer.Handle` | internal/worker/delivery.go:129-212 | an undenied run lowers the attempts owed if its row was due and never raises them |
| `Delivery.Deliverer.Scanned` | internal/worker/retry.go:96-115 | the paging loop over the table at rest finds exactly the due rows, in order, for any page size |
| `Delivery.Deliverer.Round` | internal/worker/retry.go:96-115 | clock past every due time, paged scan, run what it found: the attempts owed drop |
| `Delivery.Deliverer.Drain` | internal/worker/delivery.go:247-284 | from any reached state, with any queue, any page size and any replies, rounds without denials or new work end with nothing pending |
| `Repo.DeliveryLogRepo.UpdatePending` | internal/store/delivery_lifecycle.go:124-133 | the compare-and-set writes the row if and only if it is pending, and says so |
| `Repo.DeliveryLogRepo.IngestPending` | internal/store/delivery_lifecycle.go:24-93 | refused, duplicate and accepted by exact conditions; an accepted row has the submitted columns and is due now, its key is recorded with it, anything else writes nothing |
| `Repo.DeliveryLogRepo.ClaimPending` | internal/store/delivery_lifecycle.go:345-357 | claims if and only if the row is pending with a due time not after now, moves only its due time to the end of the lease, and the row is no longer due |
| `Repo.DeliveryLogRepo.RescheduleSamePending` | internal/store/delivery_lifecycle.go:252-263 | refines the transaction; the attempt number stays |
| `Repo.DeliveryLogRepo.MarkDropped` | internal/store/delivery_lifecycle.go:193-206 | refines the transaction; a dropped row is final and not in the DLQ |
| `Repo.DeliveryLogRepo.MarkSuccess` | internal/store/delivery_lifecycle.go:119-148 | a win records the status and zeroes the counter only, a lost race changes nothing, and the reset is reported if and only if a subscription changed |
| `Repo.DeliveryLogRepo.FinalizeFailure` | internal/store/delivery_lifecycle.go:150-191 | a win flags the row and counts one failure; the subscription stays active if and only if it was and the count is below the threshold; a lost race changes nothing |
| `Repo.DisabledReportExactly` | internal/store/delivery_lifecycle.go:160-190 | the reported disable is one this failure brought about, and every one it brought about is reported, if and only if the write did not win on a subscription that was inactive before |
| `Repo.DisabledReportCanBeWrong` | internal/store/delivery_lifecycle.go:177 | from any pending row of an active subscription: deactivated in between, its first failure is reported as the one that disabled it |
| `Repo.DeliveryLogRepo.FailAndScheduleRetry` | internal/store/delivery_lifecycle.go:208-250 | the failed row and a successor with the same webhook, event and chain and the next attempt number appear together |
| `Repo.DeliveryLogRepo.AckDlq` | internal/store/dlq.go:12-28 | exactly the flagged rows of that subscription and webhook lose the flag; one is reported if and only if there is one |
| `Repo.DeliveryLogRepo.ReplayDlq` | internal/store/dlq.go:30-67 | exactly the flagged rows of that subscription and webhook lose the flag; the new chain repeats the event, has the next replay number and is due now; without a match nothing changes |
| `Repo.DeliveryLogRepo.ForceAckOldDlq` | internal/store/dlq.go:125-145 | exactly the flagged rows stamped before the age leave the DLQ and are returned |
| `Repo.DeliveryLogRepo.DeleteExpired` | internal/store/dlq.go:69-82 | a row stays if and only if it is pending, in the DLQ or within the retention; the count is the number deleted |
| `Repo.DeliveryLogRepo.ListInDlq` | internal/store/dlq.go:94-110 | every flagged row once and nothing else |
| `Repo.LeaseOutlastsTimeout` | internal/store/dlq.go:147-154 | the granted lease outlasts the HTTP timeout if and only if a second boundary separates the settings or both are below a second |
| `Repo.LeaseShorterThanTimeout` | internal/config/config.go:182 | settings that start-up accepts under which the lease ends before the HTTP timeout |
| `Repo.IntervalRounds` | internal/store/dlq.go:147-154 | durations become whole seconds, rounded down and at least one |
| `Repo.BytesAndCharacters` | internal/store/delivery_lifecycle.go:28-30 | the byte length equals the character count if and only if the string is ASCII |
| `Repo.LongUrlIsRefused` | internal/store/delivery_lifecycle.go:28-30 | an https URL with 700 three-byte characters in its path is within the character limit and refused by the ingest |
| `Breaker.CircuitBreaker.TryAllow` | internal/infra/breaker/circuit_breaker.go:45-60 | refines the admission function; a probe only after the reset timeout |
| `Breaker.CircuitBreaker.Succeeded` | internal/infra/breaker/circuit_breaker.go:63-72 | refines the success report; a stale token changes nothing |
| `Breaker.CircuitBreaker.Failed` | internal/infra/breaker/circuit_breaker.go:75-92 | refines the failure report, whose consequences the next rows state; a stale token changes nothing |
| `Breaker.FailedProbeReopens` | internal/infra/breaker/circuit_breaker.go:79-84 | after any calls, a failed probe admits nobody until more than the reset timeout later, and then somebody |
| `Breaker.SuccessfulProbeCloses` | internal/infra/breaker/circuit_breaker.go:67-71 | after any calls, a successful probe admits at once with a clean count |
| `Breaker.FailureWhileClosed` | internal/infra/breaker/circuit_breaker.go:86-91 | after any calls, a failure denies for the reset timeout if and only if it completes the threshold |
| `Breaker.ReportWhileOpen` | internal/infra/breaker/circuit_breaker.go:63-92 | after any calls, a current report to an open breaker changes admission only by putting it off, exactly when the tally is at the threshold |
| `Breaker.BreakerRefines` | internal/infra/breaker/circuit_breaker.go:45-92 | after any calls, Closed counts the current-generation failures below the threshold and half-open is exactly the time a probe is out |
| `Breaker.OpensExactly` | internal/infra/breaker/circuit_breaker.go:75-92 | a closed breaker opens exactly at the current failure that completes the threshold |
| `Breaker.AdmitsExactly` | internal/infra/breaker/circuit_breaker.go:45-60 | admission if and only if closed, or open with the reset timeout passed |
| `Breaker.GenerationsGrow` | internal/infra/breaker/circuit_breaker.go:45-92 | over any stretch of calls the generation never goes back |
| `Breaker.StaleForGood` | internal/infra/breaker/circuit_breaker.go:63-78 | once the generation of an admission is over, reporting with its token changes nothing at any later call |
| `Breaker.StaleReportsAreVoid` | internal/infra/breaker/circuit_breaker.go:63-78 | any calls lead to the same breaker as those calls without the reports that came after their generation |
| `Breaker.ProbesAreApart` | internal/infra/breaker/circuit_breaker.go:45-92 | any two probe admissions are more than the reset timeout apart |
| `Registry.Semaphore.TryAcquire` | internal/infra/semaphore/semaphore.go:18-25 | a permit if and only if one is free |
| `Registry.Semaphore.Release` | internal/infra/semaphore/semaphore.go:27-30 | one permit comes back |
| `Registry.Registry.Get` | internal/infra/registry/registry.go:39-49 | a listed key keeps its object, a new key gets one no other key has, the use is stamped |
| `Registry.Registry.Sweep` | internal/infra/registry/registry.go:59-71 | a key stays if and only if it was used within the idle time, unchanged; the number of the others is returned |
| `Controls.ControlsNeverAbandoned` | internal/worker/delivery.go:174-211 | in every state of all concurrent runs, permits out are the runs in the guarded section, each admission is reported once or its run is in flight, a half-open breaker waits for exactly one live run |
| `Targets.BreakersArePerTarget` | internal/worker/delivery.go:183-193 | in every state of all concurrent runs, runs at one breaker go to one URL and no two URLs are handed the same breaker; that one URL is handed one breaker is `Protection.SameBreakerExactly` |
| `Targets.OtherTargetsUntouched` | internal/worker/delivery.go:183-202 | no call of a run changes the breaker of a URL that is not its own |
| `Protection.SameBreakerExactly` | internal/infra/registry/registry.go:39-71 | in one process, two lookups of a URL find the same breaker if and only if every breaker sweep between them came within the idle time of some lookup of the URL since the first |
| `Protection.ShutForReset` | internal/infra/breaker/circuit_breaker.go:45-92 | in all concurrent runs, once a breaker has opened, whatever is reported to it, nobody is admitted until more than the reset timeout has passed |
| `Protection.TargetLeftAlone` | internal/worker/delivery.go:183-193 | so a run to a URL whose breaker has opened is refused for the reset timeout, as long as the registry keeps the breaker |
| `Protection.ForgottenUnderRun` | internal/infra/registry/registry.go:59-71 | under every configuration, a run in which a sweep overtakes a slow delivery and the next one to its URL meets another breaker |
| `Reports.BreakerIsItsCalls` | internal/worker/delivery.go:183-202 | in every state of all concurrent runs, each breaker is a new one with the configured threshold and reset timeout after exactly the calls its runs made: an admission, a success for a status from 200 to 299, a failure otherwise |
| `Reports.OpensAtThreshold` | internal/infra/breaker/circuit_breaker.go:75-92 | in all concurrent runs, a closed breaker opens if and only if a delivery admitted in its generation fails and that makes the failures in a row as many as the threshold |
| `Reports.FailedProbeDenies` | internal/infra/breaker/circuit_breaker.go:79-84 | in all concurrent runs, after a probe that got no 2xx the next run is admitted if and only if more than the reset timeout has passed |
| `Reports.SuccessfulProbeAdmits` | internal/infra/breaker/circuit_breaker.go:63-72 | in all concurrent runs, after a probe that got a 2xx the next run is admitted |
| `Cap.CapHolds` | internal/infra/registry/registry.go:39-71 | in every state of every run that does not forget a subscription's semaphore under a run, at most the configured number of its deliveries run at once, with or without counting those that have only to give their permit back |
| `Cap.TameSpares` | internal/infra/registry/registry.go:59-71 | a sweep does not reach the semaphore of a run that lets it go within the idle time |
| `Cap.StaysAttached` | internal/infra/registry/registry.go:39-71 | while runs are prompt and no semaphore in use is removed, the registry hands out the semaphore each run works under |
| `Cap.PromptCapHolds` | internal/infra/registry/registry.go:39-71 | so the cap holds across sweeps when every holder releases within the idle time of its lookup |
| `Overload.LiftedExactly` | internal/infra/registry/registry.go:52-71 | a step opens the way past the limit if and only if it takes the semaphore from a run that works under it or waits for it |
| `Overload.SweepLiftsCapExactly` | internal/infra/registry/registry.go:59-71 | a sweep does so if and only if some run works or waits and the slot was last used before the idle time |
| `Overload.FinalFailureLiftsCapExactly` | internal/subscription/state.go:254-271 | the reset at the end of a final failure does so, while the subscription can be read active again, if and only if another run works or waits |
| `Overload.CapCanBeLifted` | internal/subscription/state.go:254-271 | under every limit, a run with one final failure, its reset and active reads after it that ends with more deliveries than the limit, each on a row of its own, and with no other removal or sweep |
| `Overload.SlowRunLiftsCap` | internal/infra/registry/registry.go:59-71 | under every limit, a run without removals in which a sweep overtakes a slow delivery and more than the limit run, each on a row of its own |
| `Deletion.DeleteLiftsCapExactly` | internal/subscription/state.go:212-222 | a delete, with no active read after it, lets deliveries exceed the limit if and only if a run works or waits, another is about to ask, and together they are more than the limit |
| `Deletion.StaysBounded` | internal/subscription/state.go:212-222 | after a delete, deliveries never exceed the smaller of limit and those that work or wait plus the smaller of limit and those about to ask |
| `Deletion.DeleteCanLiftCap` | internal/subscription/state.go:212-222 | under every limit, a run with a delete and no active read after it that ends with more deliveries than the limit, each on a row of its own |
| `Cache.StepKeeps` | internal/subscription/state.go:93-167 | every call, failure and tick keeps stale entries covered by a dirty mark that outlives them |
| `Cache.Holds` | internal/subscription/state.go:93-167 | that invariant holds in every state of every run |
| `Cache.GetReturnsTheRow` | internal/subscription/state.go:116-151 | a row that a read returns is the database row at that moment, from the start if Redis then served only true copies and after one TTL otherwise |
| `Cache.RedisAnswersExactly` | internal/subscription/state.go:93-127 | in any state of concurrent operations, a read asks Redis if and only if its key has no live mark, and is answered by it if and only if Redis answers with an unexpired copy that can be read |
| `Cache.StaleExactly` | internal/subscription/state.go:116-151 | some run of a process has a stale read if and only if Redis serves an untrue copy as it starts |
| `Cache.LeftoverIsServed` | internal/subscription/state.go:116-133 | any untrue copy served at the start is what the first read of its key returns |
| `Cache.NotFoundExactly` | internal/subscription/state.go:134-141 | a not-found answer found no row at its own repository read, has held its stripe since, and there is a row at its return if and only if it was inserted in between |
| `Cache.NotFoundCanBeLate` | internal/subscription/state.go:189-195 | for any row, a run in which it is created while a read of it is returning not-found |
| `Cache.LeftoverCanBeStale` | internal/subscription/state.go:116-151 | for any row and any other copy of it, a start state from which a stale read happens |
| `Cache.WriteOutcome` | internal/subscription/state.go:160-210 | after a write the copy is gone, or marked dirty for one TTL if Redis failed; other keys stay as they were |
| `Cache.SubscriptionState.GetByID` | internal/subscription/state.go:116-151 | a copy that Redis serves for a key without a live mark is what is returned, whatever the repository does, and Redis stays as it is; in every other case the repository decides: its row, not found, or its error; a read without faults leaves Redis serving the row; other keys stay as they were |
| `Cache.SubscriptionState.TryRedis` | internal/subscription/state.go:123-132 | a hit if and only if the key has no live mark, Redis answers and its copy has not expired and can be read |
| `Cache.OtherKeysUntouched` | internal/subscription/state.go:93-167 | no call of a read, write or eviction touches the entry or the mark of another key |
| `Cache.SubscriptionState.FromRepo` | internal/subscription/state.go:134-151 | the fall-back answers from the database, refills or purges Redis, marks the key if that failed, and frees the stripe |
| `Cache.SubscriptionState.Refill` | internal/subscription/state.go:134-150 | Redis then holds the row for one TTL, or nothing if there is none, and the key is clean; if the store failed the key is dirty for one TTL |
| `Cache.SubscriptionState.Write` | internal/subscription/state.go:201-236 | the row is written and the copy evicted, or marked for one TTL, before the stripe is free; a missing row changes nothing; other keys stay as they were |
| `Cache.SubscriptionState.Update` | internal/subscription/state.go:201-210 | exactly the operator's fields change; secrets and the failure counter stay |
| `Cache.SubscriptionState.RotateSecret` | internal/subscription/state.go:224-236 | the secret in use becomes the previous one, the new one takes its place, the rotation is stamped, all else stays |
| `Cache.SubscriptionState.Delete` | internal/subscription/state.go:212-222 | the row is gone, every other row stays |
| `Reconciler.Without` | internal/infra/queue/dlq.go:34-40 | removal takes every occurrence and nothing else |
| `Reconciler.StepKeeps` | internal/worker/cleanup.go:86-156 | every step keeps list, snapshots and pending removals within what was once flagged and is now cleared |
| `Reconciler.FlaggedStaysListed` | internal/worker/cleanup.go:142-155 | no step of any run but a loss in Redis takes a flagged row off the list |
| `Reconciler.PassListsFlagged` | internal/worker/cleanup.go:86-141 | a pass whose two reads succeed leaves listed every row flagged throughout it whose own check and push succeed, under any interleaving and whichever calls for other rows fail |
| `Reconciler.PassUnlistsCleared` | internal/worker/cleanup.go:86-156 | a pass whose two reads succeed takes off the list every row unflagged throughout it that nobody pushes and whose own check and removal succeed, under any interleaving and whichever calls for other rows fail |
| `Reconciler.OnlyChecked` | internal/worker/cleanup.go:124-155 | under any interleaving the pass pushes only a row missing from its copy of the list that a successful check has just seen flagged, and removes only a row that one has just seen unflagged |
| `Reconciler.ComparesWhatItRead` | internal/worker/cleanup.go:102-123 | the two copies it compares are the flagged rows and the list as two successful reads of the same pass found them |
| `Reconciler.LifecycleFlagsOnce` | internal/store/delivery_lifecycle.go:157-159 | in the lifecycle a cleared flag never comes back |
| `Reconciler.LifecycleProjects` | internal/store/delivery_lifecycle.go:157-159 | every lifecycle step is, for the reconciler, one flag set for the first time or some flags cleared |
| `Reconciler.PushIsAllowed` | internal/worker/delivery.go:275-279 | a worker pushes only rows the reconciler's rules let it push, however late |
| `Reconciler.RemoveIsAllowed` | internal/store/dlq.go:12-67 | a handler removes only rows that are cleared and stay so, however late |
| `Reconciler.DlqReconciler.Reconcile` | internal/worker/cleanup.go:86-156 | an undisturbed pass, made of the same steps, makes the list's set equal the flagged set, whatever the list held |
| `Reconciler.DlqReconciler.RemoveForced` | internal/worker/cleanup.go:95-100 | exactly the force-acked rows leave the list |
| `Reconciler.DlqReconciler.PushMissing` | internal/worker/cleanup.go:124-141 | every flagged row gets on the list and nothing else does |
| `Reconciler.DlqReconciler.RemoveStale` | internal/worker/cleanup.go:142-155 | then everything that is not flagged leaves it |
| `Recovery.FindDuePending` | internal/store/delivery_lifecycle.go:265-301 | the least due rows past the cursor, in order, none skipped |
| `Recovery.Scan` | internal/worker/retry.go:96-115 | under any finite number of changes by others between the pages the loop ends, enqueues in strict order only rows found due, and misses no row that stayed due |
| `Recovery.StableExactlyOnce` | internal/worker/retry.go:96-115 | a row that keeps its due time is enqueued exactly once |
| `Recovery.QuietScanIsExact` | internal/worker/retry.go:96-115 | on an unchanging table the scan is exactly the due rows |
| `Recovery.RearmBatch` | internal/store/delivery_lifecycle.go:303-337 | the oldest pending rows without a due time and past the threshold that nobody has locked become due now and are stamped, all their other columns as before, at most the limit, all of them if fewer; other rows stay |
| `Recovery.RearmAll` | internal/worker/retry.go:117-131 | while others change and lock rows between and during batches, the loop ends and each old lease-less row they leave alone is rearmed and enqueued exactly once; other rows they leave alone stay as they were |
| `Backoff.Delay` | internal/worker/retry.go:13-21 | the loop yields the capped power of three |
| `Backoff.RetryDelay` | internal/worker/retry.go:13-27 | the jittered delay is positive, within a fifth of the delay and at most a fifth above the cap |
| `Backoff.JitterReaches` | internal/worker/retry.go:22-27 | every delay from a fifth below to just under a fifth above comes from some draw |
| `Backoff.ClosedForm` | internal/worker/retry.go:13-21 | for valid settings the delay is min(base * 3^(attempt-1), max) |
| `Backoff.DelaysTriple` | internal/worker/retry.go:13-21 | the first attempt waits the base and each further one three times as long, up to the cap |
| `Backoff.DelaysGrow` | internal/worker/retry.go:13-21 | a later attempt never waits less, before jitter |
| `TokenBucket.TokenBucket.TryAllow` | internal/infra/ratelimit/token_bucket.go:37-46 | refines the admission function, which the rows below pin down |
| `TokenBucket.TokenBucket.DoRefill` | internal/infra/ratelimit/token_bucket.go:49-57 | refines the refill function |
| `TokenBucket.RefillExactly` | internal/infra/ratelimit/token_bucket.go:49-57 | a refill fills the bucket or brings what the time bought but for less than one unit of its fixed point; the next row says how big the unit is |
| `TokenBucket.RefillsThousandths` | internal/infra/ratelimit/token_bucket.go:12-57 | after any calls, at 1000 units a token: a refill fills the bucket or brings what the time bought but for less than one unit, and a call is admitted if and only if it then finds 1000 |
| `TokenBucket.PersistenceAdmits` | internal/infra/ratelimit/token_bucket.go:37-57 | with the burst spent and n looks refused since, a call is admitted once the time has bought a token and n + 1 thousandths |
| `TokenBucket.FreshBucketAdmitsBurst` | internal/infra/ratelimit/token_bucket.go:26-46 | a new bucket admits its whole burst at once and no more |
| `TokenBucket.PauseBuys` | internal/infra/ratelimit/token_bucket.go:37-57 | after any earlier calls, a pause long enough for n tokens buys n admissions at once, up to the burst |
| `TokenBucket.RunValid` | internal/infra/ratelimit/token_bucket.go:37-57 | after any calls the tokens are between zero and the burst |
| `TokenBucket.WindowBound` | internal/infra/ratelimit/token_bucket.go:37-57 | in any window, after any earlier calls, admissions are at most burst plus rate times length |
| `TokenBucket.PatienceAdmits` | internal/infra/ratelimit/token_bucket.go:37-57 | left alone for one token's time, the bucket admits |
| `TokenBucket.GainsNothingExactly` | internal/infra/ratelimit/token_bucket.go:49-57 | a refill gives nothing if and only if it spans less than a thousandth's time |
| `TokenBucket.StarvesExactly` | internal/infra/ratelimit/token_bucket.go:37-57 | over any calls, admissions and tokens add up to the starting tokens if and only if every call comes within a thousandth of a token's time of the one before, or is the first and finds the bucket full |
| `TokenBucket.EagerCallerStarves` | internal/infra/ratelimit/token_bucket.go:49-57 | at rate and burst one, a call every 0.9 ms is admitted once, for any number of calls |
| `Admission.BoundHolds` | internal/subscription/state.go:169-187 | if a bucket fills within the idle time, then in any window, after any lookups, sweeps and removals, admissions are at most burst plus rate times length, and one burst more for each removal in the window |
| `Admission.BoundedExactly` | internal/infra/registry/registry.go:59-71 | every window obeys that if and only if the rate fills the burst within the idle time and a nanosecond |
| `Admission.ForgottenEarly` | internal/infra/registry/registry.go:59-71 | otherwise a burst, a sweep just past the idle time and a burst break it |
| `Admission.RemovalAddsBurst` | internal/subscription/state.go:169-172 | a removal brings the whole burst once more in the same instant |
| `Histogram.Search` | internal/infra/metrics/histogram.go:42 | the first bound not below the sample |
| `Histogram.CountOneMore` | internal/infra/metrics/histogram.go:42-43 | counting a sample keeps every cumulative count equal to the samples it stands for |
| `Histogram.Histogram.Observe` | internal/infra/metrics/histogram.go:38-52 | counts, total, sum, minimum and maximum stay those of the samples |
| `Histogram.SumAdds` | internal/infra/metrics/histogram.go:50-51 | the sum behind the mean is additive |
| `Histogram.Histogram.Percentile` | internal/infra/metrics/histogram.go:83-98 | the smallest bound covering the share, or the rounded maximum; the next three rows say what covering means and what the bounds are |
| `Histogram.CoversExactly` | internal/infra/metrics/histogram.go:86-90 | a bound covers p percent if and only if p times the samples is at most 100 times those not above it |
| `Histogram.PercentileIsLeast` | internal/infra/metrics/histogram.go:15-19 | a percentile is the least of the 24 numbers that covers its share, or the rounded maximum if none does |
| `Histogram.OneSample` | internal/infra/metrics/histogram.go:15-19 | for one sample of at most a minute every percentile is the least of the 24 numbers not below it |
| `Histogram.Histogram.TakeSnapshot` | internal/infra/metrics/histogram.go:66-81 | count, minimum, maximum, mean and percentiles of the samples, with p50 <= p95 <= p99 and min <= avg <= max |
| `Histogram.MeanIsNearest` | internal/infra/metrics/histogram.go:76 | the reported mean is the nearest millisecond, halves upward |
| `Histogram.MeanBetween` | internal/infra/metrics/histogram.go:73-76 | the reported mean lies between the reported minimum and maximum |
| `Histogram.PercentilesOrdered` | internal/infra/metrics/histogram.go:83-98 | a higher percentile is never reported lower |
| `Histogram.PercentileWithinDouble` | internal/infra/metrics/histogram.go:83-98 | a percentile inside the buckets covers its share and half of it does not |
| `Histogram.RoundIsNearest` | internal/infra/metrics/histogram.go:73-75 | reported milliseconds are the nearest, halves upward |
| `Histogram.MaxIsGreatest` | internal/infra/metrics/histogram.go:47-49 | the tracked maximum is the greatest sample |
| `Histogram.MinIsLeast` | internal/infra/metrics/histogram.go:44-46 | the tracked minimum is the least sample |
| `StatusEndpoint.WebhookStatus` | internal/api/handler_status.go:48-94 | not found if and only if there are no rows; each statistic is the number of rows with its status, and they add up |
| `StatusEndpoint.CountIsNumber` | internal/api/handler_status.go:64-80 | counting along the rows gives the number of rows with the status |
| `StatusEndpoint.CurrentRowIsLast` | internal/api/handler_status.go:60-62 | in every reachable state the listing has no ties and a live row is its last |
| `Scheduler.Schedule.ClaimDue` | internal/infra/scheduler/redis_scheduler.go:21-30 | the least due members, at most a hundred, leave the set and stand on the list, in score order; the others stay |
| `Scheduler.RangeByScore` | internal/infra/scheduler/redis_scheduler.go:24 | due members in order, none left out unless the batch is full of sooner ones |
| `Scheduler.MovedExactly` | internal/infra/scheduler/redis_scheduler.go:23-30 | a member is moved if and only if its score is from zero to the current millisecond and fewer than a hundred such members come before it |
| `Scheduler.NeverAMilliEarly` | internal/infra/scheduler/redis_scheduler.go:44-49 | no member is moved a million nanoseconds or more before its due time |
| `Scheduler.MovedEarlyExactly` | internal/infra/scheduler/redis_scheduler.go:44-70 | a member that is not yet due is moved if and only if its due time lies in the current million nanoseconds and fewer than a hundred come before it |
| `Scheduler.MovedEarly` | internal/infra/scheduler/redis_scheduler.go:44-49 | a member due at 5.5 ms is moved at 5 ms |
| `Scheduler.Schedule.RescheduleIfNotDue` | internal/worker/delivery.go:230-243 | a pending row due in the future is scheduled at its due time; one that is missing, decided, without a due time or already due leaves the schedule alone |
| `Scheduler.HealsExactly` | internal/worker/delivery.go:148-155 | a row moved early loses its claim; a later poll moves it again, for a claim that succeeds, if and only if it had not fallen due at the second look |
| `Scheduler.HealCanMiss` | internal/worker/delivery.go:148-155 | for any due time inside a millisecond, a row that is moved early, loses its claim, and is then on neither schedule nor list |
| `Detail.Truncate` | internal/worker/delivery.go:335-346 | valid UTF-8 within the limit: everything if it fits, otherwise the longest run of whole characters, at most three bytes short |
| `Detail.CutBack` | internal/worker/delivery.go:341-345 | the loop stops at the longest valid prefix |
| `Detail.LongestCutIsNear` | internal/worker/delivery.go:341-345 | that prefix is at most three bytes short of the cut and ends between two characters |
| `Detail.ToValidIsValid` | internal/worker/delivery.go:337 | whatever bytes come in, valid UTF-8 comes out |
| `Detail.ToValidKeepsExactly` | internal/worker/delivery.go:337 | bytes are left alone if and only if they are valid |
| `Detail.StretchBecomesOne` | internal/worker/delivery.go:337 | between any valid bytes and a character or the end, a stretch of bytes at which no character begins becomes one U+FFFD, and what is around it stays |
| `Detail.FirstStretch` | internal/worker/delivery.go:337 | bytes that are not valid split into valid ones, such a stretch, and the rest |
| `Detail.ValidExactly` | internal/worker/delivery.go:342 | bytes are valid if and only if they are the UTF-8 of some string |
| `Keyset.First` | internal/store/delivery_lifecycle.go:274-282 | the least items, by key and by id among equal keys, none left out unless the limit is used up |
| `Keyset.SelectedExactly` | internal/store/delivery_lifecycle.go:274-282 | an item is selected if and only if fewer than the limit come before it |

## Left out

- HTTP routing, authentication, signatures, JSON, dialing, configuration parsing,
  migrations, supervision and shutdown: no state of the delivery protocol. A delivery
  attempt is any reply: none, or a status code.
- What the retry schedule does is not part of the lifecycle, which treats Redis as an
  adversary. Error details are opaque strings there; `detail.dfy` is about their bytes.
- Interleavings inside one breaker method: each method is one step.
- Integer widths: counters and times are unbounded, and `delay * 3` is shown never to
  pass the cap instead.
- Limits across replicas: the controls and the cache belong to one process.
- The number of copies of an id in the Redis DLQ list: only its set is specified.
- Preserving a concurrent auto-disable across the read and write of a subscription PUT:
  an update writes any active flag at any time.
- Counting rows by status for the metrics endpoint, and listing and paging of
  subscriptions: read-only queries with no bearing on delivery.
- The creation and update times of a subscription.
- Histogram.Histogram.Observe: samples are whole non-negative microseconds, summed
  exactly.
- Histogram.Histogram.Percentile: the share is an exact percentage of the total, not a
  floating-point product.
- Histogram.Histogram.TakeSnapshot: mean and percentiles are exact, not floating-point.
- TokenBucket.RefillsThousandths: the product of elapsed time and rate is exact before it is
  truncated, not a floating-point number.
- Admission.BoundHolds: the lookup of a bucket and its `Allow` are one event; a caller that
  stalls between them for longer than the idle time is not covered.
