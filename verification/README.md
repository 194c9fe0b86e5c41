# Seatlock: a verified model of the reservation protocol

Seatlock sells numbered seats. Its seat table is written by several acquisition strategies, hold
extensions, a booking and payment pipeline and background workers, all at the same time. The pure
transition functions `hold`, `confirm`, `expire` and `release` are the specification; conditional SQL
UPDATEs, row-locked transactions and workers are the implementation. This project models both sides and
proves that they agree, on every run.

## How it is built

| file | content |
|---|---|
| `SeatMachine.dfy` | the transition functions, and the raw row guards and column writes of the SQL statements |
| `Collections.dfy` | row counts of statements over lists with duplicates, `ORDER BY id LIMIT n` |
| `Ledger.dfy` | the committed tables, the seven atomic operations on them, and the invariant every operation keeps |
| `History.dfy` | theorems about every sequence of operations: versions, holds, ownership, refunds, linkage |
| `Interleaving.dfy` | any number of transactions of every kind in one world: acquisitions, sweeps, extensions, confirmations and refunds, one SQL statement or one row lock per step |
| `Refinement.dfy` | every such run is a replay of its own commit log through the ledger |
| `Progress.dfy` | which wait-for cycles can form and how they are resolved; and the control: the naive strategy oversells in the same step system |
| `Deadlock.dfy` | for two transactions over the same pair of seats, exactly when a cycle does form |
| `Alone.dfy` | a transaction nobody disturbs succeeds exactly when its operation is possible, so the theorems on runs are not about runs in which nothing commits |
| `Requests.dfy` | what each request does to the tables, statement order and every rejection included |
| `SweepErasure.dfy` | for requests that run undisturbed, one after another, deleting all sweeper passes changes no outcome |
| `SweepRace.dfy` | inside an interleaving it may: a pass between an optimistic read and its UPDATE |
| `Payments.dfy` | webhook deduplication, batches with others committing inside them and rollback in the middle, exactly-once effects |
| `Idempotency.dfy` | idempotency keys under crashes, reaping and reclaiming |
| `Realtime.dfy` | the coalescing buffer, the version-discarding client, and exactly when they agree with naive fanout |
| `Reconciler.dfy` | the Redis mirror and its two-look repair |
| `Checks.dfy` | the executable invariants, and what they report on reachable states |
| `Strategies.dfy`, `BookingService.dfy`, `KeyService.dfy` | the strategies, workers and routes as the imperative programs they are, each proved against the value-level specification above |

Times are integers. Each operation carries the `now` its request read; all that is assumed is that it does
not lie ahead of the clock when the operation takes effect, so it may be stale. A multi-row UPDATE picks its
rows when it starts and then locks them one at a time, in no particular order; a blocked statement re-reads
the row when it is granted. A transaction is all or nothing, and row locks last until commit or rollback. The
unique indexes and primary keys of `app/infra/tables.py` are hard gates.

## What the code does that its documentation does not say

- **A refunded seat can never be booked again.** `released_at` is never set, so the `booking_seats` row of a
  refunded booking stays active and the partial unique index refuses every later confirmation of that seat
  (`History.RefundedSeatNeverBookedAgain`). For the same reason `check_booking_linkage` passes exactly when
  no seat's booking has been refunded (`History.LinkageIffNoRefund`). A booking that is otherwise in order can be
  confirmed if and only if none of its seats belongs to a refunded booking (`History.ConfirmableIffNeverRefunded`),
  and `History.RefundBlocksResale` is a history that gets there, from any fresh database and for any seat.
- **A payment can be taken without confirming or refunding its booking.** If the seats of a PENDING booking are still
  held but one of them was left blocked by an earlier refund (or the list is empty), `payment.succeeded` is REJECTED,
  the booking stays PENDING and nothing is announced; `Payments.PaymentSettles` shows that this is the only such case
  for a payment handled undisturbed.
- **The completion marker is not guarded on status.** If the reaper takes a request that is slow but alive, two
  bookings can be created under one key and two callers can get different answers
  (`Idempotency.LiveReapBreaksIdempotency`). Over every run, a key has a single effect exactly when every commit
  under it would have passed a guard on the key row (`Idempotency.MarkerSafeIff`).
- **Mode (a) can deadlock.** The pessimistic module calls that impossible by construction, because it locks in id
  order; but a confirmation's UPDATE locks the same seats in its own order
  (`Deadlock.PessimisticMeetsConfirmation`). Every cycle does need such an UPDATE (`Progress.CycleNeedsUpdate`), and
  two transactions over the same pair of seats can deadlock exactly when one of them has it
  (`Deadlock.DeadlockIff`).
- **The sweeper is not invisible to a request in progress.** It changes no outcome of undisturbed requests
  (`SweepErasure.SweepErased`), but a pass between an optimistic read and its UPDATE moves the version and makes the
  attempt conflict (`SweepRace.SweepDefeatsAttempt`), exactly when it takes one of the listed seats
  (`Strategies.SweepCostsIff`). It costs one attempt and no more (`Strategies.SweepCostsOneAttempt`,
  `Alone.ConflictCostsOneAttempt`).
- **The reaper's recovery branch is unreachable**, because booking and marker share one commit
  (`Idempotency.RecoveryNeverNeeded`).
- **The coalescer keeps the last update by arrival, not by version.** An older update arriving in the same
  window makes a client show a seat as HELD that is BOOKED (`Realtime.OutOfOrderDisagrees`);
  `Realtime.AgreesIffFaithful` gives the exact condition on a window.
- **The version check is not what makes the optimistic UPDATE safe.** Its status guard alone already makes
  each win a legal hold (`Strategies.StatusGuardSuffices`); the version check adds that the row is the one
  validated (`Refinement.MatchedRowWasValidated`).
- **A list with a seat twice can never be acquired optimistically.** It burns the whole retry budget and
  reports exhaustion; the pessimistic strategy accepts the same list.

## Model

| member | source | states |
|---|---|---|
| SeatMachine.HoldUpdateAgrees | app/inventory/strategies/optimistic.py:185-195 | The hold UPDATE matches exactly the rows `hold` accepts, whatever they contain, and writes what `hold` returns exactly when `booking_id` is already NULL, which coherence guarantees |
| SeatMachine.ConfirmUpdateAgrees | app/booking/confirm.py:113-129 | The confirm UPDATE and `confirm` differ only on HELD rows without an expiry; on coherent rows they accept and write the same |
| SeatMachine.RefundUpdateAgrees | workers/payment_worker.py:222-230 | The refund UPDATE writes what `release` returns exactly when the hold columns are NULL |
| SeatMachine.ConfirmableXorReclaimable | app/domain/state_machine.py:27-113 | At every instant a coherent hold is confirmable by its holder exactly when nobody can take it and the sweeper cannot expire it, which is exactly before its expiry |
| Ledger.LegalColumns | app/domain/state_machine.py:27-113 | When each of the seven operations is allowed, column by column: statuses, holder, the side of the expiry, duplicate-free lists, `booking_seats` rows and keys |
| Ledger.ApplyColumns | app/domain/state_machine.py:60-130 | What each operation writes, column by column, with every written row's version one higher and all other rows, bookings and links unchanged |
| Ledger.FreshDbInv | app/domain/invariants.py:48-91 | A freshly seeded event satisfies the invariant |
| Ledger.ApplyKeepsInv | app/domain/invariants.py:94-120 | Every legal hold, extension, expiry, creation, confirmation, late success and refund keeps coherence, ownership, exact `booking_seats` and unique keys |
| History.InvAlways | app/domain/invariants.py:1-5 | The invariant holds at every point of every history |
| History.VersionCountsChanges | app/inventory/strategies/optimistic.py:185-195 | A row's version is its initial version plus the number of committed changes to it |
| History.NoABA | app/inventory/strategies/optimistic.py:254-276 | Equal versions at two moments of a history mean the identical row, and nothing in between touched it |
| History.NoTheft | app/domain/state_machine.py:38-67 | A change to a held row is the holder's own confirmation or extension, or the clock has reached that row's expiry, even with stale request clocks |
| History.NoOverlappingHolds | app/domain/state_machine.py:50-56 | No legal history holds a seat twice while the first hold is unexpired by the clock and its holder neither confirms nor extends |
| History.ConfirmedIffOwnsAll | app/booking/confirm.py:113-164 | A booking is CONFIRMED exactly when each of its seats is BOOKED in its name; otherwise it owns no seat |
| History.ConfirmedDisjoint | app/booking/confirm.py:143-150 | Two CONFIRMED bookings share no seat |
| History.RefundFreesItsOwn | workers/payment_worker.py:209-230 | A refund frees exactly the seats of its booking, as `release` would, and no other row changes |
| History.TerminalForever | app/domain/booking_state_machine.py:33-86 | REFUNDED and REFUND_REQUIRED are never left, seat lists never change, bookings never disappear |
| History.RefundedSeatNeverBookedAgain | app/infra/tables.py:215-231 | Because `released_at` is never set, no seat of a REFUNDED booking is BOOKED again and no booking claiming it can be confirmed |
| History.RefundBlocksResale | workers/payment_worker.py:209-230 | From every fresh database and for every seat there is a legal hold, create, confirm, refund, hold, create history after which the seat is held live, its new booking cannot be confirmed at any time, and the linkage check fails |
| History.ConfirmableIffNeverRefunded | app/booking/confirm.py:143-150 | A PENDING booking with a duplicate-free list of live holds of its session and a free key can be confirmed if and only if none of its seats is in the list of a REFUNDED booking |
| History.BookedImpliesLinked | app/domain/invariants.py:110-115 | A BOOKED seat, or one with `booking_id` set, has an active `booking_seats` row for that pair |
| History.LinkageIffNoRefund | app/domain/invariants.py:94-120 | The two-way linkage check passes exactly when no booking over known seats is REFUNDED |
| History.LinkageWithoutRefunds | app/domain/invariants.py:94-120 | The two-way linkage check passes along every history without a refund step |
| Refinement.MatchedRowWasValidated | app/inventory/strategies/optimistic.py:254-276 | A row matched by the versioned UPDATE is the very row `hold` validated, and the write is what `hold` returned |
| Refinement.RewriteIsEffect | app/booking/confirm.py:113-129 | Each of the four conditional UPDATEs writes, row by row, what the domain function returns for the row it matched |
| Refinement.Undisturbed | app/booking/confirm.py:113-164 | A transaction open at any statement stays valid whatever operation commits meanwhile without needing one of its locks |
| Refinement.WritesAreApply | app/booking/confirm.py:113-175 | Rows written by statements at different moments, published at the commit, equal one legal ledger operation on the tables as they are then |
| Refinement.StepKeepsWInv | app/inventory/strategies/pessimistic.py:125-158 | Every statement and row lock of every transaction keeps locks disjoint, locked rows current, and the tables equal to the replayed log |
| Refinement.RunIsReplayOfItsLog | app/inventory/strategies/optimistic.py:183-297 | Every interleaving of optimistic, pessimistic, any-N, sweep, extension, confirmation and refund transactions, each possibly half done, leaves the tables as if the committed ones had run atomically in commit order |
| Refinement.AllOrNothing | app/booking/confirm.py:130-164 | A transaction that reported success is in the history exactly once with its whole effect; one that failed at any statement, or is still open, is not there at all; `Alone.UndisturbedSucceedsIffPossible` says when one does succeed |
| Alone.UndisturbedSucceedsIffPossible | app/booking/confirm.py:72-175 | From every reachable state in which the others are done, a confirmation, refund, extension, sweep, optimistic, mode (a) or mode (b) transaction has a run of its own that succeeds if and only if its operation is legal there (and, where asked for, the list has no duplicates or there are N seats); every such run that succeeds leaves exactly the tables of that operation, and one that does not changes nothing |
| Alone.BeginsAboutToStart | app/inventory/strategies/optimistic.py:219-306 | A request of any kind can begin in every initial world and is then in the state the theorem above starts from |
| Alone.ConflictCostsOneAttempt | app/inventory/strategies/optimistic.py:277-306 | A conflict or deadlock leaves the tables alone and costs one attempt of the budget; with one left the client is about to start again, with none it gives up |
| Alone.OthersGoThrough | app/booking/create.py:95-110 | With every transaction done, creating a booking and demanding a refund go through exactly when they are legal, and the clock can always move on |
| Alone.MayAlwaysGiveUp | app/inventory/strategies/pessimistic.py:133-135 | A client can be rolled back at any statement; it then holds no lock and has changed neither the tables nor any other client |
| Refinement.ExclusivityAlways | app/booking/confirm.py:113-164 | In every interleaving, CONFIRMED means owning all seats, lists are duplicate-free and disjoint, and other bookings own nothing |
| Refinement.RunNoABA | app/inventory/strategies/optimistic.py:254-276 | No ABA between any two moments of any interleaving |
| Refinement.RunNoTheft | app/inventory/strategies/optimistic.py:193-195 | No step of any interleaving takes, cuts short or moves a live hold unless it is the holder's own |
| Progress.CycleNeedsUpdate | app/inventory/strategies/optimistic.py:111-122 | Every wait-for cycle runs through a multi-seat UPDATE that holds one of its rows while waiting for a lower one |
| Progress.WaitForAcyclic | app/inventory/strategies/pessimistic.py:127-132 | Among mode (a), mode (b), sweeps, extensions and single-seat UPDATEs the wait-for graph has no cycle, in any reachable state |
| Progress.MoveOrDeadlock | app/inventory/strategies/pessimistic.py:199-211 | While any transaction is open, some transaction has a forward step enabled, or the wait-for graph has a cycle |
| Progress.SomebodyCanMove | app/inventory/strategies/pessimistic.py:199-211 | Among ordered requests somebody can always move, without anybody giving up |
| Progress.VictimRestoresProgress | app/inventory/strategies/optimistic.py:337-346 | Whichever member of a cycle is aborted, the one waiting for it, blocked before, can then take its row |
| Deadlock.DeadlockIff | app/inventory/strategies/pessimistic.py:73-77 | Two transactions that both go for the same pair of seats can reach a wait-for cycle if and only if one of them locks by a multi-row UPDATE, two refunds excepted, which the booking row keeps apart |
| Deadlock.OptimisticUpdatesDeadlock | app/inventory/strategies/optimistic.py:111-122 | For any two available seats, two optimistic attempts reach a cycle in which nobody can move |
| Deadlock.ConfirmationsDeadlock | app/booking/confirm.py:113-129 | So do two confirmations over the same two seats, whichever they are |
| Deadlock.PessimisticMeetsConfirmation | app/inventory/strategies/pessimistic.py:73-77 | So do a mode (a) acquire and a confirmation over any two seats, in spite of the ordered locks |
| Progress.NaiveOversells | app/inventory/strategies/naive.py:62-105 | For every n >= 2 there is a run of the same step system where n sessions all report success on one seat with the same hold window and the row names only the last; no legal history grants two holds within that window unless somebody confirms or extends |
| Progress.NaiveUndoesBooking | app/inventory/strategies/naive.py:62-105 | If a seat read as free was held and confirmed by another session meanwhile, the naive write takes it back to HELD with a lower version and leaves its `booking_id`, a row the coherence check rejects |
| Requests.AcquireIsHold | app/inventory/strategies/pessimistic.py:114-158 | Acquiring a list succeeds exactly when every seat exists and is reclaimable (and, optimistically, none is listed twice); it holds all of them or none; seats are reported missing exactly if some are, and rejected exactly if all exist and one is taken |
| Requests.FirstTakenIsNamed | app/inventory/strategies/pessimistic.py:146-155 | The refusal names the first listed seat that is taken |
| Requests.NoDurationNoHold | app/domain/state_machine.py:47-48 | Without a positive duration nothing is held, and the call raises exactly if the list is not empty and all its seats exist |
| Requests.AnyNIsHold | app/inventory/strategies/pessimistic.py:160-249 | Any-N succeeds exactly when N seats of the event are available and not locked by others, and holds the N lowest ids |
| Requests.AnyNTakesTheRightSeats | app/inventory/strategies/pessimistic.py:199-211 | Every seat taken belongs to the event, is not locked by others, and is AVAILABLE or HELD with its expiry reached; every such seat not taken has a higher id; and the call succeeds exactly when there are at least N of them |
| Requests.SweepTakesTheRightSeats | workers/sweeper.py:181-187 | A pass takes, of the HELD rows with their expiry reached that others have not locked, the first `batch_size` by id |
| Requests.SweepIsExpire | workers/sweeper.py:157-205 | A sweep is the legal expiry of the first `batch_size` overdue unlocked rows by id |
| Requests.CreateIsCreate | app/booking/create.py:63-115 | A booking is created exactly when each seat is a live hold of the session and the unique index accepts; a refusal lists exactly the others |
| Requests.CreatedBookingIsAsAsked | app/booking/create.py:95-110 | Created means one new booking, PENDING and unconfirmed, with the seat list, session, user and key of the request, and nothing else changed |
| Requests.CreatedCanBeConfirmed | app/booking/confirm.py:178-215 | A booking created over a duplicate-free list of live holds, none of a refunded booking, can be confirmed by its session as long as the holds last, and then owns all its seats |
| Requests.ConfirmWriteIsConfirm | app/booking/confirm.py:113-175 | The three guarded statements go through exactly when the domain confirmation is legal, and write exactly its result |
| Requests.ConfirmIsConfirm | app/booking/confirm.py:178-215 | The confirm transaction succeeds exactly when the confirmation is legal and otherwise changes nothing |
| Requests.ConfirmAnswers | app/booking/confirm.py:178-215 | Which of the seven answers the confirm route gives, on every state with the invariant: no booking, a seat missing or listed twice, a seat not a live hold of the session, booking not PENDING, empty list or a seat left blocked by a refund, key in use, or confirmed |
| Requests.SucceededIsOp | workers/payment_worker.py:101-188 | Whatever others committed between its check and its write, `payment.succeeded` is one legal operation on the tables as it finds them or nothing; APPLIED means the booking has been confirmed or is REFUND_REQUIRED |
| Requests.SucceededVerdict | workers/payment_worker.py:101-188 | Seen PENDING with every seat listed once and held beyond now: the confirmation if it is legal at the write, else rejected with a rollback; seen PENDING otherwise: APPLIED and REFUND_REQUIRED if the booking is still PENDING, else rejected; seen CONFIRMED: APPLIED and nothing changed; any other status, or no booking: REJECTED and nothing changed |
| Requests.RefundedIsOp | workers/payment_worker.py:191-246 | `payment.refunded` is applied exactly when it saw the booking CONFIRMED and the refund is still legal when it writes, and is then that refund |
| SweepErasure.AttemptKeepsInv | app/domain/invariants.py:48-120 | Every request, on any input, keeps the invariant |
| SweepErasure.AttemptIsOp | app/api/routes/booking.py:133-190 | Every undisturbed request succeeds exactly when the operation it asks for is legal and what it needs besides is given, and is then that operation; otherwise it changes nothing |
| SweepErasure.ViewDecides | app/domain/state_machine.py:50-56 | Every guard and every write depends on a seat only up to its version and expired-HELD versus AVAILABLE |
| SweepErasure.SweepErased | workers/sweeper.py:157-205 | For any sequence of undisturbed requests with non-decreasing `now`, deleting all sweeper passes, and nothing else, leaves every outcome and every seat choice the same, and the tables equal up to versions and lazy expiry |
| SweepRace.SweepDefeatsAttempt | app/inventory/strategies/optimistic.py:254-290 | In an interleaving it may not: for any seat with an overdue hold, a validated attempt wins alone and conflicts if one sweeper pass comes before its UPDATE; a request with a single try has then failed, one with more tries can still succeed |
| Strategies.SweepCostsIff | app/inventory/strategies/optimistic.py:193-195 | With one sweeper pass between read and UPDATE, an attempt conflicts exactly when it was accepted and the pass takes one of its seats, or a seat is listed twice |
| Strategies.SweepCostsOneAttempt | app/inventory/strategies/optimistic.py:277-297 | The attempt a pass falls into, or else the undisturbed next one, has the outcome there would have been without the pass |
| Payments.OnlyLocksHoldUp | workers/payment_worker.py:249-288 | Others can commit around an open batch whatever does not need one of its rows; what it has not committed never makes their operation illegal |
| Payments.TurnKeepsOpen | workers/payment_worker.py:264-288 | One iteration of the batch loop keeps the committed store and the batch's view consistent and equal outside its rows, whatever others commit before and during it and whether or not it rolls back |
| Payments.BatchKeepsSInv | workers/payment_worker.py:249-288 | A whole batch with others committing inside it keeps tables, outbox and event marks consistent, and only moves bookings forward |
| Payments.OnlySurvivingSuffixCommits | app/booking/confirm.py:130-164 | A batch that reaches its commit, going on after a rollback with the events it selected, commits what others committed and what it did itself after its last lost confirm write; that event is REJECTED, all earlier ones are unprocessed again and nothing they did is left |
| Payments.DeadBatchLeavesNothing | workers/payment_worker.py:249-288 | A batch that dies before its commit, for instance because it cannot read its next event after a rollback, leaves the tables as others committed them and every event as it was |
| Payments.BatchDrainsQueue | workers/payment_worker.py:249-288 | Of the events waiting when it began, every non-empty batch that reaches its commit, going on after rollbacks, takes at least one off the queue and puts none back |
| Payments.SInvAlways | workers/payment_worker.py:249-288 | The invariant holds after every history of deliveries, requests and batches, with any commits of others inside the batches and any batch dying before its commit |
| Payments.RequestDoesItsOp | app/api/routes/bookings.py:85-205 | In a history every request other than a payment does the operation it asks for exactly if it is legal and its needs are met; a confirmation adds its outbox row, and nothing else changes |
| Payments.ExactlyOnce | workers/payment_worker.py:264-288 | An APPLIED event stands for exactly one committed effect on its booking, and no two events claim one refund |
| Payments.FirstDeliveryIsKept | app/payments/ingest.py:112-147 | The first delivery of an id stores its kind and time, with its booking and waiting if that exists, as UNRESOLVED if not; a later one is a duplicate and changes nothing |
| Payments.HandlerVerdict | workers/payment_worker.py:264-288 | By kind of event: a successful payment settles its booking as `SucceededVerdict` says, a refund is applied exactly to a booking CONFIRMED when seen and when written, everything else is REJECTED and changes nothing |
| Payments.VerdictsRecorded | workers/payment_worker.py:264-288 | Each event of a batch bears its handler's verdict at the end, unless a confirm write is lost after it |
| Payments.BatchCountsAll | workers/payment_worker.py:264-288 | Every event of a batch is counted once, as applied or as rejected |
| Payments.PaymentSettles | workers/payment_worker.py:101-188 | From delivery to the end of the batch that handles it alone, a payment for a PENDING booking ends in exactly one of three ways, each with its status, its outbox row and its mark: confirmed with all seats BOOKED for it, refund demanded because not all seats are held, or rejected because the held seats are blocked by a refund or there are none |
| Payments.RedeliveryIrrelevant | app/payments/ingest.py:112-147 | The final state of any history equals that of the history with every later delivery of a seen event id removed, between batches and inside them, UNRESOLVED first deliveries included |
| Payments.KeepFirstDeliversOnce | app/payments/ingest.py:112-147 | That shortened history delivers each id once at most, none of those seen before, and every other id the history delivers |
| Idempotency.SafeUnderAnyReaper | app/infra/idempotency.py:179-206 | Whatever the reaper takes: at most one booking carries a key, carrying implies COMPLETED, FAILED implies nobody carries it, and each reaping allows at most one won reclaim |
| Idempotency.CompletedAbsorbing | app/infra/idempotency.py:236-240 | COMPLETED is never left |
| Idempotency.RecoveryNeverNeeded | workers/idempotency_reaper.py:105-126 | In every reachable state the reaper marks the row FAILED; the recovery branch is dead |
| Idempotency.SameKeySameAnswer | app/infra/idempotency.py:145-216 | If only dead requests are reaped: one booking at most per key, one answer for all callers given a response, exactly one winner per reclaim |
| Idempotency.FingerprintDecides | app/infra/idempotency.py:169-216 | Over every run: a request that executes, reclaims, or was given a fresh response, a stored one or InProgress has the fingerprint stored under its key, and an answered request was told Conflict exactly when its fingerprint differs |
| Idempotency.FingerprintStays | app/infra/idempotency.py:145-155 | The fingerprint stored under a key never changes |
| Idempotency.FirstRequestIsServed | app/infra/idempotency.py:145-157 | The first request under a key executes, its commit stores its response with its fingerprint, and until then it can be reaped exactly from the timeout after it began |
| Idempotency.RepeatedRequestIsAnswered | app/infra/idempotency.py:161-216 | A later request changes nothing but its own fate: Conflict for another fingerprint; for the same one InProgress, the stored response, or, for a FAILED row, a retry that restarts the timeout |
| Idempotency.MarkerSafeIff | app/infra/idempotency.py:236-240 | Over every run, whatever is reaped, a key has one booking at most and one response exactly when every commit under it found the row not COMPLETED or holding the same response |
| Idempotency.LiveReapBreaksIdempotency | app/infra/idempotency.py:236-240 | A run in which a slow live request is reaped creates two bookings and two answers under one key |
| Realtime.SectionCoalescer.Record | app/realtime/coalescer.py:113-121 | Last write wins within a window; first-touch order and the raw count are kept |
| Realtime.SectionCoalescer.Flush | app/realtime/coalescer.py:123-149 | One diff per touched seat whose rendering changed, last state advanced for all touched seats, window cleared |
| Realtime.FlushSendsChanges | app/realtime/coalescer.py:50-149 | A flush sends, once each, exactly the touched seats that were never flushed or whose status or expiry differs from what was last flushed, in the state recorded last |
| Realtime.ApplySeatDiffs | web/src/realtime/client.ts:104-110 | Folds the version-discarding update over the diffs |
| Realtime.BuildSeatMap | web/src/realtime/client.ts:49-64 | Exactly the listed seats, each with its last entry |
| Realtime.ClientNeverRegresses | web/src/realtime/client.ts:89-102 | Whatever arrives, client versions never decrease and the set of seats never changes |
| Realtime.CoalescedEqualsNaive | app/realtime/coalescer.py:113-149 | With per-seat in-order arrival, after every flush the client shows the status and expiry a client fed every raw update shows, which are those of the last recorded state |
| Realtime.TopIsHighest | web/src/realtime/client.ts:89-102 | A client fed every update ends with the first update of the highest version, or what it started with |
| Realtime.WindowAgreesIff | app/realtime/coalescer.py:113-149 | After any window, in any order and from any state, the client agrees with naive fanout exactly when the update that reaches it, or else what it had, looks like the highest version recorded |
| Realtime.AgreesIffFaithful | app/realtime/coalescer.py:120-149 | A seat in agreement when a window starts is in agreement after its flush if and only if the window's last update is newer than the client's and looks like the highest version recorded, or is not newer and the client already looks like it |
| Realtime.OutOfOrderDisagrees | app/realtime/coalescer.py:120-121 | An older update arriving late makes a window unfaithful and leaves the client HELD where naive fanout shows BOOKED |
| Realtime.RawUpdatesConserved | app/realtime/coalescer.py:121-149 | Every raw update is counted by exactly one flush or is still pending |
| Realtime.FlushesCompress | app/realtime/coalescer.py:123-149 | Over every sequence the flushes send no more diffs than the raw updates they report |
| Reconciler.Ttl | app/infra/hold_cache.py:61-62 | At least one second; the key lapses within the last second of the hold and never later, if a second is left |
| Reconciler.CheckErrsTowardsUnavailable | app/infra/hold_cache.py:90-119 | However the mirror drifts, the check only errs towards unavailable, and exactly when a key covers an available seat |
| Reconciler.HoldMirror.ReconcileOnce | workers/reconciler.py:189-294 | Candidates are exactly the divergent seats outside the grace window, each once; mirror and counters follow the second looks |
| Reconciler.EveryCandidateCounted | workers/reconciler.py:237-294 | With arbitrary changes to both stores, divergences plus transients equals candidates |
| Reconciler.CountedByKind | workers/reconciler.py:237-294 | Each kind of divergence has its own pair of counters, which together count its candidates |
| Reconciler.SecondLookDecides | workers/reconciler.py:237-294 | Whatever others did since the first look, a candidate that still differs in the same way is counted as a divergence and repaired; one that agrees or differs in another way is counted as transient and left alone; no other key is touched |
| Reconciler.RepairAgrees | workers/reconciler.py:281-285 | Each repair makes the key agree with the re-read row and touches no other key |
| Reconciler.QuietPassRepairsAll | workers/reconciler.py:189-294 | Undisturbed, one pass leaves every seat not changed within the grace period with a key exactly if it is HELD, naming its holder; it leaves the other keys alone, and a second pass finds nothing |
| Checks.CheckConservation | app/domain/invariants.py:16-28 | Passes exactly when the counts per status add up to the total |
| Checks.HowManyCounts | app/domain/invariants.py:16-28 | The counts are the numbers of seats in each status |
| Checks.CheckNoDoubleBooking | app/domain/invariants.py:31-45 | Passes exactly when no seat id is listed twice |
| Checks.CheckStateCoherence | app/domain/invariants.py:48-91 | Passes exactly when the hold columns are set on HELD seats only and on all of them, and `booking_id` likewise on BOOKED ones |
| Checks.CheckBookingLinkage | app/domain/invariants.py:94-120 | Passes exactly when both views of being booked agree on every seat |
| Checks.ReachableStatesPass | app/domain/invariants.py:16-120 | Every state any interleaving reaches passes the first three checks, and the fourth exactly when no seat's booking was refunded |
| Strategies.OptimisticStrategy.Acquire | app/inventory/strategies/optimistic.py:219-306 | The outcome is that of the first attempt without conflict; attempts, conflicts, retries and total sleep are accounted exactly; only duplicate-free lists succeed |
| Strategies.OptimisticStrategy.Attempt | app/inventory/strategies/optimistic.py:238-290 | One read, validation, versioned UPDATE and commit or rollback; a deadlock counts as a conflict |
| Strategies.OptimisticStrategy.Backoff | app/inventory/strategies/optimistic.py:348-365 | Sleeps at most base * 2^(attempt-1), and exactly that without jitter |
| Strategies.CeilingDoubles | app/inventory/strategies/optimistic.py:363-365 | The first ceiling is the base and each later one twice the one before |
| Strategies.SleepBudgetGrows | app/inventory/strategies/optimistic.py:363-365 | The sleep bound base * (2^retries - 1) grows with the number of retries |
| Strategies.StatusGuardSuffices | app/inventory/strategies/optimistic.py:195 | An UPDATE of all listed rows under the status guard alone, with no version check, is a legal hold of exactly those seats |
| Strategies.WinIsHold | app/inventory/strategies/optimistic.py:183-197 | A winning attempt is a legal hold of exactly the seats asked for, in the state its UPDATE saw, whatever changed since the read |
| Strategies.QuietTry | app/inventory/strategies/optimistic.py:237-306 | Undisturbed, an attempt conflicts exactly when a seat is listed twice; otherwise the first attempt decides as specified |
| Strategies.PessimisticStrategy.Acquire | app/inventory/strategies/pessimistic.py:114-158 | Committed tables and outcome are the specified ones, on every rejection path too |
| Strategies.PessimisticStrategy.AcquireAnyN | app/inventory/strategies/pessimistic.py:160-249 | Likewise for any N seats of an event that others have not locked; which seats is `Requests.AnyNTakesTheRightSeats` |
| Strategies.NaiveStrategy.Acquire | app/inventory/strategies/naive.py:54-105 | Succeeds by what was read alone and overwrites the changed columns of whatever others committed in between |
| Strategies.SweepOnce | workers/sweeper.py:157-237 | Expires exactly the first `batch_size` overdue rows that others have not locked, and reports the backlog |
| Strategies.SweepDrains | workers/sweeper.py:127-205 | A pass takes exactly its batch off the backlog that nobody has locked |
| Strategies.ExtendHoldAt | app/api/routes/booking.py:133-190 | One conditional UPDATE, committed or rolled back |
| Strategies.ExtendIsExtend | app/api/routes/booking.py:173-182 | Succeeds exactly for a live hold of the session, which is then live exactly until the new expiry |
| BookingService.CreateBooking | app/booking/create.py:63-115 | Leaves the specified uncommitted state; commits nothing itself; what is stored is `Requests.CreatedBookingIsAsAsked` |
| BookingService.AttemptConfirmWrite | app/booking/confirm.py:72-175 | Writes seats, links, booking and outbox row, or rolls the whole open transaction back |
| BookingService.ConfirmBookingTransaction | app/booking/confirm.py:178-215 | Every check before any write; the specified state and outcome on each path |
| BookingService.IngestWebhook | app/payments/ingest.py:108-147 | The first delivery is recorded, resolved or UNRESOLVED; later ones change nothing |
| BookingService.SeatsStillValidFor | workers/payment_worker.py:75-98 | True exactly when every listed seat exists once and is a live hold of the booking's session |
| BookingService.ApplyPaymentSucceeded | workers/payment_worker.py:101-188 | The specified verdict, seats and open transaction, with the rowcount guard of the late success and the rollback of a lost confirm write; which verdict is `Requests.SucceededVerdict` |
| BookingService.ApplyPaymentRefunded | workers/payment_worker.py:191-246 | The specified verdict, seats and open transaction, with the rowcount guard of the refund |
| BookingService.SelectEvents | workers/payment_worker.py:250-261 | The earliest unprocessed events that others have not locked, in order of receipt, up to the limit |
| BookingService.ProcessOnce | workers/payment_worker.py:249-288 | Selects its events; the committed store, both counters and the touched seats are those of the batch specification, with others committing before and during every event; dead after any number of events it has committed nothing |
| BookingService.HandleEvent | workers/payment_worker.py:264-288 | One iteration of the loop is one turn of the batch specification |
| KeyService.IndexIsKeyFree | app/infra/tables.py:191-197 | The unique index on bookings accepts a key exactly when the key system says no other booking carries it |
| KeyService.PaymentsCarryNothing | app/booking/confirm.py:155-158 | Payment events never move a key |
| KeyService.BeginIdempotentRequest | app/infra/idempotency.py:122-216 | The INSERT, SELECT and guarded UPDATE on the session's tables move what is committed by exactly one step of the key system each, with others committing in between, and the caller is told its request's phase; which phase is `Idempotency.RepeatedRequestIsAnswered` |
| KeyService.CompleteIdempotentRequest | app/infra/idempotency.py:219-240 | Marks the key row in the caller's open transaction and commits nothing |
| KeyService.CreateBookingRoute | app/api/routes/bookings.py:85-142 | Dead after any statement or from a key clash it has committed nothing; otherwise one commit moves bookings and key row by exactly one Execute step of the system as it is then, even if others reaped or changed key rows before the marker |
| KeyService.ConfirmBookingRoute | app/api/routes/bookings.py:145-205 | Likewise for a confirmation, which moves the new key onto the booking; a missing booking is one of the rejections |
| KeyService.StaleIffReapable | workers/idempotency_reaper.py:85-97 | The rows the reaper selects from are those in progress for at least the timeout, which are the ones the key system lets it take |
| KeyService.ReapOnce | workers/idempotency_reaper.py:74-133 | The first `limit` stale rows in (user, key) order that others have not locked are each recovered or FAILED in one commit that is as many Reap steps; in reachable states none is recovered |

## Left out

- FastAPI wiring, pools, settings, logging, metrics, HTTP status mapping and Retry-After arithmetic: plumbing with no state invariant of its own.
- HMAC verification, JSON parsing and SHA-256 fingerprints: a delivery is taken as verified and parsed, a fingerprint is an opaque string.
- WebSocket and Redis pub/sub transport, and the gap between snapshot and subscribe: in-order arrival and joining at a flush boundary are hypotheses instead.
- Demo routes, seed and chaos scripts that write seats directly: they bypass the version protocol on purpose.
- Amounts, currency, event metadata, timestamps other than the ones that guard something, and hold_audit rows: they take part in no decision.
- PostgreSQL internals: a row passed over by an UPDATE because it no longer matches once it is locked is taken to be unlocked again at once, and deadlock detection is a step that any waiting client may take.
- Lock timeouts appear as an abort that any client may take at any time; the 503 translation is not modelled.
- ORM attribute expiry after a rollback in the middle of a batch: the loop either goes on with the event rows it selected or dies there; which of the two the ORM makes of it is left open.
- Redis failures: a failed SET or DELETE of a mirror key is covered as interference in the reconciler, not as a separate outcome.
- A batch of the payment worker is not itself a client of the step system: there each confirmation and refund is a transaction of its own. In Payments the batch's shared transaction runs against the committed operations of others, handler by handler, with what they commit before and between its check and its write; the three statements of one confirm write are taken together.
- A second worker taking over event rows after a rollback has released them: one worker is assumed.
- Ordering between payment.refunded and payment.succeeded on a PENDING booking: the outcome depends on arrival order, and no order independence is claimed.
- BookingService.AttemptConfirmWrite: an empty seat list is taken to be refused at the booking_seats insert, which has no row to insert.
- BookingService.ProcessOnce: the order of events received at the same time is left open; after a rollback the counters and the touched-seat set still count effects that were undone, as in the code; what is committed is stated through the tables.
- KeyService.CreateBookingRoute: others change only key rows between its statements; a rival booking committed in between shows up as the key clash. The same holds for ConfirmBookingRoute.
- KeyService.ReapOnce: the order of keys is a parameter, since it depends on the database's collation.
- The 404 of the confirm route before it begins an idempotent request: it reads and writes nothing else.
- History.ConfirmedIffOwnsAll: stated for bookings with a non-empty seat list; an empty list is trivially owned, and by the ledger invariant such a booking is never CONFIRMED.
