/** The seat state machine (app/domain/models.py, app/domain/state_machine.py) and, beside it,
    the raw column writes that the SQL statements elsewhere in the system perform.

    A seat moves AVAILABLE -> HELD -> BOOKED, back to AVAILABLE by expiry, and from BOOKED back
    to AVAILABLE by release. Times are integers; every function takes `now` explicitly. */
module SeatMachine {

  type Time = int
  type Session = string

  datatype Option<+T> = None | Some(value: T)

  datatype SeatStatus = AVAILABLE | HELD | BOOKED

  datatype Seat = Seat(
    id: int,
    eventId: int,
    status: SeatStatus,
    version: int,
    heldBy: Option<Session>,
    expiresAt: Option<Time>,
    bookingId: Option<int>)

  datatype Refusal = SeatUnavailable | IllegalTransition | NotHoldOwner | HoldExpired | InvalidDuration

  datatype Result<+T> = Ok(value: T) | Err(reason: Refusal)

  // ---------------------------------------------------------------- domain functions

  predicate IsHoldExpired(seat: Seat, now: Time) {
    seat.expiresAt.Some? && seat.expiresAt.value <= now
  }

  function Hold(seat: Seat, who: Session, now: Time, duration: int): Result<Seat> {
    if duration <= 0 then Err(InvalidDuration)
    else if seat.status == BOOKED || (seat.status == HELD && !IsHoldExpired(seat, now)) then Err(SeatUnavailable)
    else Ok(seat.(status := HELD, version := seat.version + 1, heldBy := Some(who),
                  expiresAt := Some(now + duration), bookingId := None))
  }

  function Confirm(seat: Seat, who: Session, booking: int, now: Time): Result<Seat> {
    if seat.status != HELD then Err(IllegalTransition)
    else if seat.heldBy != Some(who) then Err(NotHoldOwner)
    else if IsHoldExpired(seat, now) then Err(HoldExpired)
    else Ok(seat.(status := BOOKED, version := seat.version + 1, heldBy := None,
                  expiresAt := None, bookingId := Some(booking)))
  }

  function Expire(seat: Seat, now: Time): Result<Seat> {
    if seat.status != HELD || !IsHoldExpired(seat, now) then Err(IllegalTransition)
    else Ok(seat.(status := AVAILABLE, version := seat.version + 1, heldBy := None,
                  expiresAt := None, bookingId := None))
  }

  function Release(seat: Seat): Result<Seat> {
    if seat.status == AVAILABLE then Err(IllegalTransition)
    else Ok(seat.(status := AVAILABLE, version := seat.version + 1, heldBy := None,
                  expiresAt := None, bookingId := None))
  }

  /** What check_state_coherence (app/domain/invariants.py) demands of one seat. */
  predicate Coherent(seat: Seat) {
    match seat.status
    case AVAILABLE => seat.heldBy.None? && seat.expiresAt.None? && seat.bookingId.None?
    case HELD => seat.heldBy.Some? && seat.expiresAt.Some? && seat.bookingId.None?
    case BOOKED => seat.heldBy.None? && seat.expiresAt.None? && seat.bookingId.Some?
  }

  // ---------------------------------------------------------------- raw SQL row guards and writes
  // A comparison with a NULL column is never true in SQL, hence the Some? conjuncts.

  /** `status = 'AVAILABLE' OR (status = 'HELD' AND hold_expires_at <= :now)` */
  predicate Reclaimable(row: Seat, now: Time) {
    row.status == AVAILABLE || Overdue(row, now)
  }

  /** `status = 'HELD' AND hold_expires_at <= :now` */
  predicate Overdue(row: Seat, now: Time) {
    row.status == HELD && row.expiresAt.Some? && row.expiresAt.value <= now
  }

  /** `status = 'HELD' AND held_by_session_id = :who AND hold_expires_at > :now` */
  predicate HeldLive(row: Seat, who: Session, now: Time) {
    row.status == HELD && row.heldBy == Some(who) && row.expiresAt.Some? && row.expiresAt.value > now
  }

  /** `status = 'BOOKED' AND booking_id = :booking` */
  predicate BookedFor(row: Seat, booking: int) {
    row.status == BOOKED && row.bookingId == Some(booking)
  }

  /** The hold UPDATEs: booking_id is not among the columns written. */
  function HoldRow(row: Seat, who: Session, until: Time): Seat {
    row.(status := HELD, version := row.version + 1, heldBy := Some(who), expiresAt := Some(until))
  }

  function BookRow(row: Seat, booking: int): Seat {
    row.(status := BOOKED, version := row.version + 1, heldBy := None, expiresAt := None,
         bookingId := Some(booking))
  }

  function ExtendRow(row: Seat, until: Time): Seat {
    row.(expiresAt := Some(until), version := row.version + 1)
  }

  /** The refund UPDATE: held_by_session_id and hold_expires_at are not among the columns written. */
  function FreeRow(row: Seat): Seat {
    row.(status := AVAILABLE, version := row.version + 1, bookingId := None)
  }

  // ---------------------------------------------------------------- raw writes against the domain

  /** The hold UPDATE matches exactly the rows hold() accepts, whatever the row holds; it writes what
      hold() returns exactly when booking_id is already NULL, which coherence guarantees. */
  lemma HoldUpdateAgrees(row: Seat, who: Session, now: Time, duration: int)
    requires duration > 0
    ensures Hold(row, who, now, duration).Ok? <==> Reclaimable(row, now)
    ensures Reclaimable(row, now) ==>
      (Hold(row, who, now, duration) == Ok(HoldRow(row, who, now + duration)) <==> row.bookingId.None?)
    ensures Reclaimable(row, now) && Coherent(row) ==>
      Hold(row, who, now, duration) == Ok(HoldRow(row, who, now + duration))
      && Coherent(HoldRow(row, who, now + duration))
  {
    assert Hold(row, who, now, duration).Ok? ==>
      (Hold(row, who, now, duration).value == HoldRow(row, who, now + duration) <==> row.bookingId.None?);
  }

  /** confirm() and the confirm UPDATE differ on exactly one family of rows: HELD rows with no expiry. */
  lemma ConfirmUpdateAgrees(row: Seat, who: Session, booking: int, now: Time)
    ensures Confirm(row, who, booking, now).Ok? <==>
      (HeldLive(row, who, now) || (row.status == HELD && row.heldBy == Some(who) && row.expiresAt.None?))
    ensures Coherent(row) ==> (Confirm(row, who, booking, now).Ok? <==> HeldLive(row, who, now))
    ensures Confirm(row, who, booking, now).Ok? ==>
      Confirm(row, who, booking, now) == Ok(BookRow(row, booking)) && Coherent(BookRow(row, booking))
  {
  }

  /** The refund UPDATE writes what release() returns exactly when the hold columns are already NULL. */
  lemma RefundUpdateAgrees(row: Seat, booking: int)
    requires BookedFor(row, booking)
    ensures Release(row).Ok?
    ensures Release(row) == Ok(FreeRow(row)) <==> row.heldBy.None? && row.expiresAt.None?
    ensures Coherent(row) ==> Release(row) == Ok(FreeRow(row)) && Coherent(FreeRow(row))
  {
    assert Release(row).value == FreeRow(row) <==> row.heldBy.None? && row.expiresAt.None?;
  }

  /** "Confirmable" and "reclaimable" split a coherent hold with no gap and no overlap, at every
      instant: the holder can confirm and extend it exactly until the expiry, and from then on it can be taken. */
  lemma ConfirmableXorReclaimable(seat: Seat, holder: Session, rival: Session, booking: int, now: Time, duration: int)
    requires Coherent(seat) && seat.status == HELD && seat.heldBy == Some(holder) && duration > 0
    ensures Confirm(seat, holder, booking, now).Ok? <==> !Hold(seat, rival, now, duration).Ok?
    ensures Confirm(seat, holder, booking, now).Ok? <==> !Expire(seat, now).Ok?
    ensures Confirm(seat, holder, booking, now).Ok? <==> HeldLive(seat, holder, now)
    ensures Confirm(seat, holder, booking, now).Ok? <==> now < seat.expiresAt.value
  {
  }
}
