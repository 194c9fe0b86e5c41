/** The committed database (seats, bookings, booking_seats) and the atomic operations that may
    change it, each defined by the domain functions. The transactions that run concurrently are shown
    to amount to sequences of these operations in Refinement, so what is proved about every sequence
    holds for every interleaving of their statements there. */
module Ledger {
  import opened SeatMachine
  import opened Collections

  // ---------------------------------------------------------------- bookings

  datatype BookingStatus = PENDING | CONFIRMED | CANCELLED | REFUNDED | REFUND_REQUIRED

  datatype Booking = Booking(
    userId: int,
    sessionId: Session,
    status: BookingStatus,
    seatIds: seq<int>,
    key: Option<string>,
    confirmedAt: Option<Time>)

  /** app/domain/booking_state_machine.py */
  function ConfirmBooking(b: Booking, now: Time): Result<Booking> {
    if b.status != PENDING then Err(IllegalTransition)
    else Ok(b.(status := CONFIRMED, confirmedAt := Some(now)))
  }

  function RequireRefund(b: Booking): Result<Booking> {
    if b.status != PENDING then Err(IllegalTransition) else Ok(b.(status := REFUND_REQUIRED))
  }

  function RefundBooking(b: Booking): Result<Booking> {
    if b.status != CONFIRMED then Err(IllegalTransition) else Ok(b.(status := REFUNDED))
  }

  // ---------------------------------------------------------------- tables

  type Table = map<int, Seat>

  /** Primary key of booking_seats; the table maps it to released_at. */
  datatype Link = Link(booking: int, seat: int)

  datatype Db = Db(seats: Table, bookings: map<int, Booking>, links: map<Link, Option<Time>>)

  predicate Active(db: Db, l: Link) {
    l in db.links && db.links[l].None?
  }

  /** Seats covered by the partial unique index `booking_seats(seat_id) WHERE released_at IS NULL`. */
  function ActiveSeats(db: Db): set<int> {
    set l | l in db.links && db.links[l].None? :: l.seat
  }

  /** The unique index on bookings(user_id, idempotency_key) would accept this key on this booking. */
  predicate KeyFree(db: Db, bid: int, userId: int, key: Option<string>) {
    key.Some? ==> forall b :: b in db.bookings && b != bid ==>
      !(db.bookings[b].userId == userId && db.bookings[b].key == key)
  }

  // ---------------------------------------------------------------- atomic operations

  datatype Op =
    | HoldOp(ids: set<int>, who: Session, now: Time, duration: int)
    | ExtendOp(seat: int, who: Session, now: Time, until: Time)
    | ExpireOp(ids: set<int>, now: Time)
    | CreateOp(bid: int, booking: Booking, now: Time)
    | ConfirmOp(bid: int, who: Session, now: Time, key: Option<string>)
    | LateOp(bid: int, now: Time)
    | RefundOp(bid: int, now: Time)

  predicate Legal(db: Db, op: Op) {
    match op
    case HoldOp(ids, who, now, duration) =>
      forall i :: i in ids ==> i in db.seats && Hold(db.seats[i], who, now, duration).Ok?
    case ExtendOp(i, who, now, _) =>
      i in db.seats && HeldLive(db.seats[i], who, now)
    case ExpireOp(ids, now) =>
      forall i :: i in ids ==> i in db.seats && Expire(db.seats[i], now).Ok?
    case CreateOp(bid, b, _) =>
      bid !in db.bookings && b.status == PENDING && b.confirmedAt.None? && KeyFree(db, bid, b.userId, b.key)
    case ConfirmOp(bid, who, now, key) =>
      && bid in db.bookings
      && ConfirmBooking(db.bookings[bid], now).Ok?
      && ConfirmableSeats(db, bid, who, now)
      && KeyFree(db, bid, db.bookings[bid].userId, key)
    case LateOp(bid, _) =>
      bid in db.bookings && RequireRefund(db.bookings[bid]).Ok?
    case RefundOp(bid, _) =>
      bid in db.bookings && RefundBooking(db.bookings[bid]).Ok?
  }

  /** The seat half of a confirmation: every seat of the (non-empty, duplicate-free) list passes
      confirm(), and the primary key and partial unique index of booking_seats accept the new rows. */
  predicate ConfirmableSeats(db: Db, bid: int, who: Session, now: Time)
    requires bid in db.bookings
  {
    var ids := db.bookings[bid].seatIds;
    && |Elems(ids)| == |ids|
    && (forall i :: i in ids ==> i in db.seats && Confirm(db.seats[i], who, bid, now).Ok?)
    && LinksInsertable(db, bid, ids)
  }

  /** booking_seats accepts one new row per listed seat. An insert without rows is refused as well. */
  predicate LinksInsertable(db: Db, bid: int, ids: seq<int>) {
    ids != [] && forall i :: i in ids ==> i !in ActiveSeats(db) && Link(bid, i) !in db.links
  }

  function HoldSeats(t: Table, ids: set<int>, who: Session, now: Time, duration: int): Table {
    map i | i in t ::
      if i in ids && Hold(t[i], who, now, duration).Ok? then Hold(t[i], who, now, duration).value else t[i]
  }

  function ExpireSeats(t: Table, ids: set<int>, now: Time): Table {
    map i | i in t :: if i in ids && Expire(t[i], now).Ok? then Expire(t[i], now).value else t[i]
  }

  function ConfirmSeats(t: Table, ids: seq<int>, who: Session, bid: int, now: Time): Table {
    map i | i in t ::
      if i in ids && Confirm(t[i], who, bid, now).Ok? then Confirm(t[i], who, bid, now).value else t[i]
  }

  function ReleaseSeats(t: Table, ids: seq<int>, bid: int): Table {
    map i | i in t ::
      if i in ids && BookedFor(t[i], bid) && Release(t[i]).Ok? then Release(t[i]).value else t[i]
  }

  function NewLinks(bid: int, ids: seq<int>): map<Link, Option<Time>> {
    map i | i in ids :: Link(bid, i) := None
  }

  function Apply(db: Db, op: Op): Db
    requires Legal(db, op)
  {
    match op
    case HoldOp(ids, who, now, duration) => db.(seats := HoldSeats(db.seats, ids, who, now, duration))
    case ExtendOp(i, who, now, until) => db.(seats := db.seats[i := ExtendRow(db.seats[i], until)])
    case ExpireOp(ids, now) => db.(seats := ExpireSeats(db.seats, ids, now))
    case CreateOp(bid, b, _) => db.(bookings := db.bookings[bid := b])
    case ConfirmOp(bid, who, now, key) =>
      var b := db.bookings[bid];
      var confirmed := ConfirmBooking(b, now).value;
      Db(ConfirmSeats(db.seats, b.seatIds, who, bid, now),
         db.bookings[bid := if key.Some? then confirmed.(key := key) else confirmed],
         db.links + NewLinks(bid, b.seatIds))
    case LateOp(bid, _) => db.(bookings := db.bookings[bid := RequireRefund(db.bookings[bid]).value])
    case RefundOp(bid, _) =>
      db.(seats := ReleaseSeats(db.seats, db.bookings[bid].seatIds, bid),
          bookings := db.bookings[bid := RefundBooking(db.bookings[bid]).value])
  }

  function Now(op: Op): Time { op.now }

  // ---------------------------------------------------------------- the operations, column by column

  /** The row after an operation wrote these columns; id and event never change and every write counts. */
  function Rewritten(seat: Seat, status: SeatStatus, heldBy: Option<Session>, expiresAt: Option<Time>,
      bookingId: Option<int>): Seat {
    Seat(seat.id, seat.eventId, status, seat.version + 1, heldBy, expiresAt, bookingId)
  }

  /** When each operation is allowed. */
  lemma LegalColumns(db: Db, op: Op)
    ensures Legal(db, op) <==>
      match op
      case HoldOp(ids, _, now, duration) =>
        forall i :: i in ids ==>
          && i in db.seats && duration > 0
          && (db.seats[i].status == AVAILABLE ||
              (db.seats[i].status == HELD && db.seats[i].expiresAt.Some? && db.seats[i].expiresAt.value <= now))
      case ExtendOp(i, who, now, _) =>
        && i in db.seats && db.seats[i].status == HELD && db.seats[i].heldBy == Some(who)
        && db.seats[i].expiresAt.Some? && now < db.seats[i].expiresAt.value
      case ExpireOp(ids, now) =>
        forall i :: i in ids ==>
          && i in db.seats && db.seats[i].status == HELD
          && db.seats[i].expiresAt.Some? && db.seats[i].expiresAt.value <= now
      case CreateOp(bid, b, _) =>
        && bid !in db.bookings && b.status == PENDING && b.confirmedAt.None?
        && (b.key.Some? ==> forall c :: c in db.bookings ==>
             db.bookings[c].userId != b.userId || db.bookings[c].key != b.key)
      case ConfirmOp(bid, who, now, key) =>
        && bid in db.bookings && db.bookings[bid].status == PENDING
        && db.bookings[bid].seatIds != [] && NoDup(db.bookings[bid].seatIds)
        && (forall i :: i in db.bookings[bid].seatIds ==>
             && i in db.seats && db.seats[i].status == HELD && db.seats[i].heldBy == Some(who)
             && (db.seats[i].expiresAt.Some? ==> now < db.seats[i].expiresAt.value))
        && (forall l :: l in db.links && (db.links[l].None? || l.booking == bid) ==>
             l.seat !in db.bookings[bid].seatIds)
        && (key.Some? ==> forall c :: c in db.bookings && c != bid ==>
             db.bookings[c].userId != db.bookings[bid].userId || db.bookings[c].key != key)
      case LateOp(bid, _) => bid in db.bookings && db.bookings[bid].status == PENDING
      case RefundOp(bid, _) => bid in db.bookings && db.bookings[bid].status == CONFIRMED
  {
    if op.ConfirmOp? && op.bid in db.bookings {
      var ids := db.bookings[op.bid].seatIds;
      ElemsCard(ids);
      LinksColumns(db, op.bid, ids);
    }
  }

  lemma LinksColumns(db: Db, bid: int, ids: seq<int>)
    ensures LinksInsertable(db, bid, ids) <==>
      ids != [] && forall l :: l in db.links && (db.links[l].None? || l.booking == bid) ==> l.seat !in ids
  {
    if forall l :: l in db.links && (db.links[l].None? || l.booking == bid) ==> l.seat !in ids {
      forall i | i in ids ensures i !in ActiveSeats(db) && Link(bid, i) !in db.links {
        assert Link(bid, i) in db.links ==> Link(bid, i).seat !in ids;
      }
    }
    if LinksInsertable(db, bid, ids) {
      forall l | l in db.links && (db.links[l].None? || l.booking == bid) ensures l.seat !in ids {
        assert l.booking == bid ==> l == Link(bid, l.seat);
      }
    }
  }

  /** What each operation writes; all the rest stays as it is. */
  lemma ApplyColumns(db: Db, op: Op)
    requires Legal(db, op)
    ensures var db' := Apply(db, op);
      && db'.seats.Keys == db.seats.Keys
      && (!op.ConfirmOp? ==> db'.links == db.links)
      && match op
         case HoldOp(ids, who, now, duration) =>
           && db'.bookings == db.bookings
           && forall i :: i in db.seats ==>
                db'.seats[i] == if i in ids
                                then Rewritten(db.seats[i], HELD, Some(who), Some(now + duration), None)
                                else db.seats[i]
         case ExtendOp(seat, who, _, until) =>
           && db'.bookings == db.bookings
           && forall i :: i in db.seats ==>
                db'.seats[i] == if i == seat
                                then Rewritten(db.seats[i], HELD, Some(who), Some(until), db.seats[i].bookingId)
                                else db.seats[i]
         case ExpireOp(ids, _) =>
           && db'.bookings == db.bookings
           && forall i :: i in db.seats ==>
                db'.seats[i] == if i in ids then Rewritten(db.seats[i], AVAILABLE, None, None, None) else db.seats[i]
         case CreateOp(bid, b, _) => db'.seats == db.seats && db'.bookings == db.bookings[bid := b]
         case ConfirmOp(bid, _, now, key) =>
           var b := db.bookings[bid];
           && db'.bookings == db.bookings[bid := Booking(b.userId, b.sessionId, CONFIRMED, b.seatIds,
                                                         if key.Some? then key else b.key, Some(now))]
           && (forall i :: i in db.seats ==>
                db'.seats[i] == if i in b.seatIds then Rewritten(db.seats[i], BOOKED, None, None, Some(bid))
                                else db.seats[i])
           && (forall l :: l in db'.links <==> l in db.links || (l.booking == bid && l.seat in b.seatIds))
           && (forall l :: l in db'.links ==>
                db'.links[l] == if l.booking == bid && l.seat in b.seatIds then None else db.links[l])
         case LateOp(bid, _) =>
           var b := db.bookings[bid];
           && db'.seats == db.seats
           && db'.bookings ==
              db.bookings[bid := Booking(b.userId, b.sessionId, REFUND_REQUIRED, b.seatIds, b.key, b.confirmedAt)]
         case RefundOp(bid, _) =>
           var b := db.bookings[bid];
           && db'.bookings ==
              db.bookings[bid := Booking(b.userId, b.sessionId, REFUNDED, b.seatIds, b.key, b.confirmedAt)]
           && (forall i :: i in db.seats ==>
                db'.seats[i] == if i in b.seatIds && db.seats[i].status == BOOKED && db.seats[i].bookingId == Some(bid)
                                then Rewritten(db.seats[i], AVAILABLE, None, None, None) else db.seats[i])
  {
    if op.ConfirmOp? {
      var ids := db.bookings[op.bid].seatIds;
      forall l: Link ensures l in NewLinks(op.bid, ids) <==> l.booking == op.bid && l.seat in ids {
        assert l.booking == op.bid && l.seat in ids ==> l == Link(op.bid, l.seat);
      }
    }
  }

  // ---------------------------------------------------------------- the invariant

  ghost predicate AllCoherent(t: Table) {
    forall i :: i in t ==> Coherent(t[i])
  }

  /** Whoever a BOOKED seat says owns it is a CONFIRMED booking that claims it. */
  ghost predicate SeatsPointToOwners(db: Db) {
    forall i :: i in db.seats && db.seats[i].bookingId.Some? ==>
      var b := db.seats[i].bookingId.value;
      b in db.bookings && db.bookings[b].status == CONFIRMED && i in db.bookings[b].seatIds
  }

  ghost predicate OwnersHaveSeats(db: Db) {
    forall b, i :: b in db.bookings && db.bookings[b].status == CONFIRMED && i in db.bookings[b].seatIds ==>
      i in db.seats && db.seats[i].bookingId == Some(b)
  }

  predicate EverConfirmed(b: Booking) {
    b.status == CONFIRMED || b.status == REFUNDED
  }

  /** booking_seats, exactly: one never-released row per seat of each booking that was ever confirmed. */
  ghost predicate LinksExact(db: Db) {
    && (forall l :: l in db.links <==>
         l.booking in db.bookings && EverConfirmed(db.bookings[l.booking]) && l.seat in db.bookings[l.booking].seatIds)
    && (forall l :: l in db.links ==> db.links[l].None?)
    && (forall l, m :: l in db.links && m in db.links && l.seat == m.seat ==> l == m)
  }

  ghost predicate ConfirmedListsClean(db: Db) {
    forall b :: b in db.bookings && EverConfirmed(db.bookings[b]) ==>
      db.bookings[b].seatIds != [] && NoDup(db.bookings[b].seatIds)
  }

  ghost predicate KeysUnique(db: Db) {
    forall b :: b in db.bookings ==> KeyFree(db, b, db.bookings[b].userId, db.bookings[b].key)
  }

  ghost predicate Inv(db: Db) {
    && AllCoherent(db.seats)
    && SeatsPointToOwners(db)
    && OwnersHaveSeats(db)
    && LinksExact(db)
    && ConfirmedListsClean(db)
    && KeysUnique(db)
  }

  /** A freshly seeded event satisfies the invariant. */
  lemma FreshDbInv(db: Db)
    requires db.bookings == map[] && db.links == map[]
    requires forall i :: i in db.seats ==> Coherent(db.seats[i]) && db.seats[i].status == AVAILABLE
    ensures Inv(db)
  {
  }

  /** Changing seats without touching who owns them keeps the invariant if the rows stay coherent. */
  lemma SameOwnersInv(db: Db, t: Table)
    requires Inv(db) && AllCoherent(t)
    requires forall i :: i in t <==> i in db.seats
    requires forall i :: i in t ==> t[i].bookingId == db.seats[i].bookingId
    ensures Inv(db.(seats := t))
  {
    var db' := db.(seats := t);
    forall b | b in db'.bookings ensures KeyFree(db', b, db'.bookings[b].userId, db'.bookings[b].key) {
      assert KeyFree(db, b, db.bookings[b].userId, db.bookings[b].key);
    }
  }

  lemma HoldKeepsInv(db: Db, op: Op)
    requires Inv(db) && Legal(db, op) && (op.HoldOp? || op.ExtendOp? || op.ExpireOp?)
    ensures Inv(Apply(db, op))
  {
    var t := Apply(db, op).seats;
    assert forall i :: i in t <==> i in db.seats;
    assert forall i :: i in t ==> Coherent(t[i]) && t[i].bookingId == db.seats[i].bookingId;
    SameOwnersInv(db, t);
  }

  lemma LateKeepsInv(db: Db, op: Op)
    requires Inv(db) && Legal(db, op) && op.LateOp?
    ensures Inv(Apply(db, op))
  {
    var db' := Apply(db, op);
    forall b | b in db'.bookings ensures KeyFree(db', b, db'.bookings[b].userId, db'.bookings[b].key) {
      assert KeyFree(db, b, db.bookings[b].userId, db.bookings[b].key);
    }
  }

  lemma CreateKeepsInv(db: Db, op: Op)
    requires Inv(db) && Legal(db, op) && op.CreateOp?
    ensures Inv(Apply(db, op))
  {
    var db' := Apply(db, op);
    forall b | b in db'.bookings
      ensures KeyFree(db', b, db'.bookings[b].userId, db'.bookings[b].key)
    {
      if b != op.bid {
        assert KeyFree(db, b, db.bookings[b].userId, db.bookings[b].key);
      }
    }
  }

  lemma ConfirmSeatFacts(db: Db, op: Op)
    requires AllCoherent(db.seats) && Legal(db, op) && op.ConfirmOp?
    ensures var db', ids := Apply(db, op), db.bookings[op.bid].seatIds;
      && NoDup(ids)
      && AllCoherent(db'.seats)
      && (forall i :: i in db'.seats <==> i in db.seats)
      && (forall i :: i in ids ==>
           i in db.seats && db'.seats[i].bookingId == Some(op.bid) && db.seats[i].bookingId.None?)
      && (forall i :: i in db.seats && i !in ids ==> db'.seats[i] == db.seats[i])
  {
    ElemsCard(db.bookings[op.bid].seatIds);
  }

  lemma ConfirmKeepsLinks(db: Db, op: Op)
    requires LinksExact(db) && Legal(db, op) && op.ConfirmOp?
    ensures LinksExact(Apply(db, op))
  {
    var db', ids := Apply(db, op), db.bookings[op.bid].seatIds;
    forall l ensures l in db'.links <==> l in db.links || (l.booking == op.bid && l.seat in ids) {
      assert l.booking == op.bid && l.seat in ids ==> l == Link(op.bid, l.seat);
    }
    forall i, l | i in ids && l in db.links ensures l.seat != i {
      assert db.links[l].None? && i !in ActiveSeats(db);
    }
  }

  lemma ConfirmKeepsKeys(db: Db, op: Op)
    requires KeysUnique(db) && Legal(db, op) && op.ConfirmOp?
    ensures KeysUnique(Apply(db, op))
  {
    var db' := Apply(db, op);
    forall b | b in db'.bookings
      ensures KeyFree(db', b, db'.bookings[b].userId, db'.bookings[b].key)
    {
      assert KeyFree(db, b, db.bookings[b].userId, db.bookings[b].key);
      assert KeyFree(db, op.bid, db.bookings[op.bid].userId, db.bookings[op.bid].key);
    }
  }

  /** Confirming bid writes its name on its seats, which nobody owned, and touches nothing else. */
  lemma OwnersAfterConfirm(db: Db, db': Db, bid: int, ids: seq<int>)
    requires SeatsPointToOwners(db) && OwnersHaveSeats(db)
    requires bid in db.bookings && bid in db'.bookings && db'.bookings[bid].status == CONFIRMED
    requires db'.bookings[bid].seatIds == ids
    requires db.bookings[bid].status == PENDING
    requires forall b :: b in db'.bookings <==> b in db.bookings
    requires forall b :: b in db.bookings && b != bid ==> db'.bookings[b] == db.bookings[b]
    requires forall i :: i in db'.seats <==> i in db.seats
    requires forall i :: i in ids ==>
      i in db.seats && db'.seats[i].bookingId == Some(bid) && db.seats[i].bookingId.None?
    requires forall i :: i in db.seats && i !in ids ==> db'.seats[i] == db.seats[i]
    ensures SeatsPointToOwners(db') && OwnersHaveSeats(db')
  {
    forall b, i | b in db'.bookings && db'.bookings[b].status == CONFIRMED && i in db'.bookings[b].seatIds
      ensures i in db'.seats && db'.seats[i].bookingId == Some(b)
    {
      assert b == bid || (b in db.bookings && db.bookings[b] == db'.bookings[b]);
    }
  }

  lemma ConfirmKeepsOwners(db: Db, op: Op)
    requires AllCoherent(db.seats) && SeatsPointToOwners(db) && OwnersHaveSeats(db) && Legal(db, op) && op.ConfirmOp?
    ensures SeatsPointToOwners(Apply(db, op)) && OwnersHaveSeats(Apply(db, op)) && AllCoherent(Apply(db, op).seats)
  {
    ConfirmSeatFacts(db, op);
    OwnersAfterConfirm(db, Apply(db, op), op.bid, db.bookings[op.bid].seatIds);
  }

  lemma ConfirmKeepsLists(db: Db, op: Op)
    requires ConfirmedListsClean(db) && Legal(db, op) && op.ConfirmOp?
    ensures ConfirmedListsClean(Apply(db, op))
  {
    ElemsCard(db.bookings[op.bid].seatIds);
  }

  lemma ConfirmKeepsInv(db: Db, op: Op)
    requires Inv(db) && Legal(db, op) && op.ConfirmOp?
    ensures Inv(Apply(db, op))
  {
    ConfirmKeepsOwners(db, op);
    ConfirmKeepsLists(db, op);
    ConfirmKeepsLinks(db, op);
    ConfirmKeepsKeys(db, op);
  }

  lemma RefundKeepsInv(db: Db, op: Op)
    requires Inv(db) && Legal(db, op) && op.RefundOp?
    ensures Inv(Apply(db, op))
  {
    var db', ids := Apply(db, op), db.bookings[op.bid].seatIds;
    forall i | i in db'.seats
      ensures i in ids ==> db'.seats[i].bookingId.None? && Coherent(db'.seats[i])
      ensures i !in ids ==> db'.seats[i] == db.seats[i]
    {
      if i in ids {
        assert db.seats[i].bookingId == Some(op.bid);
        assert Coherent(db.seats[i]);
      }
    }
    assert SeatsPointToOwners(db') by {
      forall i | i in db'.seats && db'.seats[i].bookingId.Some?
        ensures var b := db'.seats[i].bookingId.value;
          b in db'.bookings && db'.bookings[b].status == CONFIRMED && i in db'.bookings[b].seatIds
      {
        assert i !in ids;
      }
    }
    assert OwnersHaveSeats(db') by {
      forall b, i | b in db'.bookings && db'.bookings[b].status == CONFIRMED && i in db'.bookings[b].seatIds
        ensures i in db'.seats && db'.seats[i].bookingId == Some(b)
      {
        assert b != op.bid && db.bookings[b] == db'.bookings[b];
        assert db.seats[i].bookingId == Some(b);
      }
    }
    forall b | b in db'.bookings
      ensures KeyFree(db', b, db'.bookings[b].userId, db'.bookings[b].key)
    {
      assert KeyFree(db, b, db.bookings[b].userId, db.bookings[b].key);
    }
  }

  /** Every legal operation keeps the invariant. */
  lemma ApplyKeepsInv(db: Db, op: Op)
    requires Inv(db) && Legal(db, op)
    ensures Inv(Apply(db, op))
  {
    match op
    case CreateOp(_, _, _) => CreateKeepsInv(db, op);
    case ConfirmOp(_, _, _, _) => ConfirmKeepsInv(db, op);
    case RefundOp(_, _) => RefundKeepsInv(db, op);
    case LateOp(_, _) => LateKeepsInv(db, op);
    case _ => HoldKeepsInv(db, op);
  }
}
