/** What each request does to the committed tables when its transaction runs undisturbed: the raw
    statements in order, with every rejection. Each one either changes nothing or amounts to one legal
    operation of the ledger. */
module Requests {
  import opened SeatMachine
  import opened Collections
  import opened Ledger
  import opened History
  import opened Interleaving

  // ---------------------------------------------------------------- acquiring seats

  datatype AcquireOutcome =
    | Acquired(ids: seq<int>)
    | NotFound(missing: seq<int>)
    | Rejected(seat: int)
    | Raised
    | Exhausted

  function Missing(t: Table, ids: seq<int>): seq<int> {
    if ids == [] then [] else (if ids[0] in t then [] else [ids[0]]) + Missing(t, ids[1..])
  }

  /** The first listed seat that hold() refuses. */
  function FirstRefused(t: Table, ids: seq<int>, who: Session, now: Time, duration: int): Option<int> {
    if ids == [] then None
    else if ids[0] in t && Hold(t[ids[0]], who, now, duration).Err? then Some(ids[0])
    else FirstRefused(t, ids[1..], who, now, duration)
  }

  function HeldTable(t: Table, ids: set<int>, who: Session, until: Time): Table {
    t + HoldRows(t, ids, who, until)
  }

  /** PessimisticStrategy.acquire; with `versioned`, OptimisticStrategy.acquire, which cannot satisfy a
      list with duplicates because its row count falls short of the list's length on every attempt. */
  function AcquireSpec(t: Table, ids: seq<int>, who: Session, now: Time, duration: int, versioned: bool): (Table,
      AcquireOutcome) {
    if Missing(t, ids) != [] then (t, NotFound(Missing(t, ids)))
    else if FirstRefused(t, ids, who, now, duration).Some? then
      (t, if duration <= 0 then Raised else Rejected(FirstRefused(t, ids, who, now, duration).value))
    else if versioned && |Elems(ids)| != |ids| then (t, Exhausted)
    else (HeldTable(t, Elems(ids), who, now + duration), Acquired(ids))
  }

  /** Seats of the event that can be taken; `skip` are the rows locked by others. */
  function Available(t: Table, event: int, now: Time, skip: set<int>): set<int> {
    set i | i in t && i !in skip && t[i].eventId == event && Reclaimable(t[i], now)
  }

  datatype AnyOutcome = AnyAcquired(ids: set<int>) | Insufficient(found: set<int>) | AnyRaised

  /** PessimisticStrategy.acquire_any_n */
  function AnyNSpec(t: Table, event: int, count: nat, who: Session, now: Time, duration: int, skip: set<int>): (Table,
      AnyOutcome) {
    var chosen := First(Available(t, event, now, skip), count);
    if |chosen| < count then (t, Insufficient(chosen))
    else if chosen != {} && duration <= 0 then (t, AnyRaised)
    else (HeldTable(t, chosen, who, now + duration), AnyAcquired(chosen))
  }

  // ---------------------------------------------------------------- holds

  /** extend_hold_at */
  function ExtendSpec(t: Table, seat: int, who: Session, now: Time, until: Time): (Table, bool) {
    if seat in t && HeldLive(t[seat], who, now) then (t[seat := ExtendRow(t[seat], until)], true) else (t, false)
  }

  /** sweep_once: the pass expires the first `batch` overdue rows that nobody else has locked. */
  function SweepSpec(t: Table, batch: nat, now: Time, skip: set<int>): Table {
    t + ExpireRows(t, First(Backlog(t, now) - skip, batch), now)
  }

  /** measure_backlog counts these. */
  function Backlog(t: Table, now: Time): set<int> {
    set i | i in t && Overdue(t[i], now)
  }

  // ---------------------------------------------------------------- bookings

  datatype CreateOutcome = Created | NotHeld(failed: seq<int>) | KeyTaken

  function NotHeldLive(t: Table, ids: seq<int>, who: Session, now: Time): seq<int> {
    if ids == [] then []
    else (if ids[0] in t && HeldLive(t[ids[0]], who, now) then [] else [ids[0]]) + NotHeldLive(t, ids[1..], who, now)
  }

  function NewBooking(userId: int, who: Session, ids: seq<int>, key: string): Booking {
    Booking(userId, who, PENDING, ids, Some(key), None)
  }

  /** create_booking; bid is the next identity value. */
  function CreateSpec(db: Db, bid: int, userId: int, who: Session, ids: seq<int>, key: string, now: Time): (Db,
      CreateOutcome) {
    var failed := NotHeldLive(db.seats, ids, who, now);
    if failed != [] then (db, NotHeld(failed))
    else if bid in db.bookings || !KeyFree(db, bid, userId, Some(key)) then (db, KeyTaken)
    else (db.(bookings := db.bookings[bid := NewBooking(userId, who, ids, key)]), Created)
  }

  function LiveSeats(t: Table, ids: seq<int>, who: Session, now: Time): set<int> {
    set i | i in ids && i in t && HeldLive(t[i], who, now)
  }

  function BookRows(t: Table, ids: set<int>, bid: int): Table {
    map i | i in t && i in ids :: BookRow(t[i], bid)
  }

  datatype WriteOutcome = Wrote(db: Db) | Lost | KeyClash

  /** attempt_confirm_write: conditional seat UPDATE, booking_seats INSERT, booking UPDATE. */
  function ConfirmWriteSpec(db: Db, bid: int, ids: seq<int>, who: Session, now: Time,
      key: Option<string>): WriteOutcome {
    var matched := LiveSeats(db.seats, ids, who, now);
    if |matched| != |ids| then Lost
    else if !LinksInsertable(db, bid, ids) then Lost
    else if bid !in db.bookings || db.bookings[bid].status != PENDING then Lost
    else if !KeyFree(db, bid, db.bookings[bid].userId, key) then KeyClash
    else
      var b := db.bookings[bid].(status := CONFIRMED, confirmedAt := Some(now));
      Wrote(Db(db.seats + BookRows(db.seats, matched, bid),
               db.bookings[bid := if key.Some? then b.(key := key) else b],
               db.links + NewLinks(bid, ids)))
  }

  datatype ConfirmOutcome =
    Confirmed | BookingNotFound | SeatsMissing | SeatRefused | BookingRefused | HoldLost | KeyReused

  /** confirm_booking_transaction */
  function ConfirmSpec(db: Db, bid: int, who: Session, now: Time, key: string): (Db, ConfirmOutcome) {
    if bid !in db.bookings then (db, BookingNotFound)
    else
      var ids := db.bookings[bid].seatIds;
      if |PresentSeats(db.seats, ids)| != |ids| then (db, SeatsMissing)
      else if exists i :: i in PresentSeats(db.seats, ids) && Confirm(db.seats[i], who, bid, now).Err?
      then (db, SeatRefused)
      else if ConfirmBooking(db.bookings[bid], now).Err? then (db, BookingRefused)
      else match ConfirmWriteSpec(db, bid, ids, who, now, Some(key))
           case Wrote(db') => (db', Confirmed)
           case Lost => (db, HoldLost)
           case KeyClash => (db, KeyReused)
  }

  function PresentSeats(t: Table, ids: seq<int>): set<int> {
    set i | i in ids && i in t
  }

  // ---------------------------------------------------------------- payment events

  datatype Verdict = APPLIED | REJECTED

  /** The result of one payment handler. `lost` says that the confirm write failed, which rolled back
      the whole open transaction. */
  datatype Handled = Handled(db: Db, verdict: Verdict, touched: set<int>, lost: bool)

  /** _seats_still_valid_for_booking */
  predicate SeatsStillValid(t: Table, b: Booking, now: Time) {
    |PresentSeats(t, b.seatIds)| == |b.seatIds| &&
    PresentSeats(t, b.seatIds) == LiveSeats(t, b.seatIds, b.sessionId, now)
  }

  /** _apply_payment_succeeded: what it decides rests on the tables it has `seen`, what it writes meets the
      tables as they are by then. The late-success UPDATE is guarded on PENDING and rejects without a
      rollback; a failed confirm write rolls back. */
  function SucceededBetween(seen: Db, db: Db, bid: int, now: Time): Handled {
    if bid !in seen.bookings then Handled(db, REJECTED, {}, false)
    else
      var b := seen.bookings[bid];
      if b.status == CONFIRMED then Handled(db, APPLIED, {}, false)
      else if b.status != PENDING then Handled(db, REJECTED, {}, false)
      else if !SeatsStillValid(seen.seats, b, now) then
        if bid in db.bookings && db.bookings[bid].status == PENDING
        then Handled(db.(bookings := db.bookings[bid := db.bookings[bid].(status := REFUND_REQUIRED)]),
             APPLIED, {}, false)
        else Handled(db, REJECTED, {}, false)
      else match ConfirmWriteSpec(db, bid, b.seatIds, b.sessionId, now, None)
           case Wrote(db') => Handled(db', APPLIED, Elems(b.seatIds), false)
           case _ => Handled(db, REJECTED, {}, true)
  }

  function SucceededSpec(db: Db, bid: int, now: Time): Handled {
    SucceededBetween(db, db, bid, now)
  }

  function FreeRows(t: Table, ids: seq<int>, bid: int): Table {
    map i | i in t && i in ids && BookedFor(t[i], bid) :: FreeRow(t[i])
  }

  /** _apply_payment_refunded, likewise; its UPDATE of the booking is guarded on CONFIRMED. */
  function RefundedBetween(seen: Db, db: Db, bid: int): Handled {
    if bid !in seen.bookings || RefundBooking(seen.bookings[bid]).Err? then Handled(db, REJECTED, {}, false)
    else if bid !in db.bookings || db.bookings[bid].status != CONFIRMED then Handled(db, REJECTED, {}, false)
    else
      var ids := seen.bookings[bid].seatIds;
      Handled(db.(seats := db.seats + FreeRows(db.seats, ids, bid),
                  bookings := db.bookings[bid := db.bookings[bid].(status := REFUNDED)]),
              APPLIED, Elems(ids), false)
  }

  function RefundedSpec(db: Db, bid: int): Handled {
    RefundedBetween(db, db, bid)
  }

  // ---------------------------------------------------------------- requests are ledger operations

  lemma {:induction false} NothingMissing(t: Table, ids: seq<int>)
    ensures Missing(t, ids) == [] <==> forall i :: i in ids ==> i in t
    ensures forall i :: i in Missing(t, ids) <==> i in ids && i !in t
  {
    if ids != [] {
      NothingMissing(t, ids[1..]);
      assert forall i :: i in ids <==> i == ids[0] || i in ids[1..];
    }
  }

  lemma {:induction false} NothingRefused(t: Table, ids: seq<int>, who: Session, now: Time, duration: int)
    ensures FirstRefused(t, ids, who, now, duration).None? <==>
      forall i :: i in ids && i in t ==> Hold(t[i], who, now, duration).Ok?
    ensures FirstRefused(t, ids, who, now, duration).Some? ==>
      var i := FirstRefused(t, ids, who, now, duration).value; i in ids && i in t && Hold(t[i], who, now, duration).Err?
  {
    if ids != [] {
      NothingRefused(t, ids[1..], who, now, duration);
      assert forall i :: i in ids <==> i == ids[0] || i in ids[1..];
    }
  }

  /** The unguarded UPDATE of rows that hold() accepts is a legal hold of all of them. */
  lemma HeldTableIsHold(db: Db, ids: set<int>, who: Session, now: Time, duration: int)
    requires AllCoherent(db.seats) && AllHoldable(db.seats, ids, who, now, duration)
    ensures Legal(db, HoldOp(ids, who, now, duration))
    ensures Apply(db, HoldOp(ids, who, now, duration)) == db.(seats := HeldTable(db.seats, ids, who, now + duration))
  {
    forall i | i in ids ensures Hold(db.seats[i], who, now, duration) == Ok(HoldRow(db.seats[i], who, now + duration)) {
      assert Hold(db.seats[i], who, now, duration).Ok?;
      HoldUpdateAgrees(db.seats[i], who, now, duration);
    }
    assert HoldSeats(db.seats, ids, who, now, duration) == HeldTable(db.seats, ids, who, now + duration);
  }

  /** Acquiring specific seats succeeds exactly when every listed seat exists and is reclaimable (and, for
      the versioned UPDATE, no seat is listed twice); it then holds all of them, and otherwise none. */
  lemma AcquireIsHold(db: Db, ids: seq<int>, who: Session, now: Time, duration: int, versioned: bool)
    requires AllCoherent(db.seats) && duration > 0
    ensures var (t', outcome) := AcquireSpec(db.seats, ids, who, now, duration, versioned);
      && (outcome.Acquired? <==>
           (forall i :: i in ids ==> i in db.seats && Reclaimable(db.seats[i], now)) && (versioned ==> NoDup(ids)))
      && (outcome.Acquired? ==> Legal(db, HoldOp(Elems(ids), who, now, duration)))
      && (outcome.Acquired? ==> Apply(db, HoldOp(Elems(ids), who, now, duration)) == db.(seats := t'))
      && (outcome.Acquired? ==> outcome.ids == ids)
      && (!outcome.Acquired? ==> t' == db.seats)
      && (outcome.NotFound? <==> exists i :: i in ids && i !in db.seats)
      && (outcome.NotFound? ==> forall i :: i in outcome.missing <==> i in ids && i !in db.seats)
      && (outcome.Rejected? <==>
           (forall i :: i in ids ==> i in db.seats) && exists i :: i in ids && !Reclaimable(db.seats[i], now))
      && (outcome.Rejected? ==>
           outcome.seat in ids && outcome.seat in db.seats && !Reclaimable(db.seats[outcome.seat], now))
      && !outcome.Raised?
  {
    NothingMissing(db.seats, ids);
    NothingRefused(db.seats, ids, who, now, duration);
    ElemsCard(ids);
    forall i | i in ids && i in db.seats
      ensures Hold(db.seats[i], who, now, duration).Ok? <==> Reclaimable(db.seats[i], now) {
      HoldUpdateAgrees(db.seats[i], who, now, duration);
    }
    if AcquireSpec(db.seats, ids, who, now, duration, versioned).1.Acquired? {
      HeldTableIsHold(db, Elems(ids), who, now, duration);
    }
  }

  /** The k-th listed seat is taken and none before it is. */
  ghost predicate FirstTaken(t: Table, ids: seq<int>, now: Time, k: nat)
    requires k < |ids|
  {
    && ids[k] in t && !Reclaimable(t[ids[k]], now)
    && forall j :: 0 <= j < k && ids[j] in t ==> Reclaimable(t[ids[j]], now)
  }

  /** The refusal names the first listed seat that is taken. */
  lemma {:induction false} FirstTakenIsNamed(t: Table, ids: seq<int>, who: Session, now: Time, duration: int)
    requires duration > 0 && FirstRefused(t, ids, who, now, duration).Some?
    ensures exists k: nat ::
      k < |ids| && FirstTaken(t, ids, now, k) && ids[k] == FirstRefused(t, ids, who, now, duration).value
  {
    forall i | i in t ensures Hold(t[i], who, now, duration).Ok? <==> Reclaimable(t[i], now) {
      HoldUpdateAgrees(t[i], who, now, duration);
    }
    if ids[0] !in t || Hold(t[ids[0]], who, now, duration).Ok? {
      FirstTakenIsNamed(t, ids[1..], who, now, duration);
      var rest := ids[1..];
      var k: nat :| k < |rest| && FirstTaken(t, rest, now, k) &&
        rest[k] == FirstRefused(t, rest, who, now, duration).value;
      forall j | 0 <= j < k + 1 && ids[j] in t ensures Reclaimable(t[ids[j]], now) {
        if j > 0 { assert rest[j - 1] == ids[j]; }
      }
      assert FirstTaken(t, ids, now, k + 1) && ids[k + 1] == rest[k];
    } else {
      assert FirstTaken(t, ids, now, 0) && ids[0] == FirstRefused(t, ids, who, now, duration).value;
    }
  }

  /** Without a positive duration nothing is held: hold() raises for the first seat there is. */
  lemma NoDurationNoHold(t: Table, ids: seq<int>, who: Session, now: Time, duration: int, versioned: bool)
    requires duration <= 0
    ensures var (t', outcome) := AcquireSpec(t, ids, who, now, duration, versioned);
      && t' == t
      && (outcome.NotFound? <==> exists i :: i in ids && i !in t)
      && (outcome.Raised? <==> ids != [] && forall i :: i in ids ==> i in t)
      && (outcome.Acquired? <==> ids == [])
  {
    NothingMissing(t, ids);
    NothingRefused(t, ids, who, now, duration);
    if ids != [] { assert ids[0] in ids; }
  }

  /** Asking for any N seats succeeds exactly when N are available, and takes the N with the lowest ids. */
  lemma AnyNIsHold(db: Db, event: int, count: nat, who: Session, now: Time, duration: int, skip: set<int>)
    requires AllCoherent(db.seats)
    ensures var (t', outcome) := AnyNSpec(db.seats, event, count, who, now, duration, skip);
      && (outcome.AnyAcquired? <==> count <= |Available(db.seats, event, now, skip)| && (count == 0 || duration > 0))
      && (outcome.AnyAcquired? ==>
           |outcome.ids| == count && IsFirst(outcome.ids, Available(db.seats, event, now, skip), count))
      && (outcome.AnyAcquired? ==> Legal(db, HoldOp(outcome.ids, who, now, duration)))
      && (outcome.AnyAcquired? ==> Apply(db, HoldOp(outcome.ids, who, now, duration)) == db.(seats := t'))
      && (!outcome.AnyAcquired? ==> t' == db.seats)
      && (outcome.Insufficient? <==> |Available(db.seats, event, now, skip)| < count)
      && (outcome.Insufficient? ==> outcome.found == Available(db.seats, event, now, skip))
  {
    var chosen := First(Available(db.seats, event, now, skip), count);
    SubsetCard(chosen, Available(db.seats, event, now, skip));
    assert chosen == {} <==> |chosen| == 0;
    if AnyNSpec(db.seats, event, count, who, now, duration, skip).1.AnyAcquired? {
      forall i | i in chosen ensures i in db.seats && Hold(db.seats[i], who, now, duration).Ok? {
        HoldUpdateAgrees(db.seats[i], who, now, duration);
      }
      HeldTableIsHold(db, chosen, who, now, duration);
    }
  }

  /** Column by column: a hold whose expiry has been reached. */
  predicate RunOut(seat: Seat, now: Time) {
    seat.status == HELD && seat.expiresAt.Some? && seat.expiresAt.value <= now
  }

  /** Column by column: a seat of the event, not locked by others, free or with a hold that has run out. */
  predicate Takeable(db: Db, event: int, now: Time, skip: set<int>, i: int) {
    && i in db.seats && db.seats[i].eventId == event && i !in skip
    && (db.seats[i].status == AVAILABLE || RunOut(db.seats[i], now))
  }

  /** Any-N takes seats of its event only, each takeable, the lowest ids of all takeable ones, and exactly N; it
      succeeds exactly when there are that many. */
  lemma AnyNTakesTheRightSeats(db: Db, event: int, count: nat, who: Session, now: Time, duration: int, skip: set<int>)
    requires AllCoherent(db.seats) && duration > 0
    ensures var outcome := AnyNSpec(db.seats, event, count, who, now, duration, skip).1;
      && (outcome.AnyAcquired? <==> |(set i | i in db.seats && Takeable(db, event, now, skip, i))| >= count)
      && (outcome.AnyAcquired? ==>
           |outcome.ids| == count && forall i :: i in outcome.ids ==> Takeable(db, event, now, skip, i))
      && (outcome.AnyAcquired? ==>
           forall i, j :: i in outcome.ids && Takeable(db, event, now, skip, j) && j !in outcome.ids ==> i < j)
  {
    AnyNIsHold(db, event, count, who, now, duration, skip);
    var takeable := set i | i in db.seats && Takeable(db, event, now, skip, i);
    assert forall i :: i in takeable <==> i in Available(db.seats, event, now, skip);
    assert takeable == Available(db.seats, event, now, skip);
  }

  lemma ExpiredTable(t: Table, ids: set<int>, now: Time)
    ensures ExpireSeats(t, ids, now) == t + ExpireRows(t, ids, now)
  {
    var a, b := ExpireSeats(t, ids, now), t + ExpireRows(t, ids, now);
    assert forall i :: i in a <==> i in b;
    assert forall i :: i in a ==> a[i] == b[i];
    assert a == b;
  }

  /** A sweep expires, of the seats whose hold has run out and that others have not locked, the first by id. */
  lemma SweepTakesTheRightSeats(db: Db, batch: nat, now: Time, skip: set<int>)
    ensures var ids := First(Backlog(db.seats, now) - skip, batch);
      IsFirst(ids, (set i | i in db.seats && i !in skip && RunOut(db.seats[i], now)), batch)
  {
    var due := set i | i in db.seats && i !in skip && RunOut(db.seats[i], now);
    assert forall i :: i in due <==> i in Backlog(db.seats, now) - skip;
    assert due == Backlog(db.seats, now) - skip;
  }

  lemma SweepIsExpire(db: Db, batch: nat, now: Time, skip: set<int>)
    ensures var ids := First(Backlog(db.seats, now) - skip, batch);
      Legal(db, ExpireOp(ids, now)) &&
      Apply(db, ExpireOp(ids, now)) == db.(seats := SweepSpec(db.seats, batch, now, skip))
  {
    ExpiredTable(db.seats, First(Backlog(db.seats, now) - skip, batch), now);
  }

  lemma {:induction false} NotHeldLiveEmpty(t: Table, ids: seq<int>, who: Session, now: Time)
    ensures NotHeldLive(t, ids, who, now) == [] <==> forall i :: i in ids ==> i in t && HeldLive(t[i], who, now)
    ensures forall i :: i in NotHeldLive(t, ids, who, now) <==> i in ids && !(i in t && HeldLive(t[i], who, now))
  {
    if ids != [] {
      NotHeldLiveEmpty(t, ids[1..], who, now);
      assert forall i :: i in ids <==> i == ids[0] || i in ids[1..];
    }
  }

  /** A booking is created exactly when every listed seat is a live hold of the session and the unique index
      accepts the key; a refusal names exactly the seats that are not. */
  lemma CreateIsCreate(db: Db, bid: int, userId: int, who: Session, ids: seq<int>, key: string, now: Time)
    ensures var (db', o) := CreateSpec(db, bid, userId, who, ids, key, now);
      var op := CreateOp(bid, NewBooking(userId, who, ids, key), now);
      && (o.Created? <==> (forall i :: i in ids ==> i in db.seats && HeldLive(db.seats[i], who, now)) && Legal(db, op))
      && (o.Created? ==> db' == Apply(db, op))
      && (!o.Created? ==> db' == db)
      && (o.NotHeld? <==> exists i :: i in ids && !(i in db.seats && HeldLive(db.seats[i], who, now)))
      && (o.NotHeld? ==> forall i :: i in o.failed <==> i in ids && !(i in db.seats && HeldLive(db.seats[i], who, now)))
  {
    NotHeldLiveEmpty(db.seats, ids, who, now);
  }

  /** What is stored: one new booking with what the request said, and nothing else is touched. */
  lemma CreatedBookingIsAsAsked(db: Db, bid: int, userId: int, who: Session, ids: seq<int>, key: string, now: Time)
    ensures var (db', o) := CreateSpec(db, bid, userId, who, ids, key, now);
      o.Created? ==>
        && bid !in db.bookings && db'.bookings.Keys == db.bookings.Keys + {bid}
        && (forall b :: b in db.bookings ==> db'.bookings[b] == db.bookings[b])
        && db'.bookings[bid].seatIds == ids && db'.bookings[bid].sessionId == who && db'.bookings[bid].userId == userId
        && db'.bookings[bid].key == Some(key) && db'.bookings[bid].status == PENDING
        && db'.bookings[bid].confirmedAt.None?
        && db'.seats == db.seats && db'.links == db.links
  {
  }

  /** From hold to confirmed booking: over a list of seats, each named once, that the session holds and that no
      refunded booking has left blocked, a booking can be created, and as long as the holds last, the session
      can confirm it with any key that is free. */
  lemma CreatedCanBeConfirmed(db: Db, bid: int, userId: int, who: Session, ids: seq<int>, key: string, now: Time,
      later: Time, confirmKey: string)
    requires Inv(db) && bid !in db.bookings && KeyFree(db, bid, userId, Some(key)) && ids != [] && NoDup(ids)
    requires now <= later
    requires forall i :: i in ids ==> i in db.seats && HeldLive(db.seats[i], who, later) && !OnceRefunded(db, i)
    requires KeyFree(db, bid, userId, Some(confirmKey))
    ensures var (db1, o1) := CreateSpec(db, bid, userId, who, ids, key, now);
      var (db2, o2) := ConfirmSpec(db1, bid, who, later, confirmKey);
      && o1.Created? && o2.Confirmed?
      && bid in db2.bookings && db2.bookings[bid].status == CONFIRMED && db2.bookings[bid].confirmedAt == Some(later)
      && db2.bookings[bid].key == Some(confirmKey) && db2.bookings[bid].seatIds == ids
      && (forall i :: i in ids ==> i in db2.seats && BookedFor(db2.seats[i], bid) && Active(db2, Link(bid, i)))
  {
    var (db1, o1) := CreateSpec(db, bid, userId, who, ids, key, now);
    CreateIsCreate(db, bid, userId, who, ids, key, now);
    CreatedBookingIsAsAsked(db, bid, userId, who, ids, key, now);
    assert Legal(db, CreateOp(bid, NewBooking(userId, who, ids, key), now));
    ApplyKeepsInv(db, CreateOp(bid, NewBooking(userId, who, ids, key), now));
    forall i | i in ids ensures !OnceRefunded(db1, i) {
      assert !OnceRefunded(db, i);
    }
    ConfirmableIffNeverRefunded(db1, bid, who, later, Some(confirmKey));
    ConfirmIsConfirm(db1, bid, who, later, confirmKey);
    ApplyColumns(db1, ConfirmOp(bid, who, later, Some(confirmKey)));
  }

  /** Row count and unique index together check what confirm() checks seat by seat. */
  lemma ConfirmGuardsAgree(db: Db, bid: int, who: Session, now: Time)
    requires AllCoherent(db.seats) && bid in db.bookings
    ensures var ids := db.bookings[bid].seatIds;
      ConfirmableSeats(db, bid, who, now) <==>
        |LiveSeats(db.seats, ids, who, now)| == |ids| && LinksInsertable(db, bid, ids)
    ensures var ids := db.bookings[bid].seatIds;
      |LiveSeats(db.seats, ids, who, now)| == |ids| ==> LiveSeats(db.seats, ids, who, now) == Elems(ids)
  {
    var ids := db.bookings[bid].seatIds;
    var matched := LiveSeats(db.seats, ids, who, now);
    RowCount(ids, matched);
    ElemsCard(ids);
    forall i | i in ids && i in db.seats ensures Confirm(db.seats[i], who, bid, now).Ok? <==> i in matched {
      ConfirmUpdateAgrees(db.seats[i], who, bid, now);
    }
    if |matched| == |ids| {
      assert forall i :: i in ids ==> i in matched;
    }
    if ConfirmableSeats(db, bid, who, now) {
      assert forall i :: i in Elems(ids) <==> i in matched;
    }
  }

  /** The three-statement confirm write goes through exactly when the ledger's confirmation is legal,
      and then writes exactly what the domain functions return. */
  lemma ConfirmWriteIsConfirm(db: Db, bid: int, who: Session, now: Time, key: Option<string>)
    requires AllCoherent(db.seats) && bid in db.bookings
    ensures var out := ConfirmWriteSpec(db, bid, db.bookings[bid].seatIds, who, now, key);
      && (out.Wrote? <==> Legal(db, ConfirmOp(bid, who, now, key)))
      && (out.Wrote? ==> out.db == Apply(db, ConfirmOp(bid, who, now, key)))
      && (out.KeyClash? <==>
           !KeyFree(db, bid, db.bookings[bid].userId, key) && Legal(db, ConfirmOp(bid, who, now, None)))
  {
    var ids := db.bookings[bid].seatIds;
    ConfirmGuardsAgree(db, bid, who, now);
    if ConfirmableSeats(db, bid, who, now) {
      forall i | i in ids ensures Confirm(db.seats[i], who, bid, now) == Ok(BookRow(db.seats[i], bid)) {
        ConfirmUpdateAgrees(db.seats[i], who, bid, now);
      }
      assert ConfirmSeats(db.seats, ids, who, bid, now) == db.seats + BookRows(db.seats, Elems(ids), bid);
    }
  }

  /** The confirm route succeeds exactly when the ledger's confirmation is legal. */
  lemma ConfirmIsConfirm(db: Db, bid: int, who: Session, now: Time, key: string)
    requires AllCoherent(db.seats)
    ensures var (db', outcome) := ConfirmSpec(db, bid, who, now, key);
      && (outcome.Confirmed? <==> Legal(db, ConfirmOp(bid, who, now, Some(key))))
      && (outcome.Confirmed? ==> db' == Apply(db, ConfirmOp(bid, who, now, Some(key))))
      && (!outcome.Confirmed? ==> db' == db)
  {
    if bid in db.bookings {
      var ids := db.bookings[bid].seatIds;
      ConfirmWriteIsConfirm(db, bid, who, now, Some(key));
      RowCount(ids, PresentSeats(db.seats, ids));
      ElemsCard(ids);
      if Legal(db, ConfirmOp(bid, who, now, Some(key))) {
        assert forall i :: i in PresentSeats(db.seats, ids) <==> i in Elems(ids);
      }
    }
  }

  lemma PresentIff(t: Table, ids: seq<int>)
    ensures PresentSeats(t, ids) == Elems(ids) <==> forall i :: i in ids ==> i in t
  {
    if forall i :: i in ids ==> i in t {
      assert forall i :: i in PresentSeats(t, ids) <==> i in Elems(ids);
    } else {
      var i :| i in ids && i !in t;
      assert i in Elems(ids) && i !in PresentSeats(t, ids);
    }
  }

  /** What the confirm route answers on any reachable state, in the order of its checks: the booking exists, its list
      names each seat once and only seats there are, the session holds all of them, the booking is PENDING, the
      list is not empty and no seat was left blocked by a refund, and the key is free. */
  lemma ConfirmAnswers(db: Db, bid: int, who: Session, now: Time, key: string)
    requires Inv(db)
    ensures var outcome := ConfirmSpec(db, bid, who, now, key).1;
      if bid !in db.bookings then outcome == BookingNotFound
      else
        var b := db.bookings[bid];
        if !NoDup(b.seatIds) || exists i :: i in b.seatIds && i !in db.seats then outcome == SeatsMissing
        else if exists i :: i in b.seatIds && !HeldLive(db.seats[i], who, now) then outcome == SeatRefused
        else if b.status != PENDING then outcome == BookingRefused
        else if b.seatIds == [] || exists i :: i in b.seatIds && OnceRefunded(db, i) then outcome == HoldLost
        else outcome == if KeyFree(db, bid, b.userId, Some(key)) then Confirmed else KeyReused
  {
    if bid in db.bookings {
      var ids := db.bookings[bid].seatIds;
      RowCount(ids, PresentSeats(db.seats, ids));
      PresentIff(db.seats, ids);
      forall i | i in PresentSeats(db.seats, ids)
        ensures Confirm(db.seats[i], who, bid, now).Ok? <==> HeldLive(db.seats[i], who, now)
      {
        ConfirmUpdateAgrees(db.seats[i], who, bid, now);
      }
      if AllHeldFor(db.seats, db.bookings[bid].(sessionId := who), now) && db.bookings[bid].status == PENDING {
        ConfirmWriteAnswers(db, bid, who, now, key);
      }
    }
  }

  lemma ConfirmWriteAnswers(db: Db, bid: int, who: Session, now: Time, key: string)
    requires Inv(db) && bid in db.bookings && db.bookings[bid].status == PENDING
    requires AllHeldFor(db.seats, db.bookings[bid].(sessionId := who), now)
    ensures var b := db.bookings[bid];
      var out := ConfirmWriteSpec(db, bid, b.seatIds, who, now, Some(key));
      if b.seatIds == [] || exists i :: i in b.seatIds && OnceRefunded(db, i) then out.Lost?
      else if KeyFree(db, bid, b.userId, Some(key)) then out.Wrote? else out.KeyClash?
  {
    ConfirmWriteIsConfirm(db, bid, who, now, Some(key));
    if db.bookings[bid].seatIds != [] {
      ConfirmableIffNeverRefunded(db, bid, who, now, None);
      assert KeyFree(db, bid, db.bookings[bid].userId, Some(key)) ==>
        (Legal(db, ConfirmOp(bid, who, now, None)) <==> Legal(db, ConfirmOp(bid, who, now, Some(key))));
    }
  }

  /** Others have committed in between: no booking has disappeared, and what a booking row never changes is
      still the same. */
  ghost predicate Later(seen: Db, db: Db, bid: int) {
    bid in seen.bookings ==>
      && bid in db.bookings && db.bookings[bid].seatIds == seen.bookings[bid].seatIds
      && db.bookings[bid].sessionId == seen.bookings[bid].sessionId
      && (EverConfirmed(seen.bookings[bid]) ==> EverConfirmed(db.bookings[bid]))
  }

  /** The operation a payment.succeeded event performs, if any. */
  function SucceededOp(seen: Db, bid: int, now: Time): Op {
    if bid !in seen.bookings || !SeatsStillValid(seen.seats, seen.bookings[bid], now) then LateOp(bid, now)
    else ConfirmOp(bid, seen.bookings[bid].sessionId, now, None)
  }

  /** A payment.succeeded event performs one legal operation on the tables as they are when it writes, or
      nothing; APPLIED means that its booking has been confirmed or is to be refunded. */
  lemma SucceededIsOp(seen: Db, db: Db, bid: int, now: Time)
    requires AllCoherent(db.seats) && Later(seen, db, bid)
    ensures var h := SucceededBetween(seen, db, bid, now);
      && (h.db == db || (Legal(db, SucceededOp(seen, bid, now)) && h.db == Apply(db, SucceededOp(seen, bid, now))))
      && (h.verdict == APPLIED ==>
           bid in h.db.bookings && (EverConfirmed(h.db.bookings[bid]) || h.db.bookings[bid].status == REFUND_REQUIRED))
      && (h.verdict == REJECTED ==> h.db == db)
  {
    if bid in seen.bookings {
      var b := seen.bookings[bid];
      ConfirmWriteIsConfirm(db, bid, b.sessionId, now, None);
    }
  }

  /** Column by column: the list names each seat once, and each is held by the booking's session beyond now. */
  ghost predicate AllHeldFor(t: Table, b: Booking, now: Time) {
    && NoDup(b.seatIds)
    && forall i :: i in b.seatIds ==>
         && i in t && t[i].status == HELD && t[i].heldBy == Some(b.sessionId)
         && t[i].expiresAt.Some? && now < t[i].expiresAt.value
  }

  lemma ValidMeansAllHeld(t: Table, b: Booking, now: Time)
    ensures SeatsStillValid(t, b, now) <==> AllHeldFor(t, b, now)
  {
    var present, live := PresentSeats(t, b.seatIds), LiveSeats(t, b.seatIds, b.sessionId, now);
    RowCount(b.seatIds, present);
    PresentIff(t, b.seatIds);
    if SeatsStillValid(t, b, now) {
      assert forall i :: i in b.seatIds ==> i in present && i in live;
    } else if AllHeldFor(t, b, now) {
      assert forall i :: i in present <==> i in live;
      assert false;
    }
  }

  /** What a payment.succeeded event does, case by case on what it saw: it confirms if every seat was still held and
      the confirmation is legal when it writes, it demands a refund if not every seat was held and the booking
      is still PENDING when it writes, it is satisfied with a booking already CONFIRMED, and it is rejected
      otherwise. */
  ghost predicate Settles(seen: Db, db: Db, bid: int, now: Time, h: Handled)
    requires bid in seen.bookings
  {
    var b, confirmation := seen.bookings[bid], ConfirmOp(bid, seen.bookings[bid].sessionId, now, None);
    if b.status == CONFIRMED then h == Handled(db, APPLIED, {}, false)
    else if b.status != PENDING then h == Handled(db, REJECTED, {}, false)
    else if AllHeldFor(seen.seats, b, now) then
      if Legal(db, confirmation) then h == Handled(Apply(db, confirmation), APPLIED, Elems(b.seatIds), false)
      else h == Handled(db, REJECTED, {}, true)
    else if Legal(db, LateOp(bid, now)) then h == Handled(Apply(db, LateOp(bid, now)), APPLIED, {}, false)
    else h == Handled(db, REJECTED, {}, false)
  }

  lemma SucceededVerdict(seen: Db, db: Db, bid: int, now: Time)
    requires AllCoherent(db.seats) && Later(seen, db, bid)
    ensures bid !in seen.bookings ==> SucceededBetween(seen, db, bid, now) == Handled(db, REJECTED, {}, false)
    ensures bid in seen.bookings ==> Settles(seen, db, bid, now, SucceededBetween(seen, db, bid, now))
  {
    if bid in seen.bookings {
      var b := seen.bookings[bid];
      ValidMeansAllHeld(seen.seats, b, now);
      ConfirmWriteIsConfirm(db, bid, b.sessionId, now, None);
    }
  }

  /** A payment.refunded event is applied exactly when it saw the booking CONFIRMED and the refund is still
      legal when it writes, and is then that refund. */
  lemma RefundedIsOp(seen: Db, db: Db, bid: int, now: Time)
    requires AllCoherent(db.seats) && Later(seen, db, bid)
    ensures var h := RefundedBetween(seen, db, bid);
      && (h.verdict == APPLIED <==>
           bid in seen.bookings && seen.bookings[bid].status == CONFIRMED && Legal(db, RefundOp(bid, now)))
      && (h.verdict == APPLIED ==>
           h.db == Apply(db, RefundOp(bid, now)) && h.touched == Elems(db.bookings[bid].seatIds))
      && (h.verdict == REJECTED ==> h.db == db && h.touched == {})
      && !h.lost
  {
    if Legal(db, RefundOp(bid, now)) {
      var ids := db.bookings[bid].seatIds;
      forall i | i in db.seats && BookedFor(db.seats[i], bid) ensures Release(db.seats[i]) == Ok(FreeRow(db.seats[i])) {
        RefundUpdateAgrees(db.seats[i], bid);
      }
      assert ReleaseSeats(db.seats, ids, bid) == db.seats + FreeRows(db.seats, ids, bid);
    }
  }
}
