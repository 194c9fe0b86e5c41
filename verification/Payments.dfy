/** Webhook ingestion and the payment worker: keep-first deduplication, batches that share one transaction
    while others commit around them, rollback in the middle of a batch, and exactly-once effects. */
module Payments {
  import opened SeatMachine
  import opened Collections
  import opened Ledger
  import opened History
  import opened Requests
  import N = Interleaving
  import E = SweepErasure
  import I = Idempotency

  // ---------------------------------------------------------------- tables

  /** processing_status: NULL, a worker's verdict, or UNRESOLVED at ingestion. */
  datatype Mark = Unprocessed | Processed(verdict: Verdict) | Unresolved

  datatype Event = Event(bookingId: Option<int>, kind: string, receivedAt: Time, mark: Mark)

  /** The booking of an event whose booking_id resolved. */
  function Target(ev: Event): int {
    if ev.bookingId.Some? then ev.bookingId.value else 0
  }

  const SUCCEEDED := "payment.succeeded"
  const REFUND := "payment.refunded"

  /** An outbox row: the booking reached this status (booking.confirmed, booking.refund_required,
      booking.refunded). */
  datatype Msg = Msg(booking: int, reached: BookingStatus)

  /** All committed tables: seats, bookings and booking_seats; payment_events; outbox; idempotency_keys. */
  datatype Store = Store(db: Db, events: map<string, Event>, outbox: seq<Msg>, keys: map<I.Key, I.KeyRow>)

  // ---------------------------------------------------------------- ingestion

  datatype IngestOutcome = Accepted | Duplicate | NoBooking

  /** ingest_webhook from the INSERT on; the signature has been verified and the body parsed. */
  function IngestSpec(s: Store, eid: string, kind: string, raw: Option<int>, now: Time): (Store, IngestOutcome) {
    var resolved := raw.Some? && raw.value in s.db.bookings;
    if eid in s.events then (s, Duplicate)
    else if resolved then (s.(events := s.events[eid := Event(raw, kind, now, Unprocessed)]), Accepted)
    else (s.(events := s.events[eid := Event(None, kind, now, Unresolved)]), NoBooking)
  }

  /** An event id is recorded by its first delivery, as delivered and waiting for the worker if its booking exists,
      as UNRESOLVED if not; every later delivery changes nothing. */
  lemma FirstDeliveryIsKept(s: Store, eid: string, kind: string, raw: Option<int>, now: Time)
    ensures var (s', o) := IngestSpec(s, eid, kind, raw, now);
      && (o.Duplicate? <==> eid in s.events) && (o.Duplicate? ==> s' == s)
      && (o.Accepted? <==> eid !in s.events && raw.Some? && raw.value in s.db.bookings)
      && s'.db == s.db && s'.outbox == s.outbox && s'.keys == s.keys
      && s'.events.Keys == s.events.Keys + {eid}
      && (forall e :: e in s.events ==> s'.events[e] == s.events[e])
      && (!o.Duplicate? ==> s'.events[eid].kind == kind && s'.events[eid].receivedAt == now)
      && (o.Accepted? ==> s'.events[eid].bookingId == raw && s'.events[eid].mark == Unprocessed)
      && (o.NoBooking? ==> s'.events[eid].bookingId == None && s'.events[eid].mark == Unresolved)
  {
  }

  // ---------------------------------------------------------------- what others commit meanwhile

  /** The outbox row written together with a status change. */
  function Notice(before: Db, after: Db, bid: int): seq<Msg> {
    if bid in before.bookings && bid in after.bookings && before.bookings[bid].status != after.bookings[bid].status
    then [Msg(bid, after.bookings[bid].status)] else []
  }

  /** The store after an operation with its outbox row. */
  function After(s: Store, op: Op): Store
    requires Legal(s.db, op)
  {
    var db := Apply(s.db, op);
    s.(db := db,
       outbox := s.outbox + (if op.ConfirmOp? || op.LateOp? || op.RefundOp? then Notice(s.db, db, op.bid) else []))
  }

  /** What another transaction may commit while a batch is open: an operation, or a delivered event. */
  datatype Foreign =
    | Commits(op: Op)
    | Arrives(eid: string, kind: string, raw: Option<int>, now: Time)

  /** The seat and booking rows the open transaction has written. */
  datatype Locks = Locks(seats: set<int>, bookings: set<int>)

  const NO_LOCKS := Locks({}, {})

  predicate Avoids(db: Db, op: Op, l: Locks) {
    N.OpSeats(db, op) !! l.seats && (N.OpBooking(op).Some? ==> N.OpBooking(op).value !in l.bookings)
  }

  /** A batch in progress: the tables committed by everybody, the tables as its transaction sees them, the
      rows it has written, its counters, and the operations others have committed since it began. */
  datatype Open = Open(base: Store, work: Store, locks: Locks, applied: nat, rejected: nat, touched: set<int>,
      log: seq<Op>)

  function Opened(s: Store): Open {
    Open(s, s, NO_LOCKS, 0, 0, {}, [])
  }

  predicate Admits(o: Open, op: Op) {
    Legal(o.base.db, op) && Legal(o.work.db, op) && Avoids(o.base.db, op, o.locks)
  }

  /** Others commit to the shared tables and the batch sees it, unless they would have to wait for one of its
      rows. */
  function Meddle(o: Open, f: Foreign): Open {
    match f
    case Commits(op) =>
      if Admits(o, op)
      then o.(base := After(o.base, op), work := After(o.work, op), log := o.log + [op])
      else o
    case Arrives(eid, kind, raw, now) =>
      o.(base := IngestSpec(o.base, eid, kind, raw, now).0, work := IngestSpec(o.work, eid, kind, raw, now).0)
  }

  function MeddleAll(o: Open, fs: seq<Foreign>): Open {
    if fs == [] then o else Meddle(MeddleAll(o, fs[..|fs| - 1]), fs[|fs| - 1])
  }

  // ---------------------------------------------------------------- handling one event

  /** The event's handler: it decides on the tables it has seen and writes to them as they are by then. */
  function HandlerSpec(seen: Db, db: Db, ev: Event, now: Time): Handled {
    if ev.bookingId.None? then Handled(db, REJECTED, {}, false)
    else if ev.kind == SUCCEEDED then SucceededBetween(seen, db, Target(ev), now)
    else if ev.kind == REFUND then RefundedBetween(seen, db, Target(ev))
    else Handled(db, REJECTED, {}, false)
  }

  function SetMark(s: Store, eid: string, v: Verdict): Store {
    if eid in s.events then s.(events := s.events[eid := s.events[eid].(mark := Processed(v))]) else s
  }

  /** One event of a batch, what others commit before it is handled, and what they commit between its check
      and its write. */
  datatype Turn = Turn(eid: string, before: seq<Foreign>, between: seq<Foreign>)

  function Count1(o: Open, h: Handled): Open {
    o.(applied := o.applied + (if h.verdict == APPLIED then 1 else 0),
       rejected := o.rejected + (if h.verdict == APPLIED then 0 else 1), touched := o.touched + h.touched)
  }

  /** The transaction after the handler returned. A lost confirm write has rolled it back to what is committed
      by then, before the verdict is recorded. */
  function Settle(o: Open, seen: Db, ev: Event, eid: string, now: Time): Open {
    var h := HandlerSpec(seen, o.work.db, ev, now);
    if h.lost then Count1(o, h).(work := SetMark(o.base, eid, REJECTED), locks := NO_LOCKS)
    else Count1(o, h).(work := Handle(o.work, h, ev, eid), locks := Lock(o.locks, o.work.db, h, ev))
  }

  /** One iteration of the batch loop. */
  function TurnSpec(o: Open, t: Turn, now: Time): Open {
    var seen := MeddleAll(o, t.before);
    var met := MeddleAll(seen, t.between);
    if t.eid in seen.work.events then Settle(met, seen.work.db, seen.work.events[t.eid], t.eid, now) else met
  }

  function Handle(s: Store, h: Handled, ev: Event, eid: string): Store {
    var notices := if ev.bookingId.Some? then Notice(s.db, h.db, Target(ev)) else [];
    SetMark(s.(db := h.db, outbox := s.outbox + notices), eid, h.verdict)
  }

  function Lock(l: Locks, db: Db, h: Handled, ev: Event): Locks {
    if h.db == db then l else Locks(l.seats + h.touched, l.bookings + {Target(ev)})
  }

  function RunTurns(o: Open, turns: seq<Turn>, now: Time): Open {
    if turns == [] then o else TurnSpec(RunTurns(o, turns[..|turns| - 1], now), turns[|turns| - 1], now)
  }

  /** process_once up to its commit; what it commits is the transaction's view at the end. */
  function BatchSpec(s: Store, turns: seq<Turn>, now: Time): Open {
    RunTurns(Opened(s), turns, now)
  }

  // ---------------------------------------------------------------- the invariant

  function Count(s: Store, b: int, reached: BookingStatus): nat {
    multiset(s.outbox)[Msg(b, reached)]
  }

  predicate CountsRight(s: Store, b: int) {
    && Count(s, b, CONFIRMED) == (if b in s.db.bookings && EverConfirmed(s.db.bookings[b]) then 1 else 0)
    && Count(s, b, REFUNDED) == (if b in s.db.bookings && s.db.bookings[b].status == REFUNDED then 1 else 0)
    && Count(s, b, REFUND_REQUIRED) ==
       (if b in s.db.bookings && s.db.bookings[b].status == REFUND_REQUIRED then 1 else 0)
  }

  /** Every status a booking has ever reached is announced exactly once. */
  ghost predicate OutboxExact(s: Store) {
    forall b :: CountsRight(s, b)
  }

  /** The effect an APPLIED event stands for is in force on its booking. */
  ghost predicate EffectInForce(db: Db, ev: Event) {
    && ev.bookingId.Some? && Target(ev) in db.bookings
    && var b := db.bookings[Target(ev)];
       if ev.kind == SUCCEEDED then EverConfirmed(b) || b.status == REFUND_REQUIRED
       else ev.kind == REFUND && b.status == REFUNDED
  }

  ghost predicate EventOk(db: Db, ev: Event) {
    && (ev.mark == Processed(APPLIED) ==> EffectInForce(db, ev))
    && (ev.mark == Unprocessed ==> ev.bookingId.Some? && Target(ev) in db.bookings)
  }

  predicate SameRefund(a: Event, b: Event) {
    AppliedRefund(a) && AppliedRefund(b) && a.bookingId == b.bookingId
  }

  /** Marks tell the truth, and no booking is refunded by two events. */
  ghost predicate EventsExact(s: Store) {
    && (forall e :: e in s.events ==> EventOk(s.db, s.events[e]))
    && (forall e, f :: e in s.events && f in s.events && SameRefund(s.events[e], s.events[f]) ==> e == f)
  }

  predicate AppliedRefund(ev: Event) {
    ev.kind == REFUND && ev.mark == Processed(APPLIED)
  }

  ghost predicate SInv(s: Store) {
    Inv(s.db) && OutboxExact(s) && EventsExact(s)
  }

  // ---------------------------------------------------------------- how bookings may move

  /** No booking disappears, no seat list is revised, and statuses move only forward. */
  ghost predicate Onward(a: Db, b: Db) {
    forall k :: k in a.bookings ==>
      && k in b.bookings && a.bookings[k].seatIds == b.bookings[k].seatIds
      && a.bookings[k].sessionId == b.bookings[k].sessionId
      && (a.bookings[k].status == b.bookings[k].status
          || (a.bookings[k].status == PENDING)
          || (a.bookings[k].status == CONFIRMED && b.bookings[k].status == REFUNDED))
  }

  lemma OnwardTrans(a: Db, b: Db, c: Db)
    requires Onward(a, b) && Onward(b, c)
    ensures Onward(a, c)
  {
  }

  predicate Legit(before: BookingStatus, after: BookingStatus) {
    || before == after
    || (before == PENDING && after in {CONFIRMED, REFUND_REQUIRED})
    || (before == CONFIRMED && after == REFUNDED)
  }

  lemma NoticeCounts(s: Store, db: Db, bid: int)
    ensures var s' := s.(db := db, outbox := s.outbox + Notice(s.db, db, bid));
      forall b, r :: Count(s', b, r) == Count(s, b, r) + (if Notice(s.db, db, bid) == [Msg(b, r)] then 1 else 0)
  {
    assert multiset(s.outbox + Notice(s.db, db, bid)) == multiset(s.outbox) + multiset(Notice(s.db, db, bid));
  }

  /** Announcing a status change of one booking keeps the outbox exact. */
  lemma NoticeKeepsOutbox(s: Store, db: Db, bid: int)
    requires OutboxExact(s)
    requires forall k :: k in db.bookings <==> k in s.db.bookings
    requires forall k :: k in db.bookings && k != bid ==> db.bookings[k].status == s.db.bookings[k].status
    requires bid in db.bookings ==> Legit(s.db.bookings[bid].status, db.bookings[bid].status)
    ensures OutboxExact(s.(db := db, outbox := s.outbox + Notice(s.db, db, bid)))
  {
    var s' := s.(db := db, outbox := s.outbox + Notice(s.db, db, bid));
    NoticeCounts(s, db, bid);
    forall b ensures CountsRight(s', b) {
      assert CountsRight(s, b);
    }
  }

  lemma EventOnward(a: Db, b: Db, ev: Event)
    requires EventOk(a, ev) && Onward(a, b)
    ensures EventOk(b, ev)
  {
  }

  lemma OpOnward(db: Db, op: Op)
    requires Legal(db, op)
    ensures Onward(db, Apply(db, op))
    ensures forall k :: k in Apply(db, op).bookings <==> k in db.bookings || (op.CreateOp? && k == op.bid)
    ensures forall k :: k in db.bookings && N.OpBooking(op) != Some(k) ==> Apply(db, op).bookings[k] == db.bookings[k]
    ensures N.OpBooking(op).Some? ==>
      op.bid in db.bookings && Legit(db.bookings[op.bid].status, Apply(db, op).bookings[op.bid].status)
    ensures op.CreateOp? ==> Apply(db, op).bookings[op.bid].status == PENDING
  {
  }

  /** Rows that the outbox does not announce are not announced. */
  lemma SameOutbox(s: Store, s': Store)
    requires OutboxExact(s) && s'.outbox == s.outbox
    requires forall b :: b in s.db.bookings ==>
      b in s'.db.bookings && s'.db.bookings[b].status == s.db.bookings[b].status
    requires forall b :: b in s'.db.bookings && b !in s.db.bookings ==> s'.db.bookings[b].status == PENDING
    ensures OutboxExact(s')
  {
    forall b ensures CountsRight(s', b) {
      assert CountsRight(s, b) && forall r :: Count(s', b, r) == Count(s, b, r);
    }
  }

  lemma OpKeepsOutbox(s: Store, op: Op)
    requires OutboxExact(s) && Legal(s.db, op)
    ensures OutboxExact(After(s, op))
  {
    OpOnward(s.db, op);
    if N.OpBooking(op).Some? {
      NoticeKeepsOutbox(s, Apply(s.db, op), op.bid);
    } else {
      assert s.outbox + [] == s.outbox;
      SameOutbox(s, After(s, op));
    }
  }

  lemma EventsOnward(s: Store, s': Store)
    requires EventsExact(s) && Onward(s.db, s'.db) && s'.events == s.events
    ensures EventsExact(s')
  {
    forall e | e in s'.events ensures EventOk(s'.db, s'.events[e]) {
      EventOnward(s.db, s'.db, s.events[e]);
    }
  }

  /** Whatever is committed by others, with its outbox row, keeps the invariant. */
  lemma OpKeepsSInv(s: Store, op: Op)
    requires SInv(s) && Legal(s.db, op)
    ensures SInv(After(s, op)) && Onward(s.db, After(s, op).db)
  {
    ApplyKeepsInv(s.db, op);
    OpOnward(s.db, op);
    OpKeepsOutbox(s, op);
    EventsOnward(s, After(s, op));
  }

  lemma DeliverKeepsSInv(s: Store, eid: string, kind: string, raw: Option<int>, now: Time)
    requires SInv(s)
    ensures SInv(IngestSpec(s, eid, kind, raw, now).0) && IngestSpec(s, eid, kind, raw, now).0.db == s.db
    ensures forall e :: e in IngestSpec(s, eid, kind, raw, now).0.events <==> e in s.events || e == eid
  {
    var s' := IngestSpec(s, eid, kind, raw, now).0;
    SameOutbox(s, s');
    assert EventOk(s.db, Event(None, kind, now, Unresolved));
    assert raw.Some? && raw.value in s.db.bookings ==> Target(Event(raw, kind, now, Unprocessed)) == raw.value;
  }

  // ---------------------------------------------------------------- the batch's own rows

  /** Two states of the tables that differ at most in the locked rows. */
  ghost predicate SameOutside(a: Db, b: Db, l: Locks) {
    && (forall i :: i in a.seats <==> i in b.seats)
    && (forall i :: i in a.seats && i !in l.seats ==> a.seats[i] == b.seats[i])
    && (forall k :: k in a.bookings <==> k in b.bookings)
    && (forall k :: k in a.bookings && k !in l.bookings ==> a.bookings[k] == b.bookings[k])
    && (forall k :: k in a.bookings ==>
         a.bookings[k].userId == b.bookings[k].userId && a.bookings[k].key == b.bookings[k].key &&
         a.bookings[k].seatIds == b.bookings[k].seatIds)
    && (forall k: Link :: k.seat !in l.seats ==> (k in a.links <==> k in b.links))
    && (forall k :: k in a.links ==> a.links[k].None?) && (forall k :: k in b.links ==> b.links[k].None?)
  }

  lemma OutsideTrans(a: Db, b: Db, c: Db, l: Locks, m: Locks)
    requires SameOutside(a, b, l) && SameOutside(b, c, m)
    ensures SameOutside(a, c, Locks(l.seats + m.seats, l.bookings + m.bookings))
  {
  }

  lemma ConfirmOutside(a: Db, b: Db, l: Locks, op: Op)
    requires SameOutside(a, b, l) && Legal(a, op) && Avoids(a, op, l) && op.ConfirmOp?
    ensures Legal(b, op)
  {
    var ids := a.bookings[op.bid].seatIds;
    forall i | i in ids
      ensures i in b.seats && b.seats[i] == a.seats[i] && i !in ActiveSeats(b) && Link(op.bid, i) !in b.links {
      assert i in N.OpSeats(a, op);
      ActiveOutside(a, b, l, i);
    }
  }

  lemma ActiveOutside(a: Db, b: Db, l: Locks, i: int)
    requires SameOutside(a, b, l) && i !in l.seats
    ensures i in ActiveSeats(a) <==> i in ActiveSeats(b)
  {
  }

  /** An operation that avoids the batch's rows and is legal on the committed tables is legal on the tables the
      batch sees as well, so nobody is held up by what the batch has not committed. */
  lemma ForeignLegal(a: Db, b: Db, l: Locks, op: Op)
    requires SameOutside(a, b, l) && Legal(a, op) && Avoids(a, op, l)
    ensures Legal(b, op)
  {
    if op.ConfirmOp? { ConfirmOutside(a, b, l, op); }
  }

  lemma SeatOpKeepsOutside(a: Db, b: Db, l: Locks, op: Op)
    requires SameOutside(a, b, l) && Legal(a, op) && Legal(b, op) && Avoids(a, op, l)
    requires op.HoldOp? || op.ExtendOp? || op.ExpireOp?
    ensures SameOutside(Apply(a, op), Apply(b, op), l)
  {
  }

  lemma BookingOpKeepsOutside(a: Db, b: Db, l: Locks, op: Op)
    requires SameOutside(a, b, l) && Legal(a, op) && Legal(b, op) && Avoids(a, op, l) && (op.CreateOp? || op.LateOp?)
    ensures SameOutside(Apply(a, op), Apply(b, op), l)
  {
  }

  lemma ConfirmKeepsOutside(a: Db, b: Db, l: Locks, op: Op)
    requires SameOutside(a, b, l) && Legal(a, op) && Legal(b, op) && Avoids(a, op, l) && op.ConfirmOp?
    ensures SameOutside(Apply(a, op), Apply(b, op), l)
  {
    var a', b', ids := Apply(a, op), Apply(b, op), a.bookings[op.bid].seatIds;
    assert a.bookings[op.bid] == b.bookings[op.bid];
    LinksOutside(a, b, l, NewLinks(op.bid, ids));
    assert a'.links == a.links + NewLinks(op.bid, ids) && b'.links == b.links + NewLinks(op.bid, ids);
    assert forall i :: i in ids ==> i in N.OpSeats(a, op);
  }

  lemma LinksOutside(a: Db, b: Db, l: Locks, more: map<Link, Option<Time>>)
    requires SameOutside(a, b, l) && forall k :: k in more ==> more[k].None?
    ensures forall k: Link :: k.seat !in l.seats ==> (k in a.links + more <==> k in b.links + more)
    ensures (forall k :: k in a.links + more ==> (a.links + more)[k].None?)
    ensures (forall k :: k in b.links + more ==> (b.links + more)[k].None?)
  {
  }

  lemma RefundKeepsOutside(a: Db, b: Db, l: Locks, op: Op)
    requires SameOutside(a, b, l) && Legal(a, op) && Legal(b, op) && Avoids(a, op, l) && op.RefundOp?
    ensures SameOutside(Apply(a, op), Apply(b, op), l)
  {
    assert a.bookings[op.bid] == b.bookings[op.bid];
    assert forall i :: i in a.bookings[op.bid].seatIds ==> i in N.OpSeats(a, op);
  }

  lemma ForeignKeepsOutside(a: Db, b: Db, l: Locks, op: Op)
    requires SameOutside(a, b, l) && Legal(a, op) && Legal(b, op) && Avoids(a, op, l)
    ensures SameOutside(Apply(a, op), Apply(b, op), l)
  {
    match op
    case ConfirmOp(_, _, _, _) => ConfirmKeepsOutside(a, b, l, op);
    case RefundOp(_, _) => RefundKeepsOutside(a, b, l, op);
    case CreateOp(_, _, _) => BookingOpKeepsOutside(a, b, l, op);
    case LateOp(_, _) => BookingOpKeepsOutside(a, b, l, op);
    case _ => SeatOpKeepsOutside(a, b, l, op);
  }

  /** What a handler writes stays within what it is then taken to have locked. */
  lemma OpStaysInside(db: Db, op: Op)
    requires Inv(db) && Legal(db, op) && (op.LateOp? || op.RefundOp? || (op.ConfirmOp? && op.key.None?))
    ensures SameOutside(db, Apply(db, op), Locks(N.OpSeats(db, op), {op.bid}))
  {
    var db' := Apply(db, op);
    if op.ConfirmOp? || op.RefundOp? {
      assert forall i :: i in db.bookings[op.bid].seatIds ==> i in N.OpSeats(db, op);
    }
  }

  // ---------------------------------------------------------------- one event

  /** The operation an event asks for, given what its handler has seen. */
  function HandlerOp(seen: Db, ev: Event, now: Time): Op {
    if ev.kind == SUCCEEDED then SucceededOp(seen, Target(ev), now) else RefundOp(Target(ev), now)
  }

  /** What one handler call does: nothing, or one legal operation on the event's booking, as the tables are when
      it writes. */
  lemma HandlerMoves(seen: Db, db: Db, ev: Event, now: Time)
    requires Inv(db) && Onward(seen, db)
    ensures var h, op := HandlerSpec(seen, db, ev, now), HandlerOp(seen, ev, now);
      && (h.db == db || (Legal(db, op) && h.db == Apply(db, op) && ev.bookingId.Some?))
      && (h.lost || h.verdict == REJECTED ==> h.db == db)
      && (h.lost ==> h.verdict == REJECTED)
      && (h.verdict == APPLIED ==> EffectInForce(h.db, ev))
      && (h.verdict == APPLIED && ev.kind == REFUND ==> db.bookings[Target(ev)].status == CONFIRMED)
  {
    if ev.bookingId.Some? {
      if ev.kind == SUCCEEDED {
        SucceededIsOp(seen, db, Target(ev), now);
      } else if ev.kind == REFUND {
        RefundedIsOp(seen, db, Target(ev), now);
      }
    }
  }

  /** What the event's handler answers and does, by the kind of event and the booking it saw: a successful payment
      settles its booking, a refund is applied exactly to a booking CONFIRMED then and now, and anything else is
      rejected. */
  lemma HandlerVerdict(seen: Db, db: Db, ev: Event, now: Time)
    requires Inv(db) && Onward(seen, db)
    ensures var h, bid := HandlerSpec(seen, db, ev, now), Target(ev);
      if ev.bookingId.Some? && bid in seen.bookings && ev.kind == "payment.succeeded" then
        Settles(seen, db, bid, now, h)
      else if ev.bookingId.Some? && bid in seen.bookings && ev.kind == "payment.refunded" &&
        seen.bookings[bid].status == CONFIRMED && db.bookings[bid].status == CONFIRMED then
        h == Handled(Apply(db, RefundOp(bid, now)), APPLIED, Elems(db.bookings[bid].seatIds), false)
      else h == Handled(db, REJECTED, {}, false)
  {
    if ev.bookingId.Some? {
      SucceededVerdict(seen, db, Target(ev), now);
      RefundedIsOp(seen, db, Target(ev), now);
    }
  }

  /** The seats a handler reports are those its operation touched. */
  lemma HandlerTouches(seen: Db, db: Db, ev: Event, now: Time)
    requires Inv(db) && Onward(seen, db)
    ensures var h, op := HandlerSpec(seen, db, ev, now), HandlerOp(seen, ev, now);
      h.db != db ==> h.touched == N.OpSeats(db, op)
  {
    if ev.bookingId.Some? {
      if ev.kind == SUCCEEDED {
        SucceededIsOp(seen, db, Target(ev), now);
      } else if ev.kind == REFUND {
        RefundedIsOp(seen, db, Target(ev), now);
      }
    }
  }

  lemma RejectKeepsSInv(s: Store, eid: string)
    requires SInv(s)
    ensures SInv(SetMark(s, eid, REJECTED))
  {
    var s' := SetMark(s, eid, REJECTED);
    SameOutbox(s, s');
    forall e | e in s'.events ensures EventOk(s'.db, s'.events[e]) {
      assert EventOk(s.db, s.events[e]);
    }
  }

  /** Recording APPLIED tells the truth, and no earlier event has claimed the refund. */
  lemma AppliedKeepsEvents(s: Store, db: Db, eid: string)
    requires EventsExact(s) && Onward(s.db, db) && eid in s.events && EffectInForce(db, s.events[eid])
    requires s.events[eid].kind == REFUND ==>
      Target(s.events[eid]) in s.db.bookings && s.db.bookings[Target(s.events[eid])].status == CONFIRMED
    ensures EventsExact(SetMark(s.(db := db), eid, APPLIED))
  {
    var s', ev := SetMark(s.(db := db), eid, APPLIED), s.events[eid];
    forall e | e in s'.events ensures EventOk(s'.db, s'.events[e]) {
      EventOnward(s.db, db, s.events[e]);
    }
    forall e, f | e in s'.events && f in s'.events && SameRefund(s'.events[e], s'.events[f]) ensures e == f {
      assert EventOk(s.db, s.events[e]) && EventOk(s.db, s.events[f]);
      assert Target(s.events[e]) == Target(s.events[f]);
    }
  }

  lemma HandledKeepsOutbox(s: Store, db: Db, bid: int, op: Op, eid: string, v: Verdict)
    requires OutboxExact(s)
    requires (db == s.db || (Legal(s.db, op) && db == Apply(s.db, op) && N.OpBooking(op) == Some(bid)))
    ensures OutboxExact(SetMark(s.(db := db, outbox := s.outbox + Notice(s.db, db, bid)), eid, v))
  {
    var s1 := s.(db := db, outbox := s.outbox + Notice(s.db, db, bid));
    if db == s.db {
      assert s1 == s;
    } else {
      OpKeepsOutbox(s, op);
      assert s1 == After(s, op);
    }
    SameOutbox(s1, SetMark(s1, eid, v));
  }

  lemma HandleOutbox(seen: Db, s: Store, eid: string, now: Time)
    requires Inv(s.db) && OutboxExact(s) && Onward(seen, s.db) && eid in s.events
    ensures var ev := s.events[eid]; OutboxExact(Handle(s, HandlerSpec(seen, s.db, ev, now), ev, eid))
  {
    var ev := s.events[eid];
    var h := HandlerSpec(seen, s.db, ev, now);
    HandlerMoves(seen, s.db, ev, now);
    if ev.bookingId.Some? {
      HandledKeepsOutbox(s, h.db, Target(ev), HandlerOp(seen, ev, now), eid, h.verdict);
    } else {
      assert s.outbox + [] == s.outbox;
      SameOutbox(s, Handle(s, h, ev, eid));
    }
  }

  lemma HandleEvents(s: Store, h: Handled, eid: string)
    requires EventsExact(s) && Onward(s.db, h.db) && eid in s.events && (h.verdict == REJECTED ==> h.db == s.db)
    requires h.verdict == APPLIED ==> EffectInForce(h.db, s.events[eid])
    requires h.verdict == APPLIED && s.events[eid].kind == REFUND ==>
      Target(s.events[eid]) in s.db.bookings && s.db.bookings[Target(s.events[eid])].status == CONFIRMED
    ensures EventsExact(Handle(s, h, s.events[eid], eid))
  {
    var s' := Handle(s, h, s.events[eid], eid);
    if h.verdict == APPLIED {
      AppliedKeepsEvents(s, h.db, eid);
      assert s'.events == SetMark(s.(db := h.db), eid, APPLIED).events;
    } else {
      forall e | e in s'.events ensures EventOk(s'.db, s'.events[e]) {
        assert EventOk(s.db, s.events[e]);
      }
    }
  }

  /** Handling one event without a rollback keeps the invariant. */
  lemma HandleKeepsSInv(seen: Db, s: Store, eid: string, now: Time)
    requires SInv(s) && Onward(seen, s.db) && eid in s.events
    ensures var ev := s.events[eid]; var h := HandlerSpec(seen, s.db, ev, now);
      SInv(Handle(s, h, ev, eid)) && Onward(s.db, h.db)
  {
    var ev, op := s.events[eid], HandlerOp(seen, s.events[eid], now);
    var h := HandlerSpec(seen, s.db, ev, now);
    HandlerMoves(seen, s.db, ev, now);
    if h.db != s.db {
      ApplyKeepsInv(s.db, op);
      OpOnward(s.db, op);
    }
    HandleOutbox(seen, s, eid, now);
    HandleEvents(s, h, eid);
    assert Handle(s, h, ev, eid).db == h.db;
  }

  // ---------------------------------------------------------------- a batch in progress

  /** Both views are consistent, they know the same events, and they differ only in the batch's own rows. */
  ghost predicate OpenOk(o: Open) {
    && SInv(o.base) && SInv(o.work)
    && (forall e :: e in o.base.events <==> e in o.work.events)
    && SameOutside(o.base.db, o.work.db, o.locks) && Onward(o.base.db, o.work.db)
  }

  lemma OpenedOk(s: Store)
    requires SInv(s)
    ensures OpenOk(Opened(s))
  {
  }

  lemma BothOnward(a: Db, b: Db, l: Locks, op: Op)
    requires SameOutside(a, b, l) && Onward(a, b) && Legal(a, op) && Legal(b, op) && Avoids(a, op, l)
    ensures Onward(Apply(a, op), Apply(b, op))
  {
    OpOnward(a, op);
    OpOnward(b, op);
    forall k | k in Apply(a, op).bookings && N.OpBooking(op) == Some(k)
      ensures Apply(a, op).bookings[k] == Apply(b, op).bookings[k] {
      assert a.bookings[k] == b.bookings[k];
    }
  }

  lemma ArrivesKeepsOpen(o: Open, eid: string, kind: string, raw: Option<int>, now: Time)
    requires OpenOk(o)
    ensures OpenOk(Meddle(o, Arrives(eid, kind, raw, now)))
    ensures var o' := Meddle(o, Arrives(eid, kind, raw, now)); o'.work.db == o.work.db && o'.base.db == o.base.db
  {
    DeliverKeepsSInv(o.base, eid, kind, raw, now);
    DeliverKeepsSInv(o.work, eid, kind, raw, now);
    OpenWith(o, IngestSpec(o.base, eid, kind, raw, now).0, IngestSpec(o.work, eid, kind, raw, now).0);
  }

  lemma OpenWith(o: Open, base: Store, work: Store)
    requires OpenOk(o) && SInv(base) && SInv(work) && base.db == o.base.db && work.db == o.work.db
    requires forall e :: e in base.events <==> e in work.events
    ensures OpenOk(o.(base := base, work := work))
  {
  }

  lemma CommitsKeepsOpen(o: Open, op: Op)
    requires OpenOk(o) && Admits(o, op)
    ensures OpenOk(Meddle(o, Commits(op)))
    ensures OpenOnward(o, Meddle(o, Commits(op)))
  {
    OpKeepsSInv(o.base, op);
    OpKeepsSInv(o.work, op);
    ForeignKeepsOutside(o.base.db, o.work.db, o.locks, op);
    BothOnward(o.base.db, o.work.db, o.locks, op);
    var o' := Meddle(o, Commits(op));
    assert o'.base == After(o.base, op) && o'.work == After(o.work, op);
  }

  ghost predicate OpenOnward(o: Open, o': Open) {
    Onward(o.work.db, o'.work.db) && Onward(o.base.db, o'.base.db)
  }

  lemma MeddleKeepsOpen(o: Open, f: Foreign)
    requires OpenOk(o)
    ensures OpenOk(Meddle(o, f)) && OpenOnward(o, Meddle(o, f))
  {
    match f
    case Arrives(eid, kind, raw, now) => ArrivesKeepsOpen(o, eid, kind, raw, now);
    case Commits(op) =>
      if Admits(o, op) {
        CommitsKeepsOpen(o, op);
      } else {
        assert Meddle(o, f) == o;
      }
  }

  /** Only the batch's locks hold others up, never what it has written and not committed. */
  lemma OnlyLocksHoldUp(o: Open, op: Op)
    requires OpenOk(o) && Legal(o.base.db, op) && Avoids(o.base.db, op, o.locks)
    ensures Meddle(o, Commits(op)).log == o.log + [op]
  {
    ForeignLegal(o.base.db, o.work.db, o.locks, op);
  }

  lemma {:induction false} MeddleAllKeepsOpen(o: Open, fs: seq<Foreign>)
    requires OpenOk(o)
    ensures OpenOk(MeddleAll(o, fs)) && OpenOnward(o, MeddleAll(o, fs))
  {
    if fs != [] {
      var init := fs[..|fs| - 1];
      MeddleAllKeepsOpen(o, init);
      MeddleKeepsOpen(MeddleAll(o, init), fs[|fs| - 1]);
      OnwardTrans(o.work.db, MeddleAll(o, init).work.db, MeddleAll(o, fs).work.db);
      OnwardTrans(o.base.db, MeddleAll(o, init).base.db, MeddleAll(o, fs).base.db);
    }
  }

  lemma SetMarkKeeps(s: Store, eid: string, v: Verdict)
    ensures SetMark(s, eid, v).db == s.db
    ensures forall e :: e in SetMark(s, eid, v).events <==> e in s.events
  {
  }

  lemma HandleStaysInside(o: Open, seen: Db, ev: Event, now: Time)
    requires OpenOk(o) && Onward(seen, o.work.db)
    ensures var h := HandlerSpec(seen, o.work.db, ev, now);
      SameOutside(o.base.db, h.db, Lock(o.locks, o.work.db, h, ev))
  {
    var h, op, db := HandlerSpec(seen, o.work.db, ev, now), HandlerOp(seen, ev, now), o.work.db;
    if h.db != db {
      HandlerMoves(seen, db, ev, now);
      HandlerTouches(seen, db, ev, now);
      OpStaysInside(db, op);
      OutsideTrans(o.base.db, db, h.db, o.locks, Locks(h.touched, {Target(ev)}));
    }
  }

  /** Others leave an event row alone that is already there. */
  lemma {:induction false} MeddleSpares(o: Open, fs: seq<Foreign>, e: string)
    ensures e in o.base.events ==>
      e in MeddleAll(o, fs).base.events && MeddleAll(o, fs).base.events[e] == o.base.events[e]
    ensures e in o.work.events ==>
      e in MeddleAll(o, fs).work.events && MeddleAll(o, fs).work.events[e] == o.work.events[e]
    ensures MeddleAll(o, fs).locks == o.locks
  {
    if fs != [] { MeddleSpares(o, fs[..|fs| - 1], e); }
  }

  /** One event of a batch keeps the invariant, whatever others commit around it and whether or not it rolls
      the batch back. */
  lemma TurnKeepsOpen(o: Open, t: Turn, now: Time)
    requires OpenOk(o)
    ensures OpenOk(TurnSpec(o, t, now)) && Onward(o.base.db, TurnSpec(o, t, now).base.db)
  {
    var seen := MeddleAll(o, t.before);
    MeddleAllKeepsOpen(o, t.before);
    var met := MeddleAll(seen, t.between);
    MeddleAllKeepsOpen(seen, t.between);
    OnwardTrans(o.base.db, seen.base.db, met.base.db);
    MeddleSpares(seen, t.between, t.eid);
    if t.eid in seen.work.events {
      HandledKeepsOpen(met, seen.work.db, t.eid, now);
    }
  }

  lemma HandledKeepsOpen(o: Open, seen: Db, eid: string, now: Time)
    requires OpenOk(o) && Onward(seen, o.work.db) && eid in o.work.events
    ensures OpenOk(Settle(o, seen, o.work.events[eid], eid, now))
    ensures Settle(o, seen, o.work.events[eid], eid, now).base == o.base
  {
    var ev := o.work.events[eid];
    var h := HandlerSpec(seen, o.work.db, ev, now);
    RejectKeepsSInv(o.base, eid);
    SetMarkKeeps(o.base, eid, REJECTED);
    HandleKeepsSInv(seen, o.work, eid, now);
    HandleStaysInside(o, seen, ev, now);
    OnwardTrans(o.base.db, o.work.db, h.db);
    assert Handle(o.work, h, ev, eid).db == h.db;
    assert forall e :: e in Handle(o.work, h, ev, eid).events <==> e in o.work.events;
  }

  lemma {:induction false} TurnsKeepOpen(o: Open, turns: seq<Turn>, now: Time)
    requires OpenOk(o)
    ensures OpenOk(RunTurns(o, turns, now)) && Onward(o.base.db, RunTurns(o, turns, now).base.db)
  {
    if turns != [] {
      var init := turns[..|turns| - 1];
      TurnsKeepOpen(o, init, now);
      TurnKeepsOpen(RunTurns(o, init, now), turns[|turns| - 1], now);
      OnwardTrans(o.base.db, RunTurns(o, init, now).base.db, RunTurns(o, turns, now).base.db);
    }
  }

  /** A batch keeps the invariant and only moves bookings onward, whatever others commit meanwhile: REFUNDED
      and REFUND_REQUIRED are never left. */
  lemma BatchKeepsSInv(s: Store, turns: seq<Turn>, now: Time)
    requires SInv(s)
    ensures SInv(BatchSpec(s, turns, now).work) && Onward(s.db, BatchSpec(s, turns, now).work.db)
    ensures SInv(BatchSpec(s, turns, now).base) && Onward(s.db, BatchSpec(s, turns, now).base.db)
  {
    OpenedOk(s);
    TurnsKeepOpen(Opened(s), turns, now);
    var o := BatchSpec(s, turns, now);
    OnwardTrans(s.db, o.base.db, o.work.db);
  }

  // ---------------------------------------------------------------- rollback in the middle of a batch

  /** The loop lost its transaction at this turn. */
  predicate LostAt(o: Open, t: Turn, now: Time) {
    var seen := MeddleAll(o, t.before);
    t.eid in seen.work.events &&
    HandlerSpec(seen.work.db, MeddleAll(seen, t.between).work.db, seen.work.events[t.eid], now).lost
  }

  /** The operations, each legal where it comes, and nothing else. */
  function Committed(db: Db, ops: seq<Op>): Db {
    if ops == [] then db else Step(Committed(db, ops[..|ops| - 1]), ops[|ops| - 1])
  }

  lemma {:induction false} OthersAlone(o: Open, fs: seq<Foreign>, db0: Db)
    requires o.base.db == Committed(db0, o.log)
    ensures MeddleAll(o, fs).base.db == Committed(db0, MeddleAll(o, fs).log)
  {
    if fs != [] {
      var o1, f := MeddleAll(o, fs[..|fs| - 1]), fs[|fs| - 1];
      OthersAlone(o, fs[..|fs| - 1], db0);
      if f.Commits? && Admits(o1, f.op) {
        assert (o1.log + [f.op])[..|o1.log|] == o1.log;
      }
    }
  }

  /** The committed tables move only by what others commit, until the batch commits itself. */
  lemma {:induction false} BaseIsOthers(s: Store, turns: seq<Turn>, now: Time)
    ensures var o := BatchSpec(s, turns, now); o.base.db == Committed(s.db, o.log)
  {
    if turns != [] {
      var o, t := BatchSpec(s, turns[..|turns| - 1], now), turns[|turns| - 1];
      BaseIsOthers(s, turns[..|turns| - 1], now);
      OthersAlone(o, t.before, s.db);
      OthersAlone(MeddleAll(o, t.before), t.between, s.db);
    }
  }

  /** No event row is marked in the committed tables before the batch commits. */
  lemma {:induction false} BaseKeepsMarks(o: Open, turns: seq<Turn>, now: Time, e: string)
    requires e in o.base.events
    ensures e in RunTurns(o, turns, now).base.events && RunTurns(o, turns, now).base.events[e] == o.base.events[e]
  {
    if turns != [] {
      var o1, t := RunTurns(o, turns[..|turns| - 1], now), turns[|turns| - 1];
      BaseKeepsMarks(o, turns[..|turns| - 1], now, e);
      MeddleSpares(o1, t.before, e);
      MeddleSpares(MeddleAll(o1, t.before), t.between, e);
    }
  }

  /** A batch that dies before its commit, wherever it was, leaves nothing: the tables hold what others committed,
      and every event is as it was. */
  lemma DeadBatchLeavesNothing(s: Store, turns: seq<Turn>, now: Time)
    ensures var o := BatchSpec(s, turns, now);
      && o.base.db == Committed(s.db, o.log)
      && (forall e :: e in s.events ==> e in o.base.events && o.base.events[e] == s.events[e])
  {
    BaseIsOthers(s, turns, now);
    forall e | e in s.events
      ensures e in BatchSpec(s, turns, now).base.events && BatchSpec(s, turns, now).base.events[e] == s.events[e] {
      BaseKeepsMarks(Opened(s), turns, now, e);
    }
  }

  /** Events outside the turns keep their rows. */
  lemma {:induction false} TurnsTouchOnly(o: Open, turns: seq<Turn>, now: Time, e: string)
    requires e in o.base.events && e in o.work.events && o.work.events[e] == o.base.events[e]
    requires forall k :: 0 <= k < |turns| ==> turns[k].eid != e
    ensures e in RunTurns(o, turns, now).work.events && RunTurns(o, turns, now).work.events[e] == o.base.events[e]
  {
    if turns != [] {
      var o1, t := RunTurns(o, turns[..|turns| - 1], now), turns[|turns| - 1];
      TurnsTouchOnly(o, turns[..|turns| - 1], now, e);
      BaseKeepsMarks(o, turns, now, e);
      MeddleSpares(o1, t.before, e);
      MeddleSpares(MeddleAll(o1, t.before), t.between, e);
    }
  }

  lemma {:induction false} TurnsSplit(o: Open, turns: seq<Turn>, now: Time, k: nat)
    requires k <= |turns|
    ensures RunTurns(o, turns, now) == RunTurns(RunTurns(o, turns[..k], now), turns[k..], now)
    decreases |turns|
  {
    if k == |turns| {
      assert turns[..k] == turns;
    } else {
      var init := turns[..|turns| - 1];
      TurnsSplit(o, init, now, k);
      assert init[..k] == turns[..k] && init[k..] == turns[k..][..|turns[k..]| - 1];
    }
  }

  /** After a loss nothing of the batch is left but the verdict on that event. */
  lemma LossErases(o: Open, t: Turn, now: Time)
    requires LostAt(o, t, now)
    ensures var o' := TurnSpec(o, t, now); o'.work == SetMark(o'.base, t.eid, REJECTED) && o'.locks == NO_LOCKS
  {
  }

  ghost predicate DistinctTurns(turns: seq<Turn>) {
    forall j, k :: 0 <= j < k < |turns| ==> turns[j].eid != turns[k].eid
  }

  /** What a batch commits: what others committed, and what the batch did after its last lost confirm write.
      That event is REJECTED; every event before it is unprocessed again, and nothing they did is left. */
  lemma OnlySurvivingSuffixCommits(s: Store, turns: seq<Turn>, now: Time) returns (k: nat)
    requires DistinctTurns(turns) && forall j :: 0 <= j < |turns| ==> turns[j].eid in s.events
    ensures k <= |turns|
    ensures k > 0 ==> LostAt(BatchSpec(s, turns[..k - 1], now), turns[k - 1], now)
    ensures forall j :: k <= j < |turns| ==> !LostAt(BatchSpec(s, turns[..j], now), turns[j], now)
    ensures var o := BatchSpec(s, turns[..k], now);
      && BatchSpec(s, turns, now) == RunTurns(o, turns[k..], now)
      && o.base.db == Committed(s.db, o.log)
      && o.work == (if k == 0 then o.base else SetMark(o.base, turns[k - 1].eid, REJECTED)) && o.locks == NO_LOCKS
    ensures forall j :: 0 <= j < k - 1 ==>
      turns[j].eid in BatchSpec(s, turns, now).work.events &&
      BatchSpec(s, turns, now).work.events[turns[j].eid] == s.events[turns[j].eid]
  {
    k := LastLoss(s, turns, now);
    AfterLoss(s, turns, now, k);
    if k > 0 { EarlierUnmarked(s, turns, now, k); }
  }

  lemma LastLoss(s: Store, turns: seq<Turn>, now: Time) returns (k: nat)
    ensures k <= |turns|
    ensures k > 0 ==> LostAt(BatchSpec(s, turns[..k - 1], now), turns[k - 1], now)
    ensures forall j :: k <= j < |turns| ==> !LostAt(BatchSpec(s, turns[..j], now), turns[j], now)
  {
    k := |turns|;
    while k > 0 && !LostAt(BatchSpec(s, turns[..k - 1], now), turns[k - 1], now)
      invariant 0 <= k <= |turns|
      invariant forall j :: k <= j < |turns| ==> !LostAt(BatchSpec(s, turns[..j], now), turns[j], now)
    {
      k := k - 1;
    }
  }

  lemma AfterLoss(s: Store, turns: seq<Turn>, now: Time, k: nat)
    requires k <= |turns| && (k > 0 ==> LostAt(BatchSpec(s, turns[..k - 1], now), turns[k - 1], now))
    ensures var o := BatchSpec(s, turns[..k], now);
      && BatchSpec(s, turns, now) == RunTurns(o, turns[k..], now)
      && o.base.db == Committed(s.db, o.log)
      && o.work == (if k == 0 then o.base else SetMark(o.base, turns[k - 1].eid, REJECTED)) && o.locks == NO_LOCKS
  {
    TurnsSplit(Opened(s), turns, now, k);
    BaseIsOthers(s, turns[..k], now);
    if k > 0 {
      assert turns[..k][..k - 1] == turns[..k - 1] && turns[..k][k - 1] == turns[k - 1];
      LossErases(BatchSpec(s, turns[..k - 1], now), turns[k - 1], now);
    }
  }

  lemma EarlierUnmarked(s: Store, turns: seq<Turn>, now: Time, k: nat)
    requires DistinctTurns(turns) && (forall j :: 0 <= j < |turns| ==> turns[j].eid in s.events) && 0 < k <= |turns|
    requires var o := BatchSpec(s, turns[..k], now);
      o.work == SetMark(o.base, turns[k - 1].eid, REJECTED) && BatchSpec(s, turns, now) == RunTurns(o, turns[k..], now)
    ensures forall j :: 0 <= j < k - 1 ==>
      turns[j].eid in BatchSpec(s, turns, now).work.events &&
      BatchSpec(s, turns, now).work.events[turns[j].eid] == s.events[turns[j].eid]
  {
    var o := BatchSpec(s, turns[..k], now);
    forall j | 0 <= j < k - 1
      ensures turns[j].eid in BatchSpec(s, turns, now).work.events
      ensures BatchSpec(s, turns, now).work.events[turns[j].eid] == s.events[turns[j].eid]
    {
      var e := turns[j].eid;
      BaseKeepsMarks(Opened(s), turns[..k], now, e);
      TurnsTouchOnly(o, turns[k..], now, e);
    }
  }

  // ---------------------------------------------------------------- what the batch records

  /** The handler's result at this turn. */
  function ResultAt(o: Open, t: Turn, now: Time): Handled
    requires t.eid in MeddleAll(o, t.before).work.events
  {
    var seen := MeddleAll(o, t.before);
    HandlerSpec(seen.work.db, MeddleAll(seen, t.between).work.db, seen.work.events[t.eid], now)
  }

  /** A turn records its handler's verdict on its event and counts it once. */
  lemma TurnRecords(o: Open, t: Turn, now: Time)
    requires OpenOk(o) && t.eid in o.work.events
    ensures t.eid in MeddleAll(o, t.before).work.events
    ensures var o', h := TurnSpec(o, t, now), ResultAt(o, t, now);
      && t.eid in o'.work.events && o'.work.events[t.eid].mark == Processed(h.verdict)
      && (h.verdict == APPLIED ==> o'.applied == o.applied + 1 && o'.rejected == o.rejected)
      && (h.verdict == REJECTED ==> o'.applied == o.applied && o'.rejected == o.rejected + 1)
      && o'.touched == o.touched + h.touched
      && (h.lost <==> LostAt(o, t, now)) && (!h.lost ==> o'.work.db == h.db)
  {
    var seen := MeddleAll(o, t.before);
    MeddleSpares(o, t.before, t.eid);
    MeddleSpares(seen, t.between, t.eid);
    MeddleCountsNothing(o, t.before);
    MeddleCountsNothing(seen, t.between);
    MeddleAllKeepsOpen(o, t.before);
    MeddleAllKeepsOpen(seen, t.between);
    HandlerMoves(seen.work.db, MeddleAll(seen, t.between).work.db, seen.work.events[t.eid], now);
  }

  lemma {:induction false} MeddleCountsNothing(o: Open, fs: seq<Foreign>)
    ensures var o' := MeddleAll(o, fs);
      o'.applied == o.applied && o'.rejected == o.rejected && o'.touched == o.touched
  {
    if fs != [] { MeddleCountsNothing(o, fs[..|fs| - 1]); }
  }

  lemma TurnSpares(o: Open, t: Turn, now: Time, e: string)
    requires e in o.work.events && t.eid != e && !LostAt(o, t, now)
    ensures e in TurnSpec(o, t, now).work.events && TurnSpec(o, t, now).work.events[e] == o.work.events[e]
  {
    MeddleSpares(o, t.before, e);
    MeddleSpares(MeddleAll(o, t.before), t.between, e);
  }

  /** After n turns the event of turn j bears the verdict its handler came to then. */
  ghost predicate Recorded(s: Store, turns: seq<Turn>, now: Time, j: nat, n: nat)
    requires j < n <= |turns|
  {
    var e, o, end := turns[j].eid, BatchSpec(s, turns[..j], now), BatchSpec(s, turns[..n], now);
    && e in MeddleAll(o, turns[j].before).work.events
    && e in end.work.events && end.work.events[e].mark == Processed(ResultAt(o, turns[j], now).verdict)
  }

  lemma RecordedAtOnce(s: Store, turns: seq<Turn>, now: Time, j: nat)
    requires SInv(s) && j < |turns| && turns[j].eid in s.events
    ensures Recorded(s, turns, now, j, j + 1)
  {
    assert turns[..j + 1][..j] == turns[..j];
    BatchKnows(s, turns[..j], now, turns[j].eid);
    TurnRecords(BatchSpec(s, turns[..j], now), turns[j], now);
  }

  lemma RecordedNext(s: Store, turns: seq<Turn>, now: Time, j: nat, n: nat)
    requires j < n < |turns| && Recorded(s, turns, now, j, n) && turns[n].eid != turns[j].eid
    requires Keeps(s, turns, now, n)
    ensures Recorded(s, turns, now, j, n + 1)
  {
    assert turns[..n + 1][..n] == turns[..n];
    assert turns[..n + 1][n] == turns[n];
    TurnSpares(BatchSpec(s, turns[..n], now), turns[n], now, turns[j].eid);
  }

  /** Turn m does not lose the transaction. */
  ghost predicate Keeps(s: Store, turns: seq<Turn>, now: Time, m: nat)
    requires m < |turns|
  {
    !LostAt(BatchSpec(s, turns[..m], now), turns[m], now)
  }

  /** As long as no confirm write is lost any more, each verdict stays what it was when its turn ended. */
  lemma {:induction false} VerdictsRecorded(s: Store, turns: seq<Turn>, now: Time, j: nat, n: nat)
    requires SInv(s) && DistinctTurns(turns) && j < n <= |turns| && turns[j].eid in s.events
    requires forall m: nat :: j < m < n ==> Keeps(s, turns, now, m)
    ensures Recorded(s, turns, now, j, n)
  {
    if n == j + 1 {
      RecordedAtOnce(s, turns, now, j);
    } else {
      VerdictsRecorded(s, turns, now, j, n - 1);
      RecordedNext(s, turns, now, j, n - 1);
    }
  }

  lemma BatchKnows(s: Store, turns: seq<Turn>, now: Time, e: string)
    requires SInv(s) && e in s.events
    ensures OpenOk(BatchSpec(s, turns, now)) && e in BatchSpec(s, turns, now).work.events
  {
    OpenedOk(s);
    TurnsKeepOpen(Opened(s), turns, now);
    BaseKeepsMarks(Opened(s), turns, now, e);
  }

  /** Every event of the batch is counted once, as applied or as rejected, even if a later loss erased it. */
  lemma {:induction false} BatchCountsAll(s: Store, turns: seq<Turn>, now: Time)
    requires SInv(s) && forall k :: 0 <= k < |turns| ==> turns[k].eid in s.events
    ensures BatchSpec(s, turns, now).applied + BatchSpec(s, turns, now).rejected == |turns|
  {
    if turns != [] {
      var init, t := turns[..|turns| - 1], turns[|turns| - 1];
      BatchCountsAll(s, init, now);
      BatchKnows(s, init, now, t.eid);
      TurnRecords(BatchSpec(s, init, now), t, now);
    }
  }

  // ---------------------------------------------------------------- the queue

  function Queue(s: Store): set<string> {
    set e | e in s.events && s.events[e].mark == Unprocessed
  }

  lemma {:induction false} TurnsNeverUnmark(o: Open, turns: seq<Turn>, now: Time, e: string)
    requires e in o.base.events && e in o.work.events
    requires (o.work.events[e].mark == Unprocessed ==> o.base.events[e].mark == Unprocessed)
    ensures e in RunTurns(o, turns, now).work.events
    ensures RunTurns(o, turns, now).work.events[e].mark == Unprocessed ==> o.base.events[e].mark == Unprocessed
    ensures turns != [] && turns[|turns| - 1].eid == e ==> RunTurns(o, turns, now).work.events[e].mark != Unprocessed
  {
    if turns != [] {
      var o1, t := RunTurns(o, turns[..|turns| - 1], now), turns[|turns| - 1];
      TurnsNeverUnmark(o, turns[..|turns| - 1], now, e);
      BaseKeepsMarks(o, turns, now, e);
      MeddleSpares(o1, t.before, e);
      MeddleSpares(MeddleAll(o1, t.before), t.between, e);
    }
  }

  /** The worker cannot livelock on rollbacks: of the events that were waiting when it began, each non-empty batch
      that reaches its commit takes at least one off the queue and puts none back. */
  lemma BatchDrainsQueue(s: Store, turns: seq<Turn>, now: Time)
    requires turns != [] && forall k :: 0 <= k < |turns| ==> turns[k].eid in Queue(s)
    ensures var left := Queue(BatchSpec(s, turns, now).work) * s.events.Keys; left < Queue(s) && |left| < |Queue(s)|
  {
    var left := Queue(BatchSpec(s, turns, now).work) * s.events.Keys;
    forall e | e in s.events ensures e in left ==> e in Queue(s) && e != turns[|turns| - 1].eid {
      TurnsNeverUnmark(Opened(s), turns, now, e);
    }
    var last := turns[|turns| - 1].eid;
    assert last in Queue(s) && last !in left;
    SubsetCard(left, Queue(s));
  }

  // ---------------------------------------------------------------- all histories

  /** A batch may work on any events, in any order; what the worker selects is a special case. It may die before
      its commit, of an exception or a crash. */
  datatype Cmd =
    | Deliver(eid: string, kind: string, raw: Option<int>, now: Time)
    | Request(r: E.Cmd)
    | Batch(turns: seq<Turn>, now: Time, dies: bool)

  function Next(s: Store, cmd: Cmd): Store {
    match cmd
    case Deliver(eid, kind, raw, now) => IngestSpec(s, eid, kind, raw, now).0
    case Request(r) =>
      if r.PaymentSucceeded? || r.PaymentRefunded? then s
      else
        var db := E.Attempt(s.db, r).0;
        s.(db := db, outbox := s.outbox + (if r.ConfirmBookingCmd? then Notice(s.db, db, r.bid) else []))
    case Batch(turns, now, dies) => if dies then BatchSpec(s, turns, now).base else BatchSpec(s, turns, now).work
  }

  function Final(s: Store, cmds: seq<Cmd>): Store
    decreases |cmds|
  {
    if cmds == [] then s else Final(Next(s, cmds[0]), cmds[1..])
  }

  /** A confirmation moves one booking as the outbox and the event marks expect. */
  lemma ConfirmMoves(db: Db, bid: int, who: Session, now: Time, key: string)
    requires Inv(db)
    ensures var db' := ConfirmSpec(db, bid, who, now, key).0;
      && Onward(db, db') && (forall k :: k in db'.bookings <==> k in db.bookings)
      && (forall k :: k in db.bookings && k != bid ==> db'.bookings[k] == db.bookings[k])
      && (bid in db.bookings ==> Legit(db.bookings[bid].status, db'.bookings[bid].status))
  {
    ConfirmIsConfirm(db, bid, who, now, key);
    if ConfirmSpec(db, bid, who, now, key).1.Confirmed? { OpOnward(db, ConfirmOp(bid, who, now, Some(key))); }
  }

  /** No other request changes a booking; it may add one. */
  lemma OthersMoveNothing(db: Db, r: E.Cmd)
    requires !r.PaymentSucceeded? && !r.PaymentRefunded? && !r.ConfirmBookingCmd?
    ensures var db' := E.Attempt(db, r).0;
      && (forall k :: k in db.bookings ==> k in db'.bookings && db'.bookings[k] == db.bookings[k])
      && (forall k :: k in db'.bookings && k !in db.bookings ==> db'.bookings[k].status == PENDING)
  {
  }

  lemma RequestKeepsSInv(s: Store, r: E.Cmd)
    requires SInv(s) && !r.PaymentSucceeded? && !r.PaymentRefunded?
    ensures SInv(Next(s, Request(r))) && Onward(s.db, Next(s, Request(r)).db)
  {
    var s' := Next(s, Request(r));
    E.AttemptKeepsInv(s.db, r);
    if r.ConfirmBookingCmd? {
      ConfirmMoves(s.db, r.bid, r.who, r.now, r.key);
      NoticeKeepsOutbox(s, s'.db, r.bid);
    } else {
      OthersMoveNothing(s.db, r);
      assert s'.outbox == s.outbox;
      SameOutbox(s, s');
    }
    EventsOnward(s, s');
  }

  /** A request in the history does what it asks for if that is legal, a confirmation announces it, and nothing
      else changes. */
  lemma RequestDoesItsOp(s: Store, r: E.Cmd)
    requires SInv(s) && !r.PaymentSucceeded? && !r.PaymentRefunded?
    ensures var s', done := Next(s, Request(r)), E.Meets(s.db, r) && Legal(s.db, E.Asks(s.db, r));
      && s'.db == (if done then Apply(s.db, E.Asks(s.db, r)) else s.db)
      && s'.outbox == s.outbox + (if done && r.ConfirmBookingCmd? then [Msg(r.bid, CONFIRMED)] else [])
      && s'.events == s.events && s'.keys == s.keys
  {
    E.AttemptIsOp(s.db, r);
    if E.Meets(s.db, r) && Legal(s.db, E.Asks(s.db, r)) { ApplyColumns(s.db, E.Asks(s.db, r)); }
  }

  lemma NextKeepsSInv(s: Store, cmd: Cmd)
    requires SInv(s)
    ensures SInv(Next(s, cmd))
    ensures Onward(s.db, Next(s, cmd).db)
  {
    match cmd
    case Deliver(eid, kind, raw, now) => DeliverKeepsSInv(s, eid, kind, raw, now);
    case Request(r) =>
      if !r.PaymentSucceeded? && !r.PaymentRefunded? {
        RequestKeepsSInv(s, r);
      }
    case Batch(turns, now, _) => BatchKeepsSInv(s, turns, now);
  }

  /** The invariant holds after any history of deliveries, requests and batches, from any state that has it. */
  lemma {:induction false} SInvAlways(s: Store, cmds: seq<Cmd>)
    requires SInv(s)
    ensures SInv(Final(s, cmds))
    ensures Onward(s.db, Final(s, cmds).db)
    decreases |cmds|
  {
    if cmds != [] {
      NextKeepsSInv(s, cmds[0]);
      SInvAlways(Next(s, cmds[0]), cmds[1..]);
      OnwardTrans(s.db, Next(s, cmds[0]).db, Final(s, cmds).db);
    }
  }

  /** Exactly-once effect: after any history, with any commits of others inside its batches, an APPLIED
      payment.succeeded stands for exactly one committed confirmation or refund demand of its booking, however
      many such events were applied; an APPLIED payment.refunded stands for the one committed refund, and no
      second event claims it. */
  lemma ExactlyOnce(s: Store, cmds: seq<Cmd>, e: string)
    requires SInv(s) && e in Final(s, cmds).events && Final(s, cmds).events[e].mark == Processed(APPLIED)
    ensures var end := Final(s, cmds); var ev := end.events[e];
      && ev.bookingId.Some?
      && (ev.kind == SUCCEEDED ==> Count(end, Target(ev), CONFIRMED) + Count(end, Target(ev), REFUND_REQUIRED) == 1)
      && (ev.kind != SUCCEEDED ==> ev.kind == REFUND && Count(end, Target(ev), REFUNDED) == 1)
      && (ev.kind != SUCCEEDED ==> forall f :: f in end.events && SameRefund(end.events[f], ev) ==> f == e)
  {
    SInvAlways(s, cmds);
    var end := Final(s, cmds);
    assert EventOk(end.db, end.events[e]) && CountsRight(end, Target(end.events[e]));
  }

  /** A payment for a PENDING booking, from its delivery to the end of the batch that handles it alone. If the session
      still holds every seat, the booking is confirmed and announced; if it does not, a refund is demanded and
      announced; and the payment is rejected, with the booking left PENDING and nothing announced, exactly if
      the seats are all held and the list is empty or one of them was left blocked by an earlier refund. */
  lemma PaymentSettles(s: Store, eid: string, bid: int, delivered: Time, now: Time)
    requires SInv(s) && eid !in s.events && bid in s.db.bookings && s.db.bookings[bid].status == PENDING
    ensures var end := Final(s, [Deliver(eid, "payment.succeeded", Some(bid), delivered),
                                 Batch([Turn(eid, [], [])], now, false)]);
      var reached := Outlook(s.db, bid, now);
      && bid in end.db.bookings && end.db.bookings[bid].status == reached
      && end.outbox == s.outbox + (if reached == PENDING then [] else [Msg(bid, reached)])
      && eid in end.events && end.events[eid].mark == Processed(if reached == PENDING then REJECTED else APPLIED)
      && (reached == CONFIRMED ==>
           forall i :: i in s.db.bookings[bid].seatIds ==> i in end.db.seats && BookedFor(end.db.seats[i], bid))
      && (reached != CONFIRMED ==> end.db.seats == s.db.seats && end.db.links == s.db.links)
  {
    var t, deliver := Turn(eid, [], []), Deliver(eid, "payment.succeeded", Some(bid), delivered);
    OneEventBatch(s, deliver, t, now);
    PaidHandler(s.db, Event(Some(bid), "payment.succeeded", delivered, Unprocessed), now);
  }

  /** What becomes of a PENDING booking whose payment is handled now. */
  ghost function Outlook(db: Db, bid: int, now: Time): BookingStatus
    requires bid in db.bookings
  {
    var b := db.bookings[bid];
    if !AllHeldFor(db.seats, b, now) then REFUND_REQUIRED
    else if b.seatIds == [] || exists i :: i in b.seatIds && OnceRefunded(db, i) then PENDING
    else CONFIRMED
  }

  lemma PaidHandler(db: Db, ev: Event, now: Time)
    requires Inv(db) && ev.kind == SUCCEEDED && ev.bookingId.Some? && Target(ev) in db.bookings
    requires db.bookings[Target(ev)].status == PENDING
    ensures var h, bid := HandlerSpec(db, db, ev, now), Target(ev);
      var reached := Outlook(db, bid, now);
      && bid in h.db.bookings && h.db.bookings[bid].status == reached
      && h.verdict == (if reached == PENDING then REJECTED else APPLIED)
      && (reached == PENDING ==> h.db == db)
      && (reached == CONFIRMED ==>
           forall i :: i in db.bookings[bid].seatIds ==> i in h.db.seats && BookedFor(h.db.seats[i], bid))
      && (reached != CONFIRMED ==> h.db.seats == db.seats && h.db.links == db.links)
  {
    var bid := Target(ev);
    var b := db.bookings[bid];
    HandlerVerdict(db, db, ev, now);
    if AllHeldFor(db.seats, b, now) && b.seatIds != [] {
      ConfirmableIffNeverRefunded(db, bid, b.sessionId, now, None);
    }
    var op := if AllHeldFor(db.seats, b, now) then ConfirmOp(bid, b.sessionId, now, None) else LateOp(bid, now);
    if Legal(db, op) { ApplyColumns(db, op); }
  }

  lemma OneEventBatch(s: Store, cmd: Cmd, t: Turn, now: Time)
    ensures Final(s, [cmd, Batch([t], now, false)]) == TurnSpec(Opened(Next(s, cmd)), t, now).work
  {
    var s1, batch := Next(s, cmd), Batch([t], now, false);
    assert [cmd, batch][1..] == [batch] && [batch][1..] == [];
    assert Final(s1, [batch]) == Final(Next(s1, batch), []);
    assert [t][..0] == [] && RunTurns(Opened(s1), [], now) == Opened(s1);
    assert RunTurns(Opened(s1), [t], now) == TurnSpec(RunTurns(Opened(s1), [t][..0], now), t, now);
  }

  // ---------------------------------------------------------------- keep-first deduplication

  /** The event ids delivered among these commits of others. */
  function Arrived(fs: seq<Foreign>): set<string> {
    set k | 0 <= k < |fs| && fs[k].Arrives? :: fs[k].eid
  }

  function ArrivedIn(turns: seq<Turn>): set<string> {
    if turns == [] then {}
    else
      var t := turns[|turns| - 1];
      ArrivedIn(turns[..|turns| - 1]) + Arrived(t.before) + Arrived(t.between)
  }

  function DropSeen(fs: seq<Foreign>, seen: set<string>): seq<Foreign> {
    if fs == [] then []
    else
      var init, f := fs[..|fs| - 1], fs[|fs| - 1];
      DropSeen(init, seen) + (if f.Arrives? && f.eid in seen + Arrived(init) then [] else [f])
  }

  function DropSeenIn(turns: seq<Turn>, seen: set<string>): seq<Turn> {
    if turns == [] then []
    else
      var init, t := turns[..|turns| - 1], turns[|turns| - 1];
      var before := seen + ArrivedIn(init);
      DropSeenIn(init, seen) +
        [Turn(t.eid, DropSeen(t.before, before), DropSeen(t.between, before + Arrived(t.before)))]
  }

  /** The history with every delivery of an already delivered event id removed, between and inside batches. */
  function KeepFirst(cmds: seq<Cmd>, seen: set<string>): seq<Cmd> {
    if cmds == [] then []
    else match cmds[0]
      case Deliver(eid, _, _, _) =>
        if eid in seen then KeepFirst(cmds[1..], seen) else [cmds[0]] + KeepFirst(cmds[1..], seen + {eid})
      case Batch(turns, now, dies) =>
        [Batch(DropSeenIn(turns, seen), now, dies)] + KeepFirst(cmds[1..], seen + ArrivedIn(turns))
      case Request(_) => [cmds[0]] + KeepFirst(cmds[1..], seen)
  }

  predicate Knows(o: Open, seen: set<string>) {
    seen <= o.base.events.Keys && seen <= o.work.events.Keys
  }

  lemma MeddleSnoc(o: Open, fs: seq<Foreign>, f: Foreign)
    ensures MeddleAll(o, fs + [f]) == Meddle(MeddleAll(o, fs), f)
  {
    assert (fs + [f])[..|fs|] == fs;
  }

  lemma ArrivedSnoc(fs: seq<Foreign>)
    requires fs != []
    ensures var f := fs[|fs| - 1]; Arrived(fs) == Arrived(fs[..|fs| - 1]) + if f.Arrives? then {f.eid} else {}
  {
    var init, f := fs[..|fs| - 1], fs[|fs| - 1];
    forall e ensures e in Arrived(fs) <==> e in Arrived(init) || (f.Arrives? && e == f.eid) {
      if e in Arrived(init) {
        var k :| 0 <= k < |init| && init[k].Arrives? && init[k].eid == e;
        assert fs[k] == init[k];
      }
    }
  }

  lemma MeddleKnows(o: Open, f: Foreign, seen: set<string>)
    requires Knows(o, seen)
    ensures Knows(Meddle(o, f), seen + (if f.Arrives? then {f.eid} else {}))
    ensures f.Arrives? && f.eid in seen ==> Meddle(o, f) == o
  {
  }

  lemma {:induction false} DroppedAll(o: Open, fs: seq<Foreign>, seen: set<string>)
    requires Knows(o, seen)
    ensures MeddleAll(o, DropSeen(fs, seen)) == MeddleAll(o, fs)
    ensures Knows(MeddleAll(o, fs), seen + Arrived(fs))
  {
    if fs != [] {
      var init, f := fs[..|fs| - 1], fs[|fs| - 1];
      DroppedAll(o, init, seen);
      ArrivedSnoc(fs);
      var kept := DropSeen(init, seen);
      MeddleKnows(MeddleAll(o, init), f, seen + Arrived(init));
      if f.Arrives? && f.eid in seen + Arrived(init) {
        assert DropSeen(fs, seen) == kept;
      } else {
        assert DropSeen(fs, seen) == kept + [f];
        MeddleSnoc(o, kept, f);
      }
    }
  }

  lemma SettleKnows(o: Open, seen: Db, ev: Event, eid: string, now: Time, known: set<string>)
    requires Knows(o, known)
    ensures Knows(Settle(o, seen, ev, eid, now), known)
  {
  }

  lemma {:induction false} TurnsDropped(o: Open, turns: seq<Turn>, now: Time, seen: set<string>)
    requires Knows(o, seen)
    ensures RunTurns(o, DropSeenIn(turns, seen), now) == RunTurns(o, turns, now)
    ensures Knows(RunTurns(o, turns, now), seen + ArrivedIn(turns))
  {
    if turns != [] {
      var init, t := turns[..|turns| - 1], turns[|turns| - 1];
      TurnsDropped(o, init, now, seen);
      var o1, known := RunTurns(o, init, now), seen + ArrivedIn(init);
      DroppedAll(o1, t.before, known);
      var mid := MeddleAll(o1, t.before);
      DroppedAll(mid, t.between, known + Arrived(t.before));
      var met := MeddleAll(mid, t.between);
      assert seen + ArrivedIn(turns) == known + Arrived(t.before) + Arrived(t.between);
      if t.eid in mid.work.events {
        SettleKnows(met, mid.work.db, mid.work.events[t.eid], t.eid, now, seen + ArrivedIn(turns));
      }
      var kept := DropSeenIn(turns, seen);
      assert kept[..|kept| - 1] == DropSeenIn(init, seen);
    }
  }

  lemma NextKnows(s: Store, cmd: Cmd)
    requires !cmd.Batch?
    ensures Next(s, cmd).events.Keys == s.events.Keys + (if cmd.Deliver? then {cmd.eid} else {})
  {
  }

  /** Redelivery changes nothing: for every history, with events first recorded UNRESOLVED and with deliveries
      interleaved with booking creation and processing, even inside a batch, the final state is that of the
      history with all later deliveries of a seen event id removed. */
  lemma {:induction false} RedeliveryIrrelevant(s: Store, cmds: seq<Cmd>, seen: set<string>)
    requires seen <= s.events.Keys
    ensures Final(s, cmds) == Final(s, KeepFirst(cmds, seen))
    decreases |cmds|
  {
    if cmds != [] {
      var s', kept := Next(s, cmds[0]), KeepFirst(cmds, seen);
      match cmds[0]
      case Deliver(eid, _, _, _) =>
        NextKnows(s, cmds[0]);
        if eid in seen {
          RedeliveryIrrelevant(s, cmds[1..], seen);
        } else {
          RedeliveryIrrelevant(s', cmds[1..], seen + {eid});
          assert kept[1..] == KeepFirst(cmds[1..], seen + {eid});
        }
      case Request(_) =>
        NextKnows(s, cmds[0]);
        RedeliveryIrrelevant(s', cmds[1..], seen);
        assert kept[1..] == KeepFirst(cmds[1..], seen);
      case Batch(turns, now, _) =>
        TurnsDropped(Opened(s), turns, now, seen);
        RedeliveryIrrelevant(s', cmds[1..], seen + ArrivedIn(turns));
        assert kept[1..] == KeepFirst(cmds[1..], seen + ArrivedIn(turns));
    }
  }

  /** The event ids delivered, in order. */
  function Ids(fs: seq<Foreign>): seq<string> {
    if fs == [] then []
    else Ids(fs[..|fs| - 1]) + (if fs[|fs| - 1].Arrives? then [fs[|fs| - 1].eid] else [])
  }

  function IdsIn(turns: seq<Turn>): seq<string> {
    if turns == [] then []
    else IdsIn(turns[..|turns| - 1]) + Ids(turns[|turns| - 1].before) + Ids(turns[|turns| - 1].between)
  }

  function Delivers(cmd: Cmd): seq<string> {
    match cmd
    case Deliver(eid, _, _, _) => [eid]
    case Batch(turns, _, _) => IdsIn(turns)
    case Request(_) => []
  }

  function Deliveries(cmds: seq<Cmd>): seq<string> {
    if cmds == [] then [] else Delivers(cmds[0]) + Deliveries(cmds[1..])
  }

  lemma NoDupConcat<T>(a: seq<T>, b: seq<T>)
    ensures Elems(a + b) == Elems(a) + Elems(b)
    ensures NoDup(a) && NoDup(b) && Elems(a) !! Elems(b) ==> NoDup(a + b)
  {
    var c := a + b;
    if NoDup(a) && NoDup(b) && Elems(a) !! Elems(b) {
      forall i, j | 0 <= i < j < |c| ensures c[i] != c[j] {
        if i < |a| <= j {
          assert c[i] in Elems(a) && c[j] in Elems(b);
        }
      }
    }
  }

  lemma IdsSnoc(fs: seq<Foreign>, f: Foreign)
    ensures Ids(fs + [f]) == if f.Arrives? then Ids(fs) + [f.eid] else Ids(fs)
  {
    assert (fs + [f])[..|fs|] == fs;
  }

  lemma {:induction false} DropSeenOnce(fs: seq<Foreign>, seen: set<string>)
    ensures NoDup(Ids(DropSeen(fs, seen))) && Elems(Ids(DropSeen(fs, seen))) == Arrived(fs) - seen
  {
    if fs != [] {
      var init, f := fs[..|fs| - 1], fs[|fs| - 1];
      DropSeenOnce(init, seen);
      ArrivedSnoc(fs);
      var kept := DropSeen(init, seen);
      if f.Arrives? && f.eid in seen + Arrived(init) {
        assert DropSeen(fs, seen) == kept;
      } else {
        assert DropSeen(fs, seen) == kept + [f];
        IdsSnoc(kept, f);
        if f.Arrives? { NoDupConcat(Ids(kept), [f.eid]); }
      }
    }
  }

  lemma {:induction false} DropSeenInOnce(turns: seq<Turn>, seen: set<string>)
    ensures NoDup(IdsIn(DropSeenIn(turns, seen))) && Elems(IdsIn(DropSeenIn(turns, seen))) == ArrivedIn(turns) - seen
  {
    if turns != [] {
      var init, t := turns[..|turns| - 1], turns[|turns| - 1];
      DropSeenInOnce(init, seen);
      var known, kept := seen + ArrivedIn(init), DropSeenIn(turns, seen);
      DropSeenOnce(t.before, known);
      DropSeenOnce(t.between, known + Arrived(t.before));
      assert kept[..|kept| - 1] == DropSeenIn(init, seen);
      var before, between := Ids(DropSeen(t.before, known)), Ids(DropSeen(t.between, known + Arrived(t.before)));
      var earlier := IdsIn(DropSeenIn(init, seen));
      assert IdsIn(kept) == earlier + before + between;
      NoDupConcat(earlier, before);
      NoDupConcat(earlier + before, between);
    }
  }

  lemma {:induction false} IdsAreArrived(fs: seq<Foreign>)
    ensures Elems(Ids(fs)) == Arrived(fs)
  {
    if fs != [] {
      IdsAreArrived(fs[..|fs| - 1]);
      ArrivedSnoc(fs);
      NoDupConcat(Ids(fs[..|fs| - 1]), if fs[|fs| - 1].Arrives? then [fs[|fs| - 1].eid] else []);
    }
  }

  lemma {:induction false} IdsInAreArrived(turns: seq<Turn>)
    ensures Elems(IdsIn(turns)) == ArrivedIn(turns)
  {
    if turns != [] {
      var init, t := turns[..|turns| - 1], turns[|turns| - 1];
      IdsInAreArrived(init);
      IdsAreArrived(t.before);
      IdsAreArrived(t.between);
      NoDupConcat(IdsIn(init), Ids(t.before));
      NoDupConcat(IdsIn(init) + Ids(t.before), Ids(t.between));
    }
  }

  /** The ids of a command that are left to it. */
  function KeptIds(cmd: Cmd, seen: set<string>): seq<string> {
    match cmd
    case Deliver(eid, _, _, _) => if eid in seen then [] else [eid]
    case Batch(turns, _, _) => IdsIn(DropSeenIn(turns, seen))
    case Request(_) => []
  }

  lemma KeptOnce(cmd: Cmd, seen: set<string>)
    ensures NoDup(KeptIds(cmd, seen)) && Elems(KeptIds(cmd, seen)) == Elems(Delivers(cmd)) - seen
  {
    if cmd.Batch? {
      DropSeenInOnce(cmd.turns, seen);
      IdsInAreArrived(cmd.turns);
    }
  }

  lemma KeepFirstSplits(cmds: seq<Cmd>, seen: set<string>)
    requires cmds != []
    ensures Deliveries(KeepFirst(cmds, seen)) ==
      KeptIds(cmds[0], seen) + Deliveries(KeepFirst(cmds[1..], seen + Elems(Delivers(cmds[0]))))
  {
    var rest := KeepFirst(cmds[1..], seen + Elems(Delivers(cmds[0])));
    match cmds[0]
    case Deliver(eid, _, _, _) =>
      assert Elems([eid]) == {eid};
      if eid in seen {
        assert seen + {eid} == seen;
      } else {
        assert ([cmds[0]] + rest)[1..] == rest;
      }
    case Request(_) =>
      assert seen + Elems([]) == seen;
      assert ([cmds[0]] + rest)[1..] == rest;
    case Batch(turns, now, dies) =>
      IdsInAreArrived(turns);
      var head := Batch(DropSeenIn(turns, seen), now, dies);
      assert ([head] + rest)[1..] == rest;
  }

  /** What is left of a history delivers each event id once at most, none of those seen before, and every other
      id that the history delivered. */
  lemma {:induction false} KeepFirstDeliversOnce(cmds: seq<Cmd>, seen: set<string>)
    ensures NoDup(Deliveries(KeepFirst(cmds, seen)))
    ensures Elems(Deliveries(KeepFirst(cmds, seen))) == Elems(Deliveries(cmds)) - seen
    decreases |cmds|
  {
    if cmds != [] {
      var known := seen + Elems(Delivers(cmds[0]));
      KeepFirstDeliversOnce(cmds[1..], known);
      KeptOnce(cmds[0], seen);
      KeepFirstSplits(cmds, seen);
      NoDupConcat(Delivers(cmds[0]), Deliveries(cmds[1..]));
      NoDupConcat(KeptIds(cmds[0], seen), Deliveries(KeepFirst(cmds[1..], known)));
    }
  }
}
