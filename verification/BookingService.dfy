/** Creating and confirming bookings (app/booking), and the payment worker (workers/payment_worker.py,
    app/payments/ingest.py), statement by statement on a session that may roll back. */
module BookingService {
  import opened SeatMachine
  import opened Collections
  import opened Ledger
  import opened Requests
  import opened Payments
  import opened Strategies

  // ---------------------------------------------------------------- creation

  /** create_booking: validates and inserts; the caller commits. */
  method CreateBooking(session: DbSession, bid: int, userId: int, who: Session, ids: seq<int>, key: string, now: Time)
      returns (outcome: CreateOutcome)
    requires session.work == session.committed
    modifies session
    ensures session.committed == old(session.committed)
    ensures (session.work, outcome) ==
      var (db, o) := CreateSpec(old(session.work).db, bid, userId, who, ids, key, now);
      (old(session.work).(db := db), o)
  {
    var db := session.work.db;
    var failed := [];
    for k := 0 to |ids|
      invariant failed + NotHeldLive(db.seats, ids[k..], who, now) == NotHeldLive(db.seats, ids, who, now)
    {
      assert ids[k..][0] == ids[k] && ids[k..][1..] == ids[k + 1..];
      var i := ids[k];
      if i !in db.seats || db.seats[i].status != HELD || db.seats[i].heldBy != Some(who)
        || db.seats[i].expiresAt.None? || db.seats[i].expiresAt.value <= now
      {
        failed := failed + [i];
      }
    }
    assert failed == NotHeldLive(db.seats, ids, who, now);
    if failed != [] {
      return NotHeld(failed);
    }
    if bid in db.bookings || !KeyFree(db, bid, userId, Some(key)) {
      session.Rollback();
      return KeyTaken;
    }
    session.work := session.work.(db := db.(bookings := db.bookings[bid := NewBooking(userId, who, ids, key)]));
    outcome := Created;
  }

  // ---------------------------------------------------------------- confirmation

  datatype Write = Through | Refused | Clash

  /** attempt_confirm_write: three guarded statements and an outbox row; any failed guard rolls the whole
      open transaction back, including what it had written before this call. */
  method AttemptConfirmWrite(session: DbSession, bid: int, ids: seq<int>, who: Session, now: Time, key: Option<string>)
      returns (result: Write)
    modifies session
    ensures session.committed == old(session.committed)
    ensures match ConfirmWriteSpec(old(session.work).db, bid, ids, who, now, key)
      case Wrote(db) =>
        && result == Through
        && session.work == old(session.work).(db := db, outbox := old(session.work).outbox + [Msg(bid, CONFIRMED)])
      case Lost => result == Refused && session.work == old(session.committed)
      case KeyClash => result == Clash && session.work == old(session.committed)
  {
    var db := session.work.db;
    var matched := LiveSeats(db.seats, ids, who, now);
    session.work := WithSeats(session.work, db.seats + BookRows(db.seats, matched, bid));
    if |matched| != |ids| {
      session.Rollback();
      return Refused;
    }
    if !LinksInsertable(session.work.db, bid, ids) {
      session.Rollback();
      return Refused;
    }
    session.work := session.work.(db := session.work.db.(links := session.work.db.links + NewLinks(bid, ids)));
    if bid !in session.work.db.bookings || session.work.db.bookings[bid].status != PENDING {
      session.Rollback();
      return Refused;
    }
    var b := session.work.db.bookings[bid];
    if !KeyFree(session.work.db, bid, b.userId, key) {
      session.Rollback();
      return Clash;
    }
    b := b.(status := CONFIRMED, confirmedAt := Some(now));
    if key.Some? {
      b := b.(key := key);
    }
    session.work := session.work.(db := session.work.db.(bookings := session.work.db.bookings[bid := b]),
                                  outbox := session.work.outbox + [Msg(bid, CONFIRMED)]);
    result := Through;
  }

  /** confirm_booking_transaction: every domain check first, then the write; the caller commits. */
  method ConfirmBookingTransaction(session: DbSession, bid: int, who: Session, now: Time, key: string)
      returns (outcome: ConfirmOutcome)
    requires session.work == session.committed
    modifies session
    ensures session.committed == old(session.committed)
    ensures outcome == ConfirmSpec(old(session.work).db, bid, who, now, key).1
    ensures session.work == old(session.work).(db := ConfirmSpec(old(session.work).db, bid, who, now, key).0,
      outbox := old(session.work).outbox + if outcome.Confirmed? then [Msg(bid, CONFIRMED)] else [])
  {
    var db := session.work.db;
    assert session.work.outbox + [] == session.work.outbox;
    if bid !in db.bookings {
      return BookingNotFound;
    }
    var ids := db.bookings[bid].seatIds;
    var present := PresentSeats(db.seats, ids);
    if |present| != |ids| {
      return SeatsMissing;
    }
    var left := present;
    while left != {}
      invariant left <= present
      invariant forall i :: i in present && i !in left ==> Confirm(db.seats[i], who, bid, now).Ok?
      decreases left
    {
      var i: int := Min(left);
      if Confirm(db.seats[i], who, bid, now).Err? {
        return SeatRefused;
      }
      left := left - {i};
    }
    if ConfirmBooking(db.bookings[bid], now).Err? {
      return BookingRefused;
    }
    var result := AttemptConfirmWrite(session, bid, ids, who, now, Some(key));
    outcome := match result case Through => Confirmed case Refused => HoldLost case Clash => KeyReused;
  }

  // ---------------------------------------------------------------- payment events

  /** ingest_webhook from its booking lookup on. */
  method IngestWebhook(session: DbSession, eid: string, kind: string, raw: Option<int>, now: Time)
      returns (outcome: IngestOutcome)
    requires session.work == session.committed
    modifies session
    ensures session.work == session.committed
    ensures (session.committed, outcome) == IngestSpec(old(session.committed), eid, kind, raw, now)
  {
    var bookingId: Option<int> := None;
    if raw.Some? && raw.value in session.work.db.bookings {
      bookingId := raw;
    }
    if eid in session.work.events {
      session.Rollback();
      return Duplicate;
    }
    var mark := if bookingId.Some? then Unprocessed else Unresolved;
    session.work := session.work.(events := session.work.events[eid := Event(bookingId, kind, now, mark)]);
    session.Commit();
    outcome := if bookingId.Some? then Accepted else NoBooking;
  }

  /** What other transactions commit meanwhile, as far as they need not wait for the rows this one has written. */
  method Meanwhile(session: DbSession, locks: Locks, fs: seq<Foreign>, ghost o: Open)
    requires o.base == session.committed && o.work == session.work && o.locks == locks
    modifies session
    ensures session.committed == MeddleAll(o, fs).base && session.work == MeddleAll(o, fs).work
    ensures MeddleAll(o, fs).locks == locks
  {
    for k := 0 to |fs|
      invariant session.committed == MeddleAll(o, fs[..k]).base && session.work == MeddleAll(o, fs[..k]).work
      invariant MeddleAll(o, fs[..k]).locks == locks
    {
      assert fs[..k + 1][..k] == fs[..k];
      match fs[k] {
        case Commits(op) =>
          if Legal(session.committed.db, op) && Legal(session.work.db, op) && Avoids(session.committed.db, op, locks) {
            session.committed, session.work := After(session.committed, op), After(session.work, op);
          }
        case Arrives(eid, kind, raw, now) =>
          session.committed, session.work :=
            IngestSpec(session.committed, eid, kind, raw, now).0, IngestSpec(session.work, eid, kind, raw, now).0;
      }
    }
    assert fs[..|fs|] == fs;
  }

  /** The open transaction after a handler that ended in h: rolled back if the confirm write was lost. */
  ghost predicate AfterHandler(base: Store, work: Store, after: Store, h: Handled, bid: int) {
    if h.lost then after == base
    else after == work.(db := h.db, outbox := work.outbox + Notice(work.db, h.db, bid))
  }

  /** _seats_still_valid_for_booking */
  method SeatsStillValidFor(t: Table, b: Booking, now: Time) returns (ok: bool)
    ensures ok == SeatsStillValid(t, b, now)
  {
    var present := PresentSeats(t, b.seatIds);
    if |present| != |b.seatIds| {
      return false;
    }
    var left := present;
    while left != {}
      invariant left <= present
      invariant forall i :: i in present && i !in left ==> HeldLive(t[i], b.sessionId, now)
      decreases left
    {
      var i: int := Min(left);
      if !HeldLive(t[i], b.sessionId, now) {
        assert i in present && i !in LiveSeats(t, b.seatIds, b.sessionId, now);
        return false;
      }
      left := left - {i};
    }
    assert forall i :: i in present <==> i in LiveSeats(t, b.seatIds, b.sessionId, now);
    ok := true;
  }

  /** _apply_payment_succeeded: `seen` is what it read when it decided; others may have committed since. */
  method ApplyPaymentSucceeded(session: DbSession, seen: Db, bid: int, now: Time)
      returns (verdict: Verdict, touched: set<int>)
    modifies session
    ensures session.committed == old(session.committed)
    ensures var h := SucceededBetween(seen, old(session.work).db, bid, now);
      verdict == h.verdict && touched == h.touched &&
      AfterHandler(old(session.committed), old(session.work), session.work, h, bid)
  {
    assert session.work.outbox + [] == session.work.outbox;
    if bid !in seen.bookings {
      return REJECTED, {};
    }
    var b := seen.bookings[bid];
    if b.status == CONFIRMED {
      return APPLIED, {};
    }
    if b.status != PENDING {
      return REJECTED, {};
    }
    var valid := SeatsStillValidFor(seen.seats, b, now);
    if !valid {
      var db := session.work.db;
      var rowcount := if bid in db.bookings && db.bookings[bid].status == PENDING then 1 else 0;
      if rowcount != 1 {
        return REJECTED, {};
      }
      session.work :=
        session.work.(db := db.(bookings := db.bookings[bid := db.bookings[bid].(status := REFUND_REQUIRED)]));
      session.work := session.work.(outbox := session.work.outbox + [Msg(bid, REFUND_REQUIRED)]);
      return APPLIED, {};
    }
    var result := AttemptConfirmWrite(session, bid, b.seatIds, b.sessionId, now, None);
    if result != Through {
      return REJECTED, {};
    }
    verdict, touched := APPLIED, Elems(b.seatIds);
  }

  /** _apply_payment_refunded, likewise. */
  method ApplyPaymentRefunded(session: DbSession, seen: Db, bid: int, now: Time)
      returns (verdict: Verdict, touched: set<int>)
    modifies session
    ensures session.committed == old(session.committed)
    ensures var h := RefundedBetween(seen, old(session.work).db, bid);
      verdict == h.verdict && touched == h.touched &&
      AfterHandler(old(session.committed), old(session.work), session.work, h, bid)
  {
    var db := session.work.db;
    assert session.work.outbox + [] == session.work.outbox;
    if bid !in seen.bookings {
      return REJECTED, {};
    }
    var b := seen.bookings[bid];
    match RefundBooking(b) {
      case Err(_) => return REJECTED, {};
      case Ok(refunded) =>
        var rowcount := if bid in db.bookings && db.bookings[bid].status == CONFIRMED then 1 else 0;
        if rowcount != 1 {
          return REJECTED, {};
        }
        session.work :=
          session.work.(db := db.(bookings := db.bookings[bid := db.bookings[bid].(status := refunded.status)]));
        session.work := WithSeats(session.work, db.seats + FreeRows(db.seats, b.seatIds, bid));
        session.work := session.work.(outbox := session.work.outbox + [Msg(bid, REFUNDED)]);
        return APPLIED, Elems(b.seatIds);
    }
  }

  function Received(s: Store, e: string): Time {
    if e in s.events then s.events[e].receivedAt else 0
  }

  /** SELECT ... WHERE processing_status IS NULL ORDER BY received_at LIMIT n FOR UPDATE SKIP LOCKED; `skip` are the
      rows locked by others. */
  ghost predicate IsSelection(s: Store, rows: seq<string>, limit: nat, skip: set<string>) {
    && NoDup(rows) && (forall e :: e in rows ==> Waiting(s, e, skip))
    && |rows| <= limit && (|rows| < limit ==> forall e :: Waiting(s, e, skip) ==> e in rows)
    && (forall j, k :: 0 <= j < k < |rows| ==> Received(s, rows[j]) <= Received(s, rows[k]))
    && (forall r, e :: r in rows && Waiting(s, e, skip) && e !in rows ==> Received(s, r) <= Received(s, e))
  }

  predicate Waiting(s: Store, e: string, skip: set<string>) {
    e in s.events && s.events[e].mark == Unprocessed && e !in skip
  }

  method Earliest(s: Store, left: set<string>) returns (e: string)
    requires left != {} && forall x :: x in left ==> x in s.events
    ensures e in left && forall x :: x in left ==> Received(s, e) <= Received(s, x)
  {
    var times := set x | x in left :: Received(s, x);
    if forall x :: x !in left { assert false; }
    ghost var y :| y in left;
    assert Received(s, y) in times;
    var first: int := Min(times);
    e :| e in left && Received(s, e) == first;
    assert forall x :: x in left ==> Received(s, x) in times;
  }

  method SelectEvents(s: Store, limit: nat, skip: set<string>) returns (rows: seq<string>)
    ensures IsSelection(s, rows, limit, skip)
  {
    var left := Queue(s) - skip;
    assert forall e :: e in left <==> Waiting(s, e, skip);
    rows := [];
    while |rows| < limit && left != {}
      invariant left <= Queue(s) - skip && |rows| <= limit && NoDup(rows)
      invariant forall e :: e in rows <==> e in Queue(s) - skip && e !in left
      invariant forall j, k :: 0 <= j < k < |rows| ==> Received(s, rows[j]) <= Received(s, rows[k])
      invariant forall r, e :: r in rows && e in left ==> Received(s, r) <= Received(s, e)
      decreases left
    {
      var e := Earliest(s, left);
      rows := rows + [e];
      left := left - {e};
    }
  }

  /** The events of a batch with what others do around each of them. */
  function Turns(rows: seq<string>, before: nat -> seq<Foreign>, between: nat -> seq<Foreign>): seq<Turn> {
    seq(|rows|, k requires 0 <= k < |rows| => Turn(rows[k], before(k), between(k)))
  }

  /** process_once: one transaction for the whole batch, except that a lost confirm write rolls it back and carries
      on. Others commit before and during each event's handling. It may die after any number of events; a
      loop that cannot read its next event after a rollback is one that dies there. */
  method ProcessOnce(session: DbSession, limit: nat, skip: set<string>, now: Time,
      before: nat -> seq<Foreign>, between: nat -> seq<Foreign>, crashAt: nat)
      returns (applied: nat, rejected: nat, touched: set<int>, rows: seq<string>, died: bool)
    requires session.work == session.committed
    modifies session
    ensures IsSelection(old(session.committed), rows, limit, skip) && (died <==> crashAt <= |rows|)
    ensures var o :=
        BatchSpec(old(session.committed), Turns(rows, before, between)[..if died then crashAt else |rows|], now);
      && session.work == session.committed == (if died then o.base else o.work)
      && applied == o.applied && rejected == o.rejected && touched == o.touched
  {
    rows := SelectEvents(session.work, limit, skip);
    var turns := Turns(rows, before, between);
    applied, rejected, touched, died := 0, 0, {}, true;
    var locks := NO_LOCKS;
    ghost var o := Opened(session.committed);
    for k := 0 to |rows|
      invariant o == BatchSpec(old(session.committed), turns[..k], now) && died && k <= crashAt
      invariant session.committed == o.base && session.work == o.work && locks == o.locks
      invariant applied == o.applied && rejected == o.rejected && touched == o.touched
    {
      if k == crashAt {
        session.Rollback();
        return;
      }
      assert turns[..k + 1][..k] == turns[..k];
      var verdict, seats, known;
      verdict, seats, locks, known := HandleEvent(session, locks, turns[k], now, o);
      if known {
        touched := touched + seats;
        if verdict == APPLIED {
          applied := applied + 1;
        } else {
          rejected := rejected + 1;
        }
      }
      o := TurnSpec(o, turns[k], now);
    }
    if crashAt == |rows| {
      session.Rollback();
      return;
    }
    died := false;
    session.Commit();
  }

  /** One iteration of the batch loop. */
  method HandleEvent(session: DbSession, locks: Locks, t: Turn, now: Time, ghost o: Open)
      returns (verdict: Verdict, seats: set<int>, locks': Locks, known: bool)
    requires o.base == session.committed && o.work == session.work && o.locks == locks
    modifies session
    ensures var o' := TurnSpec(o, t, now); session.committed == o'.base && session.work == o'.work && locks' == o'.locks
    ensures known <==> t.eid in MeddleAll(o, t.before).work.events
    ensures var met := MeddleAll(MeddleAll(o, t.before), t.between); var o' := TurnSpec(o, t, now);
      && met.applied == o.applied && met.rejected == o.rejected && met.touched == o.touched
      && (known ==> o'.applied == o.applied + (if verdict == APPLIED then 1 else 0) && o'.touched == o.touched + seats)
      && (known ==> o'.rejected == o.rejected + (if verdict == APPLIED then 0 else 1))
      && (!known ==> o' == met)
  {
    Meanwhile(session, locks, t.before, o);
    ghost var seen := MeddleAll(o, t.before);
    var before := session.work;
    Meanwhile(session, locks, t.between, seen);
    ghost var met := MeddleAll(seen, t.between);
    MeddleCountsNothing(o, t.before);
    MeddleCountsNothing(seen, t.between);
    verdict, seats, locks', known := REJECTED, {}, locks, t.eid in before.events;
    if known {
      var ev := before.events[t.eid];
      var db := session.work.db;
      if ev.bookingId.None? {
        assert session.work.outbox + [] == session.work.outbox;
      } else if ev.kind == SUCCEEDED {
        verdict, seats := ApplyPaymentSucceeded(session, before.db, ev.bookingId.value, now);
      } else if ev.kind == REFUND {
        verdict, seats := ApplyPaymentRefunded(session, before.db, ev.bookingId.value, now);
      } else {
        assert session.work.outbox + [] == session.work.outbox;
      }
      // The database's own bookkeeping: the rows this transaction has written and not rolled back.
      var h := HandlerSpec(before.db, db, ev, now);
      locks' := if h.lost then NO_LOCKS else Lock(locks, db, h, ev);
      session.work := SetMark(session.work, t.eid, verdict);
    }
  }
}
