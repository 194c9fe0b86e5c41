/** What holds along every sequence of committed operations: versions, holds, ownership and the
    lasting effect of a refund. */
module History {
  import opened SeatMachine
  import opened Collections
  import opened Ledger

  /** A committed operation, the client whose transaction it was, and the real clock at its commit. */
  datatype Entry = Entry(client: Option<int>, op: Op, clock: Time)

  type Trace = seq<Entry>

  function Step(db: Db, op: Op): Db {
    if Legal(db, op) then Apply(db, op) else db
  }

  function Replay(db: Db, tr: Trace): Db {
    if tr == [] then db else Step(Replay(db, tr[..|tr| - 1]), tr[|tr| - 1].op)
  }

  /** Each operation is legal where it happens. Its own `now` was read earlier, so it may be stale:
      all that is known is that it does not lie ahead of the clock. */
  ghost predicate ValidTrace(db: Db, tr: Trace) {
    forall k :: 0 <= k < |tr| ==> Legal(Replay(db, tr[..k]), tr[k].op) && Now(tr[k].op) <= tr[k].clock
  }

  lemma ValidPrefix(db: Db, tr: Trace, n: nat)
    requires ValidTrace(db, tr) && n <= |tr|
    ensures ValidTrace(db, tr[..n])
  {
    assert forall k :: 0 <= k < n ==> tr[..n][..k] == tr[..k] && tr[..n][k] == tr[k];
  }

  lemma ValidSnoc(db: Db, tr: Trace, e: Entry)
    requires ValidTrace(db, tr) && Legal(Replay(db, tr), e.op) && Now(e.op) <= e.clock
    ensures ValidTrace(db, tr + [e])
    ensures Replay(db, tr + [e]) == Apply(Replay(db, tr), e.op)
  {
    var tr' := tr + [e];
    assert tr'[..|tr|] == tr;
    assert forall k :: 0 <= k < |tr| ==> tr'[..k] == tr[..k] && tr'[k] == tr[k];
  }

  lemma ReplayNext(db: Db, tr: Trace, k: nat)
    requires k < |tr|
    ensures Replay(db, tr[..k + 1]) == Step(Replay(db, tr[..k]), tr[k].op)
  {
    assert tr[..k + 1][..k] == tr[..k];
  }

  /** The invariant holds at every point of every history. */
  lemma {:induction false} InvAlways(db: Db, tr: Trace, k: nat)
    requires Inv(db) && ValidTrace(db, tr) && k <= |tr|
    ensures Inv(Replay(db, tr[..k]))
  {
    if k == 0 {
      assert tr[..0] == [];
    } else {
      InvAlways(db, tr, k - 1);
      ReplayNext(db, tr, k - 1);
      ApplyKeepsInv(Replay(db, tr[..k - 1]), tr[k - 1].op);
    }
  }

  // ---------------------------------------------------------------- versions

  lemma OpVersions(db: Db, op: Op)
    requires Legal(db, op)
    ensures forall i :: i in Apply(db, op).seats <==> i in db.seats
    ensures forall i :: i in db.seats ==>
      Apply(db, op).seats[i] == db.seats[i] || Apply(db, op).seats[i].version == db.seats[i].version + 1
  {
  }

  /** How many of the operations changed row i. */
  function Changes(db: Db, tr: Trace, i: int): nat {
    if tr == [] then 0
    else
      var before, after := Replay(db, tr[..|tr| - 1]), Replay(db, tr);
      Changes(db, tr[..|tr| - 1], i)
      + (if i in before.seats && i in after.seats && before.seats[i] != after.seats[i] then 1 else 0)
  }

  /** The version of a row counts its committed changes: each raises it by exactly one. */
  lemma {:induction false} VersionCountsChanges(db: Db, tr: Trace, i: int)
    requires ValidTrace(db, tr) && i in db.seats
    ensures i in Replay(db, tr).seats
    ensures Replay(db, tr).seats[i].version == db.seats[i].version + Changes(db, tr, i)
    ensures Changes(db, tr, i) == 0 ==> Replay(db, tr).seats[i] == db.seats[i]
  {
    if tr != [] {
      var n := |tr| - 1;
      ValidPrefix(db, tr, n);
      VersionCountsChanges(db, tr[..n], i);
      OpVersions(Replay(db, tr[..n]), tr[n].op);
    }
  }

  lemma ReplaySplit(db: Db, tr: Trace, j: nat)
    requires ValidTrace(db, tr) && j <= |tr|
    ensures ValidTrace(Replay(db, tr[..j]), tr[j..])
    ensures Replay(Replay(db, tr[..j]), tr[j..]) == Replay(db, tr)
    decreases |tr|
  {
    forall k | j <= k <= |tr|
      ensures Replay(Replay(db, tr[..j]), tr[j..][..k - j]) == Replay(db, tr[..k])
    {
      ReplaySplitAt(db, tr, j, k);
    }
    assert tr[j..][..|tr| - j] == tr[j..] && tr[..|tr|] == tr;
    forall k | 0 <= k < |tr| - j
      ensures Legal(Replay(Replay(db, tr[..j]), tr[j..][..k]), tr[j..][k].op) && Now(tr[j..][k].op) <= tr[j..][k].clock
    {
      assert tr[j..][..k] == tr[j..][..(j + k) - j] && tr[j..][k] == tr[j + k];
    }
  }

  lemma {:induction false} ReplaySplitAt(db: Db, tr: Trace, j: nat, k: nat)
    requires j <= k <= |tr|
    ensures Replay(Replay(db, tr[..j]), tr[j..][..k - j]) == Replay(db, tr[..k])
  {
    if j == k {
      assert tr[j..][..0] == [];
    } else {
      ReplaySplitAt(db, tr, j, k - 1);
      ReplayNext(db, tr, k - 1);
      var mid := tr[j..];
      ReplayNext(Replay(db, tr[..j]), mid, k - 1 - j);
      assert mid[k - 1 - j] == tr[k - 1] && k - 1 - j + 1 == k - j;
    }
  }

  /** No ABA: if a row shows the same version at two moments of a history, it is the same row, and
      nothing committed in between touched it. */
  lemma NoABA(db: Db, tr: Trace, i: int, j: nat, k: nat)
    requires ValidTrace(db, tr) && i in db.seats && j <= k <= |tr|
    ensures i in Replay(db, tr[..j]).seats && i in Replay(db, tr[..k]).seats
    ensures var a, b := Replay(db, tr[..j]).seats[i], Replay(db, tr[..k]).seats[i];
      && a.version <= b.version
      && (a.version == b.version ==> a == b)
      && b.version - a.version == Changes(Replay(db, tr[..j]), tr[j..k], i)
  {
    ValidPrefix(db, tr, k);
    var p := tr[..k];
    assert p[..j] == tr[..j] && p[j..] == tr[j..k];
    ValidPrefix(db, p, j);
    VersionCountsChanges(db, p[..j], i);
    ReplaySplit(db, p, j);
    VersionCountsChanges(Replay(db, p[..j]), p[j..], i);
  }

  // ---------------------------------------------------------------- holds

  /** The operation is the holder's own: a confirmation or an extension in the holder's name. */
  predicate OwnAct(op: Op, holder: Session) {
    (op.ConfirmOp? || op.ExtendOp?) && op.who == holder
  }

  lemma OpNoTheft(db: Db, op: Op, i: int, holder: Session)
    requires AllCoherent(db.seats) && Legal(db, op)
    requires i in db.seats && db.seats[i].status == HELD && db.seats[i].heldBy == Some(holder)
    ensures i in Apply(db, op).seats
    ensures var before, after := db.seats[i], Apply(db, op).seats[i];
      && (before == after || OwnAct(op, holder) || (before.expiresAt.Some? && before.expiresAt.value <= Now(op)))
      && (OwnAct(op, holder) ==>
           (after.status == HELD && after.heldBy == Some(holder)) || (after.status == BOOKED && op.ConfirmOp?))
  {
    assert Coherent(db.seats[i]);
  }

  /** A live hold is never stolen, cut short or moved by anyone else: if an operation changes the row
      of a seat held by `holder`, either it is the holder's own confirmation or extension, or the
      clock has reached the expiry the row carries at that moment. Request clocks may be stale. */
  lemma NoTheft(db: Db, tr: Trace, k: nat, i: int, holder: Session)
    requires Inv(db) && ValidTrace(db, tr) && k < |tr|
    requires i in Replay(db, tr[..k]).seats
    requires Replay(db, tr[..k]).seats[i].status == HELD && Replay(db, tr[..k]).seats[i].heldBy == Some(holder)
    ensures i in Replay(db, tr[..k + 1]).seats
    ensures
      var before, after := Replay(db, tr[..k]).seats[i], Replay(db, tr[..k + 1]).seats[i];
      before == after || OwnAct(tr[k].op, holder)
      || (before.expiresAt.Some? && before.expiresAt.value <= tr[k].clock)
    ensures OwnAct(tr[k].op, holder) ==>
      var after := Replay(db, tr[..k + 1]).seats[i];
      (after.status == HELD && after.heldBy == Some(holder)) || (after.status == BOOKED && tr[k].op.ConfirmOp?)
  {
    InvAlways(db, tr, k);
    ReplayNext(db, tr, k);
    OpNoTheft(Replay(db, tr[..k]), tr[k].op, i, holder);
  }

  predicate HeldUntil(db: Db, i: int, who: Session, until: Time) {
    i in db.seats && db.seats[i].status == HELD &&
    db.seats[i].heldBy == Some(who) && db.seats[i].expiresAt == Some(until)
  }

  lemma HoldTakes(db: Db, op: Op, i: int)
    requires Legal(db, op) && op.HoldOp? && i in op.ids
    ensures HeldUntil(Apply(db, op), i, op.who, op.now + op.duration)
  {
  }

  lemma HoldStays(db: Db, op: Op, i: int, who: Session, until: Time)
    requires AllCoherent(db.seats) && Legal(db, op) && HeldUntil(db, i, who, until) && !OwnAct(op, who)
    requires Now(op) < until
    ensures HeldUntil(Apply(db, op), i, who, until)
  {
    OpNoTheft(db, op, i, who);
  }

  /** A hold stays with its holder until its expiry, unless the holder confirms or extends it. */
  lemma {:induction false} HoldLasts(db: Db, tr: Trace, i: int, who: Session, until: Time)
    requires Inv(db) && ValidTrace(db, tr) && HeldUntil(db, i, who, until)
    requires forall m :: 0 <= m < |tr| ==> !OwnAct(tr[m].op, who) && tr[m].clock < until
    ensures HeldUntil(Replay(db, tr), i, who, until)
  {
    if tr != [] {
      var n := |tr| - 1;
      ValidPrefix(db, tr, n);
      HoldLasts(db, tr[..n], i, who, until);
      InvAlways(db, tr, n);
      HoldStays(Replay(db, tr[..n]), tr[n].op, i, who, until);
    }
  }

  lemma HeldSince(db: Db, tr: Trace, j: nat, k: nat, i: int, who: Session, until: Time)
    requires Inv(db) && ValidTrace(db, tr) && j < k <= |tr| && HeldUntil(Replay(db, tr[..j + 1]), i, who, until)
    requires forall m :: j < m < k ==> !OwnAct(tr[m].op, who) && tr[m].clock < until
    ensures HeldUntil(Replay(db, tr[..k]), i, who, until)
  {
    InvAlways(db, tr, j + 1);
    ValidPrefix(db, tr, k);
    var p := tr[..k];
    assert p[..j + 1] == tr[..j + 1];
    ReplaySplit(db, p, j + 1);
    HoldLasts(Replay(db, tr[..j + 1]), p[j + 1..], i, who, until);
  }

  lemma HeldFrom(db: Db, tr: Trace, j: nat, i: int)
    requires ValidTrace(db, tr) && j < |tr| && tr[j].op.HoldOp? && i in tr[j].op.ids
    ensures HeldUntil(Replay(db, tr[..j + 1]), i, tr[j].op.who, tr[j].op.now + tr[j].op.duration)
  {
    ReplayNext(db, tr, j);
    HoldTakes(Replay(db, tr[..j]), tr[j].op, i);
  }

  lemma HeldRefuses(db: Db, tr: Trace, k: nat, i: int, who: Session, until: Time)
    requires ValidTrace(db, tr) && k < |tr| && HeldUntil(Replay(db, tr[..k]), i, who, until)
    requires tr[k].op.HoldOp? && i in tr[k].op.ids
    ensures until <= tr[k].clock
  {
    assert Legal(Replay(db, tr[..k]), tr[k].op);
  }

  predicate HoldsSeat(op: Op, i: int) {
    op.HoldOp? && i in op.ids
  }

  /** No legal history grants overlapping holds: if the first holder neither confirms nor extends and its
      expiry is not reached before the second hold of the seat, it is reached at the second hold. */
  lemma NoOverlappingHolds(db: Db, tr: Trace, j: nat, k: nat, i: int)
    requires Inv(db) && ValidTrace(db, tr) && j < k < |tr| && HoldsSeat(tr[j].op, i) && HoldsSeat(tr[k].op, i)
    requires forall m :: j < m < k ==> !OwnAct(tr[m].op, tr[j].op.who) && tr[m].clock < tr[j].op.now + tr[j].op.duration
    ensures tr[j].op.now + tr[j].op.duration <= tr[k].clock
  {
    var who, until := tr[j].op.who, tr[j].op.now + tr[j].op.duration;
    HeldFrom(db, tr, j, i);
    HeldSince(db, tr, j, k, i, who, until);
    HeldRefuses(db, tr, k, i, who, until);
  }

  // ---------------------------------------------------------------- ownership

  predicate OwnsAll(db: Db, b: int)
    requires b in db.bookings
  {
    forall i :: i in db.bookings[b].seatIds ==> i in db.seats && BookedFor(db.seats[i], b)
  }

  /** A booking is CONFIRMED exactly when each of its seats is BOOKED in its name. */
  lemma ConfirmedIffOwnsAll(db: Db, b: int)
    requires Inv(db) && b in db.bookings && db.bookings[b].seatIds != []
    ensures db.bookings[b].status == CONFIRMED <==> OwnsAll(db, b)
    ensures db.bookings[b].status == CONFIRMED ==> NoDup(db.bookings[b].seatIds)
    ensures db.bookings[b].status != CONFIRMED ==>
      forall i :: i in db.seats ==> !BookedFor(db.seats[i], b)
  {
    if OwnsAll(db, b) {
      var i := db.bookings[b].seatIds[0];
      assert i in db.seats && BookedFor(db.seats[i], b);
    }
    if db.bookings[b].status == CONFIRMED {
      forall i | i in db.bookings[b].seatIds ensures i in db.seats && BookedFor(db.seats[i], b) {
        assert Coherent(db.seats[i]);
      }
    }
  }

  /** No oversell: two different CONFIRMED bookings share no seat. */
  lemma ConfirmedDisjoint(db: Db, a: int, b: int)
    requires Inv(db) && a in db.bookings && b in db.bookings && a != b
    requires db.bookings[a].status == CONFIRMED && db.bookings[b].status == CONFIRMED
    ensures forall i :: i in db.bookings[a].seatIds ==> i !in db.bookings[b].seatIds
  {
    forall i | i in db.bookings[a].seatIds ensures i !in db.bookings[b].seatIds {
      assert db.seats[i].bookingId == Some(a);
    }
  }

  /** A refund frees exactly the seats of its own booking and leaves every other row alone. */
  lemma RefundFreesItsOwn(db: Db, op: Op, i: int)
    requires Inv(db) && op.RefundOp? && Legal(db, op) && i in db.seats
    ensures
      var after := Apply(db, op).seats[i];
      if i in db.bookings[op.bid].seatIds
      then BookedFor(db.seats[i], op.bid) && after.status == AVAILABLE && Release(db.seats[i]) == Ok(after)
      else after == db.seats[i]
  {
    assert Coherent(db.seats[i]);
  }

  // ---------------------------------------------------------------- after a refund

  lemma OpBookings(db: Db, op: Op, b: int)
    requires Legal(db, op) && b in db.bookings
    ensures b in Apply(db, op).bookings
    ensures Apply(db, op).bookings[b].seatIds == db.bookings[b].seatIds
    ensures db.bookings[b].status == REFUNDED || db.bookings[b].status == REFUND_REQUIRED
      ==> Apply(db, op).bookings[b] == db.bookings[b]
  {
  }

  /** Terminal statuses are never left, seat lists are never revised, bookings are never deleted. */
  lemma {:induction false} TerminalForever(db: Db, tr: Trace, b: int)
    requires b in db.bookings
    ensures b in Replay(db, tr).bookings
    ensures Replay(db, tr).bookings[b].seatIds == db.bookings[b].seatIds
    ensures db.bookings[b].status == REFUNDED || db.bookings[b].status == REFUND_REQUIRED
      ==> Replay(db, tr).bookings[b] == db.bookings[b]
  {
    if tr != [] {
      var before, op := Replay(db, tr[..|tr| - 1]), tr[|tr| - 1].op;
      TerminalForever(db, tr[..|tr| - 1], b);
      if Legal(before, op) { OpBookings(before, op, b); }
    }
  }

  lemma BookedSeatsLinked(db: Db)
    requires SeatsPointToOwners(db) && LinksExact(db)
    ensures forall j :: j in db.seats && db.seats[j].bookingId.Some? ==>
      Link(db.seats[j].bookingId.value, j) in db.links
  {
  }

  lemma RefundedSeatBlocked(db: Db, b: int, i: int)
    requires Inv(db) && b in db.bookings && db.bookings[b].status == REFUNDED && i in db.bookings[b].seatIds
    ensures i in ActiveSeats(db)
    ensures i in db.seats ==> db.seats[i].status != BOOKED
  {
    assert Link(b, i) in db.links && db.links[Link(b, i)].None?;
    BookedSeatsLinked(db);
    assert i in db.seats ==> Coherent(db.seats[i]);
  }

  /** released_at is never set, so the refunded booking keeps its booking_seats rows and the partial
      unique index goes on refusing its seats: no seat of a REFUNDED booking is ever BOOKED again,
      and no booking that claims it can be confirmed. */
  lemma RefundedSeatNeverBookedAgain(db: Db, tr: Trace, b: int, i: int)
    requires Inv(db) && ValidTrace(db, tr)
    requires b in db.bookings && db.bookings[b].status == REFUNDED && i in db.bookings[b].seatIds
    ensures i in Replay(db, tr).seats ==> Replay(db, tr).seats[i].status != BOOKED
    ensures forall c, who, now, key ::
      (c in Replay(db, tr).bookings && i in Replay(db, tr).bookings[c].seatIds
       ==> !Legal(Replay(db, tr), ConfirmOp(c, who, now, key)))
  {
    InvAlways(db, tr, |tr|);
    assert tr[..|tr|] == tr;
    TerminalForever(db, tr, b);
    RefundedSeatBlocked(Replay(db, tr), b, i);
  }

  /** Some booking over seat i has been refunded. */
  ghost predicate OnceRefunded(db: Db, i: int) {
    exists b :: b in db.bookings && db.bookings[b].status == REFUNDED && i in db.bookings[b].seatIds
  }

  /** An active booking_seats row of a held seat can only be left over from a refund. */
  lemma HeldSeatBlockedIff(db: Db, i: int)
    requires Inv(db) && i in db.seats && db.seats[i].status == HELD
    ensures i in ActiveSeats(db) <==> OnceRefunded(db, i)
  {
    assert Coherent(db.seats[i]);
    if i in ActiveSeats(db) {
      var l :| l in db.links && db.links[l].None? && l.seat == i;
      assert l.booking in db.bookings && EverConfirmed(db.bookings[l.booking]) && i in db.bookings[l.booking].seatIds;
    }
    if b :| b in db.bookings && db.bookings[b].status == REFUNDED && i in db.bookings[b].seatIds {
      RefundedSeatBlocked(db, b, i);
    }
  }

  /** Exactly when a booking that is in order can be confirmed: all its seats are live holds of the session, its list
      names each once, its key is free, and still the confirmation is refused if and only if one of the seats
      belongs to a refunded booking. */
  lemma ConfirmableIffNeverRefunded(db: Db, bid: int, who: Session, now: Time, key: Option<string>)
    requires Inv(db) && bid in db.bookings && db.bookings[bid].status == PENDING
    requires db.bookings[bid].seatIds != [] && NoDup(db.bookings[bid].seatIds)
    requires forall i :: i in db.bookings[bid].seatIds ==> i in db.seats && HeldLive(db.seats[i], who, now)
    requires KeyFree(db, bid, db.bookings[bid].userId, key)
    ensures Legal(db, ConfirmOp(bid, who, now, key)) <==>
      forall i :: i in db.bookings[bid].seatIds ==> !OnceRefunded(db, i)
  {
    var ids := db.bookings[bid].seatIds;
    ElemsCard(ids);
    forall i | i in ids
      ensures Confirm(db.seats[i], who, bid, now).Ok? && Link(bid, i) !in db.links
      ensures i in ActiveSeats(db) <==> OnceRefunded(db, i)
    {
      HeldSeatBlockedIff(db, i);
    }
  }

  // ---------------------------------------------------------------- linkage

  /** check_booking_linkage (app/domain/invariants.py) on a snapshot of the tables. */
  ghost predicate LinkageHolds(db: Db) {
    forall i :: i in db.seats ==>
      && (db.seats[i].status == BOOKED ==> i in ActiveSeats(db))
      && (db.seats[i].bookingId.Some? ==> i in ActiveSeats(db))
      && (i in ActiveSeats(db) ==> db.seats[i].status == BOOKED)
  }

  /** One direction never fails. */
  lemma BookedImpliesLinked(db: Db, i: int)
    requires Inv(db) && i in db.seats && (db.seats[i].status == BOOKED || db.seats[i].bookingId.Some?)
    ensures db.seats[i].bookingId.Some? && Active(db, Link(db.seats[i].bookingId.value, i))
    ensures i in ActiveSeats(db)
  {
    assert Coherent(db.seats[i]);
    assert Link(db.seats[i].bookingId.value, i) in db.links;
  }

  /** The whole check passes exactly when no booking over known seats has been refunded. */
  lemma LinkageIffNoRefund(db: Db)
    requires Inv(db)
    ensures LinkageHolds(db) <==>
      !exists b, i ::
        b in db.bookings && db.bookings[b].status == REFUNDED && i in db.bookings[b].seatIds && i in db.seats
  {
    if b, i :| b in db.bookings && db.bookings[b].status == REFUNDED && i in db.bookings[b].seatIds && i in db.seats {
      RefundedSeatBlocked(db, b, i);
    } else {
      forall i | i in db.seats
        ensures (db.seats[i].status == BOOKED ==> i in ActiveSeats(db))
        ensures (db.seats[i].bookingId.Some? ==> i in ActiveSeats(db))
        ensures (i in ActiveSeats(db) ==> db.seats[i].status == BOOKED)
      {
        if db.seats[i].status == BOOKED || db.seats[i].bookingId.Some? { BookedImpliesLinked(db, i); }
        if i in ActiveSeats(db) {
          var l :| l in db.links && db.links[l].None? && l.seat == i;
          assert Coherent(db.seats[i]);
        }
      }
    }
  }

  predicate NoRefunds(tr: Trace) {
    forall k :: 0 <= k < |tr| ==> !tr[k].op.RefundOp?
  }

  lemma {:induction false} NoRefundedBooking(db: Db, tr: Trace, b: int)
    requires ValidTrace(db, tr) && NoRefunds(tr)
    requires forall c :: c in db.bookings ==> db.bookings[c].status != REFUNDED
    requires b in Replay(db, tr).bookings
    ensures Replay(db, tr).bookings[b].status != REFUNDED
  {
    if tr != [] {
      var n := |tr| - 1;
      ValidPrefix(db, tr, n);
      if b in Replay(db, tr[..n]).bookings {
        NoRefundedBooking(db, tr[..n], b);
      }
    }
  }

  /** The two-way linkage check passes along every history without a refund step. */
  lemma LinkageWithoutRefunds(db: Db, tr: Trace)
    requires Inv(db) && ValidTrace(db, tr) && NoRefunds(tr)
    requires forall c :: c in db.bookings ==> db.bookings[c].status != REFUNDED
    ensures LinkageHolds(Replay(db, tr))
  {
    InvAlways(db, tr, |tr|);
    assert tr[..|tr|] == tr;
    var end := Replay(db, tr);
    forall b | b in end.bookings ensures end.bookings[b].status != REFUNDED {
      NoRefundedBooking(db, tr, b);
    }
    LinkageIffNoRefund(end);
  }

  // ---------------------------------------------------------------- a refund that does it

  function Pending(userId: int, who: Session, i: int): Booking {
    Booking(userId, who, PENDING, [i], None, None)
  }

  /** Seat i is held, booked and paid for, and refunded; then another session holds it and books it. */
  function Resale(i: int, first: Session, second: Session): seq<Op> {
    [HoldOp({i}, first, 0, 10), CreateOp(1, Pending(7, first, i), 1), ConfirmOp(1, first, 2, None), RefundOp(1, 3),
     HoldOp({i}, second, 4, 10), CreateOp(2, Pending(8, second, i), 5)]
  }

  /** The seat and booking after the first n operations. */
  ghost predicate ResaleAt(db: Db, i: int, first: Session, second: Session, n: nat) {
    && i in db.seats
    && (db.seats[i].status == if n == 1 || n == 2 || n >= 5 then HELD else if n == 3 then BOOKED else AVAILABLE)
    && (1 <= n <= 2 ==> HeldLive(db.seats[i], first, 9) && db.seats[i].bookingId.None?)
    && (n == 3 ==> db.seats[i].bookingId == Some(1))
    && (n >= 5 ==> HeldLive(db.seats[i], second, 13))
    && (forall b :: b in db.bookings <==> (b == 1 && n >= 2) || (b == 2 && n >= 6))
    && (n >= 2 ==> db.bookings[1] == Pending(7, first, i).(
         status := if n == 2 then PENDING else if n == 3 then CONFIRMED else REFUNDED,
         confirmedAt := if n == 2 then None else Some(2)))
    && (n >= 6 ==> db.bookings[2] == Pending(8, second, i))
    && (forall l :: l in db.links <==> n >= 3 && l == Link(1, i))
  }

  lemma ResaleStep(db: Db, i: int, first: Session, second: Session, n: nat)
    requires n < 6 && ResaleAt(db, i, first, second, n)
    ensures Legal(db, Resale(i, first, second)[n])
    ensures ResaleAt(Apply(db, Resale(i, first, second)[n]), i, first, second, n + 1)
  {
    var op := Resale(i, first, second)[n];
    if n == 2 {
      assert Elems([i]) == {i};
      assert Legal(db, op);
      forall l ensures l in Apply(db, op).links <==> l == Link(1, i) {
        assert l == Link(1, i) <==> l in NewLinks(1, [i]);
      }
    }
  }

  /** From every fresh database and for every seat there is a legal history after which the seat is held
      live by a session that cannot confirm it, and after which the linkage check fails. */
  lemma RefundBlocksResale(db: Db, i: int, first: Session, second: Session) returns (tr: Trace)
    requires db.bookings == map[] && db.links == map[] && i in db.seats
    requires forall j :: j in db.seats ==> Coherent(db.seats[j]) && db.seats[j].status == AVAILABLE
    ensures ValidTrace(db, tr)
    ensures var end := Replay(db, tr);
      && i in end.seats && HeldLive(end.seats[i], second, 13)
      && 2 in end.bookings && end.bookings[2] == Pending(8, second, i)
      && !LinkageHolds(end)
      && (forall now, key :: !Legal(end, ConfirmOp(2, second, now, key)))
  {
    FreshDbInv(db);
    tr := [];
    for n := 0 to 6
      invariant |tr| == n && ValidTrace(db, tr) && ResaleAt(Replay(db, tr), i, first, second, n)
    {
      var op := Resale(i, first, second)[n];
      ResaleStep(Replay(db, tr), i, first, second, n);
      ValidSnoc(db, tr, Entry(None, op, op.now));
      tr := tr + [Entry(None, op, op.now)];
    }
    var end := Replay(db, tr);
    InvAlways(db, tr, |tr|);
    assert tr[..|tr|] == tr;
    RefundedSeatBlocked(end, 1, i);
  }
}
