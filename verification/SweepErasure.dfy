/** Lazy expiry is the mechanism and the sweeper only cleanup: erasing every sweeper pass from a
    sequence of requests changes no outcome. */
module SweepErasure {
  import opened SeatMachine
  import opened Collections
  import opened Ledger
  import opened Interleaving
  import opened Requests

  datatype Cmd =
    | Acquire(ids: seq<int>, who: Session, now: Time, duration: int, versioned: bool)
    | AcquireAny(event: int, count: nat, who: Session, now: Time, duration: int, skip: set<int>)
    | Extend(seat: int, who: Session, now: Time, until: Time)
    | Create(bid: int, userId: int, who: Session, ids: seq<int>, key: string, now: Time)
    | ConfirmBookingCmd(bid: int, who: Session, now: Time, key: string)
    | PaymentSucceeded(bid: int, now: Time)
    | PaymentRefunded(bid: int, now: Time)
    | SweepPass(batch: nat, now: Time, skip: set<int>)

  datatype Outcome =
    | AcquireResult(a: AcquireOutcome)
    | AnyResult(n: AnyOutcome)
    | ExtendResult(ok: bool)
    | CreateResult(c: CreateOutcome)
    | ConfirmResult(r: ConfirmOutcome)
    | EventResult(v: Verdict, touched: set<int>, lost: bool)
    | SweepResult

  function Attempt(db: Db, cmd: Cmd): (Db, Outcome) {
    match cmd
    case Acquire(ids, who, now, duration, versioned) =>
      var (t, o) := AcquireSpec(db.seats, ids, who, now, duration, versioned);
      (db.(seats := t), AcquireResult(o))
    case AcquireAny(event, count, who, now, duration, skip) =>
      var (t, o) := AnyNSpec(db.seats, event, count, who, now, duration, skip);
      (db.(seats := t), AnyResult(o))
    case Extend(seat, who, now, until) =>
      var (t, ok) := ExtendSpec(db.seats, seat, who, now, until);
      (db.(seats := t), ExtendResult(ok))
    case Create(bid, userId, who, ids, key, now) =>
      var (db', o) := CreateSpec(db, bid, userId, who, ids, key, now);
      (db', CreateResult(o))
    case ConfirmBookingCmd(bid, who, now, key) =>
      var (db', o) := ConfirmSpec(db, bid, who, now, key);
      (db', ConfirmResult(o))
    case PaymentSucceeded(bid, now) =>
      var h := SucceededSpec(db, bid, now);
      (h.db, EventResult(h.verdict, h.touched, h.lost))
    case PaymentRefunded(bid, now) =>
      var h := RefundedSpec(db, bid);
      (h.db, EventResult(h.verdict, h.touched, h.lost))
    case SweepPass(batch, now, skip) => (db.(seats := SweepSpec(db.seats, batch, now, skip)), SweepResult)
  }

  // ---------------------------------------------------------------- each request keeps the invariant

  lemma SeatAttemptKeepsInv(db: Db, cmd: Cmd)
    requires Inv(db) && (cmd.Acquire? || cmd.AcquireAny? || cmd.Extend? || cmd.SweepPass?)
    ensures Inv(Attempt(db, cmd).0)
  {
    match cmd
    case Acquire(ids, who, now, duration, versioned) =>
      if duration > 0 {
        AcquireIsHold(db, ids, who, now, duration, versioned);
        if AcquireSpec(db.seats, ids, who, now, duration, versioned).1.Acquired? {
          ApplyKeepsInv(db, HoldOp(Elems(ids), who, now, duration));
        }
      } else {
        NoDurationNoHold(db.seats, ids, who, now, duration, versioned);
      }
    case AcquireAny(event, count, who, now, duration, skip) =>
      AnyNIsHold(db, event, count, who, now, duration, skip);
      var o := AnyNSpec(db.seats, event, count, who, now, duration, skip).1;
      if o.AnyAcquired? { ApplyKeepsInv(db, HoldOp(o.ids, who, now, duration)); }
    case Extend(seat, who, now, until) =>
      if ExtendSpec(db.seats, seat, who, now, until).1 { ApplyKeepsInv(db, ExtendOp(seat, who, now, until)); }
    case SweepPass(batch, now, skip) =>
      SweepIsExpire(db, batch, now, skip);
      ApplyKeepsInv(db, ExpireOp(First(Backlog(db.seats, now) - skip, batch), now));
  }

  lemma BookingAttemptKeepsInv(db: Db, cmd: Cmd)
    requires Inv(db) && (cmd.Create? || cmd.ConfirmBookingCmd? || cmd.PaymentSucceeded? || cmd.PaymentRefunded?)
    ensures Inv(Attempt(db, cmd).0)
  {
    match cmd
    case Create(bid, userId, who, ids, key, now) =>
      if CreateSpec(db, bid, userId, who, ids, key, now).1.Created? {
        ApplyKeepsInv(db, CreateOp(bid, NewBooking(userId, who, ids, key), now));
      }
    case ConfirmBookingCmd(bid, who, now, key) =>
      ConfirmIsConfirm(db, bid, who, now, key);
      if ConfirmSpec(db, bid, who, now, key).1.Confirmed? { ApplyKeepsInv(db, ConfirmOp(bid, who, now, Some(key))); }
    case PaymentSucceeded(bid, now) => SucceededKeepsInv(db, bid, now);
    case PaymentRefunded(bid, now) => RefundedKeepsInv(db, bid, now);
  }

  lemma SucceededKeepsInv(db: Db, bid: int, now: Time)
    requires Inv(db)
    ensures Inv(SucceededSpec(db, bid, now).db)
  {
    SucceededIsOp(db, db, bid, now);
    if SucceededSpec(db, bid, now).db != db { ApplyKeepsInv(db, SucceededOp(db, bid, now)); }
  }

  lemma RefundedKeepsInv(db: Db, bid: int, now: Time)
    requires Inv(db)
    ensures Inv(RefundedSpec(db, bid).db)
  {
    RefundedIsOp(db, db, bid, now);
    if RefundedSpec(db, bid).verdict == APPLIED { ApplyKeepsInv(db, RefundOp(bid, now)); }
  }

  lemma AttemptKeepsInv(db: Db, cmd: Cmd)
    requires Inv(db)
    ensures Inv(Attempt(db, cmd).0)
  {
    if cmd.Acquire? || cmd.AcquireAny? || cmd.Extend? || cmd.SweepPass? {
      SeatAttemptKeepsInv(db, cmd);
    } else {
      BookingAttemptKeepsInv(db, cmd);
    }
  }

  // ---------------------------------------------------------------- what each request amounts to

  /** The operation a request asks for. */
  function Asks(db: Db, cmd: Cmd): Op {
    match cmd
    case Acquire(ids, who, now, duration, _) => HoldOp(Elems(ids), who, now, duration)
    case AcquireAny(event, count, who, now, duration, skip) =>
      HoldOp(First((set i | i in db.seats && Takeable(db, event, now, skip, i)), count), who, now, duration)
    case Extend(seat, who, now, until) => ExtendOp(seat, who, now, until)
    case Create(bid, userId, who, ids, key, now) =>
      CreateOp(bid, Booking(userId, who, PENDING, ids, Some(key), None), now)
    case ConfirmBookingCmd(bid, who, now, key) => ConfirmOp(bid, who, now, Some(key))
    case PaymentSucceeded(bid, now) => SucceededOp(db, bid, now)
    case PaymentRefunded(bid, now) => RefundOp(bid, now)
    case SweepPass(batch, now, skip) =>
      ExpireOp(First((set i | i in db.seats && i !in skip && RunOut(db.seats[i], now)), batch), now)
  }

  /** What a request needs beyond a legal operation: each seat listed once for the versioned UPDATE, enough seats for
      any N, live holds for a new booking. */
  predicate Meets(db: Db, cmd: Cmd) {
    match cmd
    case Acquire(ids, _, _, _, versioned) => versioned ==> |Elems(ids)| == |ids|
    case AcquireAny(event, count, _, now, _, skip) =>
      |(set i | i in db.seats && Takeable(db, event, now, skip, i))| >= count
    case Create(_, _, who, ids, _, now) => forall i :: i in ids ==> i in db.seats && HeldLive(db.seats[i], who, now)
    case _ => true
  }

  predicate Succeeds(o: Outcome) {
    match o
    case AcquireResult(a) => a.Acquired?
    case AnyResult(n) => n.AnyAcquired?
    case ExtendResult(ok) => ok
    case CreateResult(c) => c.Created?
    case ConfirmResult(r) => r.Confirmed?
    case EventResult(v, _, _) => v == APPLIED
    case SweepResult => true
  }

  ghost predicate IsOp(db: Db, cmd: Cmd) {
    var (db', o) := Attempt(db, cmd);
    && (Succeeds(o) <==> Meets(db, cmd) && Legal(db, Asks(db, cmd)))
    && db' == (if Succeeds(o) && Legal(db, Asks(db, cmd)) then Apply(db, Asks(db, cmd)) else db)
  }

  /** A request succeeds exactly when it meets its needs and the operation it asks for is legal, and then it is that
      operation; otherwise it changes nothing. A payment that finds its booking confirmed is already
      satisfied. */
  lemma AttemptIsOp(db: Db, cmd: Cmd)
    requires Inv(db)
    ensures var (db', o) := Attempt(db, cmd);
      if cmd.PaymentSucceeded? && cmd.bid in db.bookings && db.bookings[cmd.bid].status == CONFIRMED
      then Succeeds(o) && db' == db
      else
        && (Succeeds(o) <==> Meets(db, cmd) && Legal(db, Asks(db, cmd)))
        && db' == (if Succeeds(o) then Apply(db, Asks(db, cmd)) else db)
  {
    match cmd
    case Acquire(_, _, _, _, _) => AcquireAttemptIsOp(db, cmd);
    case AcquireAny(_, _, _, _, _, _) => AnyAttemptIsOp(db, cmd);
    case Extend(_, _, _, _) => assert IsOp(db, cmd);
    case SweepPass(_, _, _) => SweepAttemptIsOp(db, cmd);
    case Create(_, _, _, _, _, _) => BookingAttemptIsOp(db, cmd);
    case ConfirmBookingCmd(_, _, _, _) => BookingAttemptIsOp(db, cmd);
    case PaymentRefunded(_, _) => BookingAttemptIsOp(db, cmd);
    case PaymentSucceeded(bid, now) =>
      if !(bid in db.bookings && db.bookings[bid].status == CONFIRMED) { PaymentAttemptIsOp(db, bid, now); }
  }

  lemma SweepAttemptIsOp(db: Db, cmd: Cmd)
    requires cmd.SweepPass?
    ensures IsOp(db, cmd)
  {
    SweepIsExpire(db, cmd.batch, cmd.now, cmd.skip);
    var due := set i | i in db.seats && i !in cmd.skip && RunOut(db.seats[i], cmd.now);
    assert forall i :: i in due <==> i in Backlog(db.seats, cmd.now) - cmd.skip;
    assert due == Backlog(db.seats, cmd.now) - cmd.skip;
  }

  lemma BookingAttemptIsOp(db: Db, cmd: Cmd)
    requires Inv(db) && (cmd.Create? || cmd.ConfirmBookingCmd? || cmd.PaymentRefunded?)
    ensures IsOp(db, cmd)
  {
    match cmd
    case Create(bid, userId, who, ids, key, now) => CreateIsCreate(db, bid, userId, who, ids, key, now);
    case ConfirmBookingCmd(bid, who, now, key) => ConfirmIsConfirm(db, bid, who, now, key);
    case PaymentRefunded(bid, now) => RefundedIsOp(db, db, bid, now);
  }

  lemma AcquireAttemptIsOp(db: Db, cmd: Cmd)
    requires Inv(db) && cmd.Acquire?
    ensures IsOp(db, cmd)
  {
    assert forall i :: i in cmd.ids <==> i in Elems(cmd.ids);
    LegalColumns(db, Asks(db, cmd));
    if cmd.duration > 0 {
      AcquireIsHold(db, cmd.ids, cmd.who, cmd.now, cmd.duration, cmd.versioned);
      ElemsCard(cmd.ids);
    } else {
      NoDurationNoHold(db.seats, cmd.ids, cmd.who, cmd.now, cmd.duration, cmd.versioned);
      if cmd.ids == [] {
        assert Elems(cmd.ids) == {};
        NothingHeld(db, cmd.who, cmd.now, cmd.duration);
      } else {
        var i := cmd.ids[0];
        assert i in Elems(cmd.ids) && (i in db.seats ==> Hold(db.seats[i], cmd.who, cmd.now, cmd.duration).Err?);
      }
    }
  }

  lemma NothingHeld(db: Db, who: Session, now: Time, duration: int)
    ensures Legal(db, HoldOp({}, who, now, duration)) && Apply(db, HoldOp({}, who, now, duration)) == db
  {
    assert HoldSeats(db.seats, {}, who, now, duration) == db.seats;
  }

  lemma AnyAttemptIsOp(db: Db, cmd: Cmd)
    requires Inv(db) && cmd.AcquireAny?
    ensures IsOp(db, cmd)
  {
    var takeable := set i | i in db.seats && Takeable(db, cmd.event, cmd.now, cmd.skip, i);
    assert forall i :: i in takeable <==> i in Available(db.seats, cmd.event, cmd.now, cmd.skip);
    assert takeable == Available(db.seats, cmd.event, cmd.now, cmd.skip);
    AnyNIsHold(db, cmd.event, cmd.count, cmd.who, cmd.now, cmd.duration, cmd.skip);
    var chosen := First(takeable, cmd.count);
    SubsetCard(chosen, takeable);
    if Meets(db, cmd) && cmd.count > 0 && cmd.duration <= 0 {
      assert |chosen| == cmd.count && chosen != {};
      var i := Min(chosen);
    }
  }

  lemma PaymentAttemptIsOp(db: Db, bid: int, now: Time)
    requires Inv(db) && !(bid in db.bookings && db.bookings[bid].status == CONFIRMED)
    ensures IsOp(db, PaymentSucceeded(bid, now))
  {
    SucceededVerdict(db, db, bid, now);
    if bid in db.bookings { ValidMeansAllHeld(db.seats, db.bookings[bid], now); }
  }

  // ---------------------------------------------------------------- equal up to sweeping

  /** The seat as an observer at time `now` may see it: an overdue hold counts as AVAILABLE, and version
      numbers are not observed. */
  function View(s: Seat, now: Time): Seat {
    if Overdue(s, now)
    then s.(status := AVAILABLE, version := 0, heldBy := None, expiresAt := None, bookingId := None)
    else s.(version := 0)
  }

  ghost predicate SameView(t: Table, u: Table, now: Time) {
    && (forall i :: i in t <==> i in u)
    && (forall i :: i in t ==> View(t[i], now) == View(u[i], now))
  }

  ghost predicate Alike(a: Db, b: Db, now: Time) {
    a.bookings == b.bookings && a.links == b.links && SameView(a.seats, b.seats, now)
  }

  /** Everything a request asks about a seat, and everything it writes, depends on the view alone. */
  lemma ViewDecides(s: Seat, u: Seat, now: Time)
    requires Coherent(s) && Coherent(u) && View(s, now) == View(u, now)
    ensures s.eventId == u.eventId
    ensures Reclaimable(s, now) <==> Reclaimable(u, now)
    ensures forall who :: HeldLive(s, who, now) <==> HeldLive(u, who, now)
    ensures forall b :: BookedFor(s, b) <==> BookedFor(u, b)
    ensures forall who, until :: Reclaimable(s, now) ==>
      View(HoldRow(s, who, until), now) == View(HoldRow(u, who, until), now)
    ensures forall who, until :: HeldLive(s, who, now) ==>
      View(ExtendRow(s, until), now) == View(ExtendRow(u, until), now)
    ensures forall b :: View(BookRow(s, b), now) == View(BookRow(u, b), now)
    ensures forall b :: BookedFor(s, b) ==> View(FreeRow(s), now) == View(FreeRow(u), now)
  {
  }

  lemma ViewLater(t: Table, u: Table, now: Time, later: Time)
    requires SameView(t, u, now) && now <= later
    ensures SameView(t, u, later)
  {
    forall i | i in t ensures View(t[i], later) == View(u[i], later) {
      assert View(t[i], now) == View(u[i], now);
    }
  }

  /** Sweeping is invisible. */
  lemma SweepInvisible(t: Table, u: Table, batch: nat, now: Time, skip: set<int>)
    requires SameView(t, u, now)
    ensures SameView(SweepSpec(t, batch, now, skip), u, now)
  {
    var t' := SweepSpec(t, batch, now, skip);
    forall i | i in t' ensures View(t'[i], now) == View(t[i], now) {
    }
  }

  // ---------------------------------------------------------------- request by request

  lemma {:induction false} SameMissing(t: Table, u: Table, ids: seq<int>, now: Time)
    requires SameView(t, u, now)
    ensures Missing(t, ids) == Missing(u, ids)
  {
    if ids != [] {
      var i := ids[0];
      assert i in t <==> i in u;
      SameMissing(t, u, ids[1..], now);
    }
  }

  lemma {:induction false} SameRefused(t: Table, u: Table, ids: seq<int>, who: Session, now: Time, duration: int)
    requires SameView(t, u, now) && AllCoherent(t) && AllCoherent(u)
    ensures FirstRefused(t, ids, who, now, duration) == FirstRefused(u, ids, who, now, duration)
  {
    if ids != [] {
      var i := ids[0];
      assert i in t <==> i in u;
      SameRefused(t, u, ids[1..], who, now, duration);
      if i in t && duration > 0 {
        ViewDecides(t[i], u[i], now);
        HoldUpdateAgrees(t[i], who, now, duration);
        HoldUpdateAgrees(u[i], who, now, duration);
      }
    }
  }

  lemma SameHeld(t: Table, u: Table, ids: set<int>, who: Session, now: Time, until: Time)
    requires SameView(t, u, now) && AllCoherent(t) && AllCoherent(u)
    requires forall i :: i in ids && i in t ==> Reclaimable(t[i], now)
    ensures SameView(HeldTable(t, ids, who, until), HeldTable(u, ids, who, until), now)
  {
    var t', u' := HeldTable(t, ids, who, until), HeldTable(u, ids, who, until);
    forall i | i in t' ensures View(t'[i], now) == View(u'[i], now) {
      ViewDecides(t[i], u[i], now);
    }
  }

  lemma AcquiredWereReclaimable(t: Table, ids: seq<int>, who: Session, now: Time, duration: int, versioned: bool)
    requires AcquireSpec(t, ids, who, now, duration, versioned).1.Acquired?
    ensures forall i :: i in Elems(ids) && i in t ==> Reclaimable(t[i], now)
  {
    NothingRefused(t, ids, who, now, duration);
    forall i | i in Elems(ids) && i in t ensures Reclaimable(t[i], now) {
      assert Hold(t[i], who, now, duration).Ok?;
    }
  }

  lemma AcquireTable(t: Table, ids: seq<int>, who: Session, now: Time, duration: int, versioned: bool)
    ensures var (t', o) := AcquireSpec(t, ids, who, now, duration, versioned);
      t' == if o.Acquired? then HeldTable(t, Elems(ids), who, now + duration) else t
  {
  }

  lemma SameAcquire(t: Table, u: Table, ids: seq<int>, who: Session, now: Time, duration: int, versioned: bool)
    requires SameView(t, u, now) && AllCoherent(t) && AllCoherent(u)
    ensures SameView(AcquireSpec(t, ids, who, now, duration, versioned).0,
      AcquireSpec(u, ids, who, now, duration, versioned).0, now)
  {
    SameAcquireOutcome(t, u, ids, who, now, duration, versioned);
    AcquireTable(t, ids, who, now, duration, versioned);
    AcquireTable(u, ids, who, now, duration, versioned);
    if AcquireSpec(t, ids, who, now, duration, versioned).1.Acquired? {
      AcquiredWereReclaimable(t, ids, who, now, duration, versioned);
      SameHeld(t, u, Elems(ids), who, now, now + duration);
    }
  }

  lemma SameAcquireOutcome(t: Table, u: Table, ids: seq<int>, who: Session, now: Time, duration: int, versioned: bool)
    requires SameView(t, u, now) && AllCoherent(t) && AllCoherent(u)
    ensures AcquireSpec(t, ids, who, now, duration, versioned).1 == AcquireSpec(u, ids, who, now, duration, versioned).1
  {
    SameMissing(t, u, ids, now);
    SameRefused(t, u, ids, who, now, duration);
  }

  lemma AnyTable(t: Table, event: int, count: nat, who: Session, now: Time, duration: int, skip: set<int>)
    ensures var (t', o) := AnyNSpec(t, event, count, who, now, duration, skip);
      t' ==
        if o.AnyAcquired? then HeldTable(t, First(Available(t, event, now, skip), count), who, now + duration) else t
  {
  }

  lemma SameAnyOutcome(t: Table, u: Table, event: int, count: nat, who: Session, now: Time, duration: int,
      skip: set<int>)
    requires SameView(t, u, now) && AllCoherent(t) && AllCoherent(u)
    ensures AnyNSpec(t, event, count, who, now, duration, skip).1 ==
      AnyNSpec(u, event, count, who, now, duration, skip).1
  {
    SameAvailable(t, u, event, now, skip);
  }

  lemma ChosenAvailable(t: Table, event: int, count: nat, now: Time, skip: set<int>)
    ensures forall i :: i in First(Available(t, event, now, skip), count) ==> i in t && Reclaimable(t[i], now)
  {
    var available := Available(t, event, now, skip);
    assert First(available, count) <= available;
  }

  lemma SameAny(t: Table, u: Table, event: int, count: nat, who: Session, now: Time, duration: int, skip: set<int>)
    requires SameView(t, u, now) && AllCoherent(t) && AllCoherent(u)
    ensures SameView(AnyNSpec(t, event, count, who, now, duration, skip).0,
      AnyNSpec(u, event, count, who, now, duration, skip).0, now)
  {
    SameAvailable(t, u, event, now, skip);
    SameAnyOutcome(t, u, event, count, who, now, duration, skip);
    AnyTable(t, event, count, who, now, duration, skip);
    AnyTable(u, event, count, who, now, duration, skip);
    ChosenAvailable(t, event, count, now, skip);
    SameHeld(t, u, First(Available(t, event, now, skip), count), who, now, now + duration);
  }

  lemma SameAvailable(t: Table, u: Table, event: int, now: Time, skip: set<int>)
    requires SameView(t, u, now) && AllCoherent(t) && AllCoherent(u)
    ensures Available(t, event, now, skip) == Available(u, event, now, skip)
  {
    forall i | i in t ensures i in Available(t, event, now, skip) <==> i in Available(u, event, now, skip) {
      ViewDecides(t[i], u[i], now);
    }
    assert forall i :: i in Available(t, event, now, skip) <==> i in Available(u, event, now, skip);
  }

  lemma SameExtend(t: Table, u: Table, seat: int, who: Session, now: Time, until: Time)
    requires SameView(t, u, now) && AllCoherent(t) && AllCoherent(u)
    ensures ExtendSpec(t, seat, who, now, until).1 == ExtendSpec(u, seat, who, now, until).1
    ensures SameView(ExtendSpec(t, seat, who, now, until).0, ExtendSpec(u, seat, who, now, until).0, now)
  {
    if seat in t { ViewDecides(t[seat], u[seat], now); }
  }

  lemma {:induction false} SameNotHeldLive(t: Table, u: Table, ids: seq<int>, who: Session, now: Time)
    requires SameView(t, u, now) && AllCoherent(t) && AllCoherent(u)
    ensures NotHeldLive(t, ids, who, now) == NotHeldLive(u, ids, who, now)
  {
    if ids != [] {
      var i := ids[0];
      assert i in t <==> i in u;
      SameNotHeldLive(t, u, ids[1..], who, now);
      if i in t { ViewDecides(t[i], u[i], now); }
    }
  }

  lemma SameLive(t: Table, u: Table, ids: seq<int>, who: Session, now: Time)
    requires SameView(t, u, now) && AllCoherent(t) && AllCoherent(u)
    ensures LiveSeats(t, ids, who, now) == LiveSeats(u, ids, who, now)
    ensures PresentSeats(t, ids) == PresentSeats(u, ids)
  {
    forall i | i in t ensures HeldLive(t[i], who, now) <==> HeldLive(u[i], who, now) {
      ViewDecides(t[i], u[i], now);
    }
    assert forall i :: i in LiveSeats(t, ids, who, now) <==> i in LiveSeats(u, ids, who, now);
    assert forall i :: i in PresentSeats(t, ids) <==> i in PresentSeats(u, ids);
  }

  lemma SameWrite(a: Db, b: Db, bid: int, ids: seq<int>, who: Session, now: Time, key: Option<string>)
    requires Alike(a, b, now) && AllCoherent(a.seats) && AllCoherent(b.seats)
    ensures var x, y := ConfirmWriteSpec(a, bid, ids, who, now, key), ConfirmWriteSpec(b, bid, ids, who, now, key);
      && (x.Wrote? <==> y.Wrote?) && (x.Lost? <==> y.Lost?)
      && (x.Wrote? ==> Alike(x.db, y.db, now))
  {
    SameLive(a.seats, b.seats, ids, who, now);
    assert ActiveSeats(a) == ActiveSeats(b);
    var x, y := ConfirmWriteSpec(a, bid, ids, who, now, key), ConfirmWriteSpec(b, bid, ids, who, now, key);
    if x.Wrote? {
      forall i | i in x.db.seats ensures View(x.db.seats[i], now) == View(y.db.seats[i], now) {
        ViewDecides(a.seats[i], b.seats[i], now);
      }
    }
  }

  lemma SameConfirm(a: Db, b: Db, bid: int, who: Session, now: Time, key: string)
    requires Alike(a, b, now) && AllCoherent(a.seats) && AllCoherent(b.seats)
    ensures ConfirmSpec(a, bid, who, now, key).1 == ConfirmSpec(b, bid, who, now, key).1
    ensures Alike(ConfirmSpec(a, bid, who, now, key).0, ConfirmSpec(b, bid, who, now, key).0, now)
  {
    if bid in a.bookings {
      var ids := a.bookings[bid].seatIds;
      SameLive(a.seats, b.seats, ids, who, now);
      SameWrite(a, b, bid, ids, who, now, Some(key));
      forall i | i in PresentSeats(a.seats, ids)
        ensures Confirm(a.seats[i], who, bid, now).Err? <==> Confirm(b.seats[i], who, bid, now).Err?
      {
        ViewDecides(a.seats[i], b.seats[i], now);
        ConfirmUpdateAgrees(a.seats[i], who, bid, now);
        ConfirmUpdateAgrees(b.seats[i], who, bid, now);
      }
    }
  }

  lemma SameRefund(a: Db, b: Db, bid: int, now: Time)
    requires Alike(a, b, now) && AllCoherent(a.seats) && AllCoherent(b.seats)
    ensures var x, y := RefundedSpec(a, bid), RefundedSpec(b, bid);
      x.verdict == y.verdict && x.touched == y.touched && x.lost == y.lost && Alike(x.db, y.db, now)
  {
    var x, y := RefundedSpec(a, bid), RefundedSpec(b, bid);
    forall i | i in x.db.seats ensures View(x.db.seats[i], now) == View(y.db.seats[i], now) {
      ViewDecides(a.seats[i], b.seats[i], now);
    }
  }

  lemma SameSucceeded(a: Db, b: Db, bid: int, now: Time)
    requires AllCoherent(a.seats) && AllCoherent(b.seats) && Alike(a, b, now)
    ensures var g, h := SucceededSpec(a, bid, now), SucceededSpec(b, bid, now);
      g.verdict == h.verdict && g.touched == h.touched && g.lost == h.lost && Alike(g.db, h.db, now)
  {
    if bid in a.bookings {
      SameLive(a.seats, b.seats, a.bookings[bid].seatIds, a.bookings[bid].sessionId, now);
      SameWrite(a, b, bid, a.bookings[bid].seatIds, a.bookings[bid].sessionId, now, None);
    }
  }

  /** Any request other than a sweep treats the two databases alike. */
  lemma SameAttempt(a: Db, b: Db, cmd: Cmd)
    requires Inv(a) && Inv(b) && Alike(a, b, cmd.now) && !cmd.SweepPass?
    ensures Attempt(a, cmd).1 == Attempt(b, cmd).1
    ensures Alike(Attempt(a, cmd).0, Attempt(b, cmd).0, cmd.now)
  {
    match cmd
    case Acquire(ids, who, now, duration, versioned) =>
      SameAcquireOutcome(a.seats, b.seats, ids, who, now, duration, versioned);
      SameAcquire(a.seats, b.seats, ids, who, now, duration, versioned);
    case AcquireAny(event, count, who, now, duration, skip) =>
      SameAnyOutcome(a.seats, b.seats, event, count, who, now, duration, skip);
      SameAny(a.seats, b.seats, event, count, who, now, duration, skip);
    case Extend(seat, who, now, until) => SameExtend(a.seats, b.seats, seat, who, now, until);
    case Create(bid, userId, who, ids, key, now) => SameNotHeldLive(a.seats, b.seats, ids, who, now);
    case ConfirmBookingCmd(bid, who, now, key) => SameConfirm(a, b, bid, who, now, key);
    case PaymentSucceeded(bid, now) => SameSucceeded(a, b, bid, now);
    case PaymentRefunded(bid, now) => SameRefund(a, b, bid, now);
  }

  // ---------------------------------------------------------------- the theorem

  /** Final tables, and the outcomes of everything but the sweeps, in order. */
  function RunAll(db: Db, cmds: seq<Cmd>): (Db, seq<Outcome>)
    decreases |cmds|
  {
    if cmds == [] then (db, [])
    else
      var (db', o) := Attempt(db, cmds[0]);
      var (end, os) := RunAll(db', cmds[1..]);
      (end, if cmds[0].SweepPass? then os else [o] + os)
  }

  function WithoutSweeps(cmds: seq<Cmd>): seq<Cmd> {
    if cmds == [] then []
    else (if cmds[0].SweepPass? then [] else [cmds[0]]) + WithoutSweeps(cmds[1..])
  }

  ghost predicate ClockForward(cmds: seq<Cmd>, from: Time) {
    && (forall k :: 0 <= k < |cmds| ==> from <= cmds[k].now)
    && (forall j, k :: 0 <= j < k < |cmds| ==> cmds[j].now <= cmds[k].now)
  }

  function Last(cmds: seq<Cmd>, from: Time): Time {
    if cmds == [] then from else cmds[|cmds| - 1].now
  }

  lemma {:induction false} ErasureFrom(a: Db, b: Db, cmds: seq<Cmd>, from: Time)
    requires Inv(a) && Inv(b) && Alike(a, b, from) && ClockForward(cmds, from)
    ensures RunAll(a, cmds).1 == RunAll(b, WithoutSweeps(cmds)).1
    ensures Alike(RunAll(a, cmds).0, RunAll(b, WithoutSweeps(cmds)).0, Last(cmds, from))
    decreases |cmds|
  {
    if cmds != [] {
      var cmd, rest := cmds[0], cmds[1..];
      ViewLater(a.seats, b.seats, from, cmd.now);
      AttemptKeepsInv(a, cmd);
      assert ClockForward(rest, cmd.now);
      if cmd.SweepPass? {
        SweepInvisible(a.seats, b.seats, cmd.batch, cmd.now, cmd.skip);
        ErasureFrom(Attempt(a, cmd).0, b, rest, cmd.now);
        assert WithoutSweeps(cmds) == WithoutSweeps(rest);
      } else {
        AttemptKeepsInv(b, cmd);
        SameAttempt(a, b, cmd);
        ErasureFrom(Attempt(a, cmd).0, Attempt(b, cmd).0, rest, cmd.now);
        assert WithoutSweeps(cmds)[0] == cmd && WithoutSweeps(cmds)[1..] == WithoutSweeps(rest);
      }
    }
  }

  lemma {:induction false} SweepsGone(db: Db, cmds: seq<Cmd>)
    ensures forall c :: c in WithoutSweeps(cmds) <==> c in cmds && !c.SweepPass?
    ensures |RunAll(db, cmds).1| == |WithoutSweeps(cmds)|
    decreases |cmds|
  {
    if cmds != [] {
      SweepsGone(Attempt(db, cmds[0]).0, cmds[1..]);
      assert forall c :: c in cmds <==> c == cmds[0] || c in cmds[1..];
    }
  }

  /** Sweep erasure: along any sequence of requests whose clocks do not run backwards, deleting every
      sweeper pass leaves each other request with the same outcome and the same seats, and the final tables
      equal up to version numbers and overdue holds not yet swept. */
  lemma SweepErased(db: Db, cmds: seq<Cmd>, from: Time)
    requires Inv(db) && ClockForward(cmds, from)
    ensures RunAll(db, cmds).1 == RunAll(db, WithoutSweeps(cmds)).1
    ensures Alike(RunAll(db, cmds).0, RunAll(db, WithoutSweeps(cmds)).0, Last(cmds, from))
    ensures |RunAll(db, cmds).1| == |WithoutSweeps(cmds)|
    ensures forall c :: c in WithoutSweeps(cmds) <==> c in cmds && !c.SweepPass?
  {
    ErasureFrom(db, db, cmds, from);
    SweepsGone(db, cmds);
  }
}
