/** Every interleaving of the transactions, statement by statement and row lock by row lock, commits exactly
    what running the successful ones one after the other would: the tables are always the replay of the
    commit log through the domain functions, each operation legal where it stands. */
module Refinement {
  import opened SeatMachine
  import opened Collections
  import opened Ledger
  import opened History
  import opened Interleaving

  // ---------------------------------------------------------------- the invariant of the step system

  /** The rows were committed rows at some earlier moment: a row whose version has not moved since is
      still that very row. */
  ghost predicate Past(rows: Table, t: Table) {
    forall i :: i in rows ==>
      i in t && rows[i].version <= t[i].version && (rows[i].version == t[i].version ==> rows[i] == t[i])
  }

  /** What the domain functions make of a row on behalf of a request. */
  function Effect(r: Request, row: Seat): Result<Seat> {
    match r
    case Sweep(_, now) => Expire(row, now)
    case Extension(_, who, now, until) =>
      if HeldLive(row, who, now) then Ok(ExtendRow(row, until)) else Err(HoldExpired)
    case Confirmation(bid, _, _, who, now, _) => Confirm(row, who, bid, now)
    case Refund(bid, _, _, _) => if BookedFor(row, bid) then Release(row) else Err(IllegalTransition)
    case _ => Hold(row, r.who, r.now, r.duration)
  }

  /** The rows a request is entitled to write: all it asked for, never fewer. */
  ghost predicate Covers(r: Request, ids: set<int>) {
    match r
    case Optimistic(list, _, _, _, _) => ids == Elems(list) && NoDup(list)
    case Pessimistic(list, _, _, _) => ids == Elems(list)
    case AnyN(_, count, _, _, _) => |ids| == count
    case Extension(seat, _, _, _) => ids == {seat}
    case Confirmation(_, _, list, _, _, _) => ids == Elems(list) && NoDup(list)
    case Refund(_, _, list, _) => ids == Elems(list)
    case _ => true
  }

  ghost predicate LocksFresh(t: Table, cl: Client) {
    forall i :: i in cl.locked ==> i in t && t[i] == cl.locked[i]
  }

  ghost predicate Idle(cl: Client) {
    cl.locked == map[] && cl.writes == map[]
  }

  /** Each row written is what the domain function returns for the row locked. */
  ghost predicate EffectsRight(cl: Client) {
    cl.writes.Keys <= cl.locked.Keys && forall i :: i in cl.writes ==> Effect(cl.req, cl.locked[i]) == Ok(cl.writes[i])
  }

  predicate HasStatus(db: Db, bid: int, status: BookingStatus) {
    bid in db.bookings && db.bookings[bid].status == status
  }

  ghost predicate UpdatingOk(db: Db, cl: Client, rows: Table, todo: set<int>) {
    && Updates(cl.req) && cl.writes.Keys == cl.locked.Keys && cl.locked.Keys !! todo
    && (forall i :: i in todo ==> i in db.seats && Listed(cl.req, i))
    && EffectsRight(cl)
    && (forall i :: i in cl.locked ==> Matches(cl.req, rows, i, cl.locked[i]))
    && (cl.req.Optimistic? ==>
         Past(rows, db.seats) && AllHoldable(rows, Elems(cl.req.ids), cl.req.who, cl.req.now, cl.req.duration))
    && (cl.req.Refund? ==>
         HasStatus(db, cl.req.bid, CONFIRMED) && forall i :: i in cl.req.ids ==> i in cl.locked || i in todo)
  }

  ghost predicate LockingOk(t: Table, cl: Client) {
    && cl.writes == map[] && (cl.req.Pessimistic? || cl.req.AnyN?)
    && (cl.req.AnyN? ==> |cl.locked.Keys| == cl.req.count)
    && (cl.req.Pessimistic? ==> cl.locked.Keys <= Elems(cl.req.ids))
    && (cl.req.Pessimistic? ==> forall i, j :: i in cl.locked && j in cl.req.ids && j in t && j !in cl.locked ==> i < j)
  }

  ghost predicate CheckedOk(cl: Client) {
    && cl.writes == map[] && (cl.req.Pessimistic? || cl.req.AnyN? || cl.req.Sweep?)
    && Covers(cl.req, cl.locked.Keys)
    && (!cl.req.Sweep? ==> AllHoldable(cl.locked, cl.locked.Keys, cl.req.who, cl.req.now, cl.req.duration))
  }

  ghost predicate SeatedOk(cl: Client) {
    cl.req.Confirmation? && cl.writes.Keys == cl.locked.Keys && EffectsRight(cl) && Covers(cl.req, cl.writes.Keys)
  }

  ghost predicate WrittenOk(db: Db, cl: Client, full: bool) {
    && EffectsRight(cl) && (full ==> Covers(cl.req, cl.writes.Keys)) && (cl.req.Optimistic? || full) && !cl.req.Naive?
    && (cl.req.Confirmation? ==>
         && SeatedOk(cl) && LinksInsertable(db, cl.req.bid, cl.req.ids)
         && HasStatus(db, cl.req.bid, PENDING) && KeyFree(db, cl.req.bid, cl.req.user, cl.req.key))
    && (cl.req.Refund? ==> HasStatus(db, cl.req.bid, CONFIRMED))
  }

  ghost predicate PhaseOk(db: Db, cl: Client) {
    match cl.phase
    case Start => Idle(cl)
    case Read(rows) => cl.req.Optimistic? && Idle(cl) && Past(rows, db.seats)
    case Validated(rows) =>
      && Idle(cl) && Past(rows, db.seats)
      && cl.req.Optimistic? && AllHoldable(rows, Elems(cl.req.ids), cl.req.who, cl.req.now, cl.req.duration)
    case Updating(rows, todo) => UpdatingOk(db, cl, rows, todo)
    case Locking => LockingOk(db.seats, cl)
    case Checked => CheckedOk(cl)
    case Marked => cl.req.Refund? && Idle(cl) && HasStatus(db, cl.req.bid, CONFIRMED)
    case Seated => SeatedOk(cl)
    case Linked => SeatedOk(cl) && LinksInsertable(db, cl.req.bid, cl.req.ids)
    case Written(full) => WrittenOk(db, cl, full)
    case Done(_) => Idle(cl)
  }

  ghost predicate ClientOk(db: Db, cl: Client) {
    !cl.req.Naive? && Loaded(db, cl.req) && LocksFresh(db.seats, cl) && PhaseOk(db, cl)
  }

  /** No two open transactions hold the same lock. */
  predicate Apart(a: Client, b: Client) {
    && a.locked.Keys !! b.locked.Keys
    && (BookingLock(a).Some? ==> BookingLock(a) != BookingLock(b))
    && (KeyClaim(a).Some? ==> KeyClaim(a) != KeyClaim(b))
  }

  ghost predicate LocksDisjoint(w: World) {
    forall c, d :: c in w.clients && d in w.clients && c != d ==> Apart(w.clients[c], w.clients[d])
  }

  /** The log entries of one client, in order. */
  function Entries(log: Trace, c: int): Trace {
    if log == [] then []
    else
      var rest, e := Entries(log[..|log| - 1], c), log[|log| - 1];
      if e.client == Some(c) then rest + [e] else rest
  }

  /** What a successful request must have in the log. */
  ghost predicate Granted(r: Request, op: Op) {
    match r
    case Sweep(_, now) => op.ExpireOp? && op.now == now
    case Extension(seat, who, now, until) => op == ExtendOp(seat, who, now, until)
    case Confirmation(bid, _, _, who, now, key) => op == ConfirmOp(bid, who, now, key)
    case Refund(bid, _, _, now) => op == RefundOp(bid, now)
    case _ => op.HoldOp? && op.who == r.who && op.now == r.now && op.duration == r.duration && Covers(r, op.ids)
  }

  ghost predicate LogOk(w: World, c: int) {
    var es := Entries(w.log, c);
    if c in w.clients && w.clients[c].phase == Done(true) then |es| == 1 && Granted(w.clients[c].req, es[0].op)
    else es == []
  }

  ghost predicate ClientsOk(w: World) {
    forall c :: c in w.clients ==> ClientOk(w.db, w.clients[c]) && w.clients[c].req.now <= w.clock
  }

  ghost predicate HistoryOk(w: World, db0: Db) {
    Inv(w.db) && ValidTrace(db0, w.log) && Replay(db0, w.log) == w.db
  }

  ghost predicate LogsOk(w: World) {
    forall c :: LogOk(w, c)
  }

  ghost predicate WInv(w: World, db0: Db) {
    HistoryOk(w, db0) && LocksDisjoint(w) && ClientsOk(w) && LogsOk(w)
  }

  lemma EntriesSnoc(log: Trace, e: Entry, c: int)
    ensures Entries(log + [e], c) == if e.client == Some(c) then Entries(log, c) + [e] else Entries(log, c)
  {
    assert (log + [e])[..|log|] == log;
  }

  // ---------------------------------------------------------------- what a commit does to the others

  ghost predicate Advances(t: Table, t': Table) {
    && (forall i :: i in t <==> i in t')
    && (forall i :: i in t ==> t'[i] == t[i] || t'[i].version == t[i].version + 1)
  }

  lemma OpFrame(db: Db, op: Op)
    requires Legal(db, op)
    ensures forall i :: i in db.seats && i !in OpSeats(db, op) ==>
      i in Apply(db, op).seats && Apply(db, op).seats[i] == db.seats[i]
    ensures forall b :: b in db.bookings ==>
      b in Apply(db, op).bookings && Apply(db, op).bookings[b].seatIds == db.bookings[b].seatIds
    ensures forall b :: b in db.bookings ==> Apply(db, op).bookings[b].userId == db.bookings[b].userId
    ensures forall b :: b in db.bookings && OpBooking(op) != Some(b) ==> Apply(db, op).bookings[b] == db.bookings[b]
  {
  }

  /** An operation on other seats leaves the booking_seats slots of these seats free. */
  lemma LinksStayFree(db: Db, op: Op, bid: int, ids: seq<int>)
    requires Legal(db, op) && LinksInsertable(db, bid, ids) && Elems(ids) !! OpSeats(db, op)
    ensures LinksInsertable(Apply(db, op), bid, ids)
  {
    var db' := Apply(db, op);
    forall i | i in ids ensures i !in ActiveSeats(db') && Link(bid, i) !in db'.links {
      assert i in Elems(ids);
      if op.ConfirmOp? {
        forall l | l in db'.links && l !in db.links ensures l.seat != i {
          assert l.seat in OpSeats(db, op);
        }
      }
    }
  }

  lemma KeyStaysFree(db: Db, op: Op, bid: int, user: int, key: Option<string>)
    requires Legal(db, op) && KeyFree(db, bid, user, key) && bid in db.bookings
    requires key.Some? ==> OpKey(db, op) != Some(Claim(user, key.value))
    ensures KeyFree(Apply(db, op), bid, user, key)
  {
    OpFrame(db, op);
    var db' := Apply(db, op);
    if key.Some? {
      forall b | b in db'.bookings && b != bid ensures !(db'.bookings[b].userId == user && db'.bookings[b].key == key) {
        if b in db.bookings && db'.bookings[b].key == db.bookings[b].key {
          assert !(db.bookings[b].userId == user && db.bookings[b].key == key);
        }
      }
    }
  }

  /** Everything about a client but its place in the booking tables depends on its own locked rows, and on
      rows elsewhere only through their versions. */
  lemma SeatsUndisturbed(db: Db, db': Db, cl: Client)
    requires ClientOk(db, cl) && Advances(db.seats, db'.seats) && Loaded(db', cl.req)
    requires forall i :: i in cl.locked ==> db'.seats[i] == db.seats[i]
    requires cl.phase.Linked? || cl.phase.Written? ==>
      cl.req.Confirmation? ==> LinksInsertable(db', cl.req.bid, cl.req.ids)
    requires BookingLock(cl).Some? ==>
      cl.req.bid in db.bookings && cl.req.bid in db'.bookings && db'.bookings[cl.req.bid] == db.bookings[cl.req.bid]
    requires cl.phase.Written? && cl.req.Confirmation? ==> KeyFree(db', cl.req.bid, cl.req.user, cl.req.key)
    ensures ClientOk(db', cl)
  {
  }

  /** An open transaction is not disturbed by whatever compatible operation commits meanwhile. */
  lemma Undisturbed(db: Db, op: Op, cl: Client)
    requires Legal(db, op) && ClientOk(db, cl) && Compatible(db, op, cl)
    ensures ClientOk(Apply(db, op), cl)
  {
    OpFrame(db, op);
    OpVersions(db, op);
    if cl.req.Confirmation? && (cl.phase.Linked? || cl.phase.Written?) {
      LinksStayFree(db, op, cl.req.bid, cl.req.ids);
      if cl.phase.Written? { KeyStaysFree(db, op, cl.req.bid, cl.req.user, cl.req.key); }
    }
    SeatsUndisturbed(db, Apply(db, op), cl);
  }

  // ---------------------------------------------------------------- one lemma per kind of statement

  /** Steps that change one client and nothing else. */
  predicate Local(a: Action) {
    !a.Tick? && !a.Begin? && !a.Commit? && !a.Other? && !a.NaiveWrite?
  }

  /** A row that the versioned UPDATE matches is the very row that hold() accepted. */
  lemma MatchedRowWasValidated(db: Db, cl: Client, i: int)
    requires ClientOk(db, cl) && AllCoherent(db.seats) && i in db.seats && cl.phase.Updating? && cl.req.Optimistic?
    requires Matches(cl.req, cl.phase.rows, i, db.seats[i])
    ensures db.seats[i] == cl.phase.rows[i]
    ensures Hold(db.seats[i], cl.req.who, cl.req.now, cl.req.duration) == Ok(Rewrite(cl.req, db.seats[i]))
  {
    assert i in Elems(cl.req.ids);
    HoldUpdateAgrees(db.seats[i], cl.req.who, cl.req.now, cl.req.duration);
  }

  /** Every conditional UPDATE writes what the domain function returns for the rows it matches. */
  lemma RewriteIsEffect(db: Db, cl: Client, i: int)
    requires ClientOk(db, cl) && AllCoherent(db.seats) && i in db.seats && cl.phase.Updating?
    requires Matches(cl.req, cl.phase.rows, i, db.seats[i])
    ensures Effect(cl.req, db.seats[i]) == Ok(Rewrite(cl.req, db.seats[i]))
  {
    var row := db.seats[i];
    match cl.req
    case Optimistic(_, _, _, _, _) => MatchedRowWasValidated(db, cl, i);
    case Confirmation(bid, _, _, who, now, _) => ConfirmUpdateAgrees(row, who, bid, now);
    case Refund(bid, _, _, _) => RefundUpdateAgrees(row, bid);
    case Extension(_, _, _, _) =>
  }

  lemma UpdateRowOk(w: World, c: int, i: int)
    requires Inv(w.db) && Enabled(w, UpdateRow(c, i)) && ClientOk(w.db, w.clients[c])
    ensures ClientOk(w.db, NextClient(w, UpdateRow(c, i), w.clients[c]))
  {
    var cl, row := w.clients[c], w.db.seats[i];
    if Matches(cl.req, cl.phase.rows, i, row) { RewriteIsEffect(w.db, cl, i); }
    UpdatedRowOk(w.db, cl, i);
  }

  lemma UpdatedRowOk(db: Db, cl: Client, i: int)
    requires ClientOk(db, cl) && cl.phase.Updating? && i in cl.phase.todo && i in db.seats
    requires Matches(cl.req, cl.phase.rows, i, db.seats[i]) ==>
      Effect(cl.req, db.seats[i]) == Ok(Rewrite(cl.req, db.seats[i]))
    requires cl.req.Refund? && i in cl.req.ids ==> BookedFor(db.seats[i], cl.req.bid)
    ensures ClientOk(db, RowDone(cl, i, db.seats[i]))
  {
  }

  lemma BeginUpdateOk(w: World, c: int)
    requires Inv(w.db) && Enabled(w, BeginUpdate(c)) && ClientOk(w.db, w.clients[c])
    ensures ClientOk(w.db, NextClient(w, BeginUpdate(c), w.clients[c]))
  {
    var db, cl := w.db, w.clients[c];
    if cl.req.Refund? {
      forall i | i in cl.req.ids ensures i in Hits(db.seats, cl.req, map[]) {
        assert db.seats[i].bookingId == Some(cl.req.bid) && Coherent(db.seats[i]);
      }
    }
  }

  /** The row count of the UPDATE tells whether every seat was written. */
  lemma CountTells(cl: Client, ids: seq<int>)
    requires forall i :: i in cl.writes.Keys ==> i in ids
    ensures |cl.writes.Keys| == |ids| ==> cl.writes.Keys == Elems(ids) && NoDup(ids)
  {
    assert forall i :: i in cl.writes.Keys ==> i in Elems(ids);
    RowCount(ids, cl.writes.Keys);
  }

  lemma CountedOk(db: Db, cl: Client)
    requires ClientOk(db, cl) && cl.phase.Updating? && cl.phase.todo == {}
    requires forall i :: i in cl.writes.Keys ==> Listed(cl.req, i)
    requires cl.req.Optimistic? || cl.req.Confirmation? ==>
      |cl.writes.Keys| == |cl.req.ids| ==> Covers(cl.req, cl.writes.Keys)
    requires cl.req.Refund? || cl.req.Extension? ==> cl.writes.Keys == {} || Covers(cl.req, cl.writes.Keys)
    requires cl.req.Refund? ==> Covers(cl.req, cl.writes.Keys)
    ensures ClientOk(db, Counted(cl))
  {
  }

  lemma EndUpdateOk(w: World, c: int)
    requires Enabled(w, EndUpdate(c)) && ClientOk(w.db, w.clients[c])
    ensures ClientOk(w.db, NextClient(w, EndUpdate(c), w.clients[c]))
  {
    var cl := w.clients[c];
    assert forall i :: i in cl.writes.Keys ==> Matches(cl.req, cl.phase.rows, i, cl.locked[i]);
    match cl.req {
      case Optimistic(ids, _, _, _, _) => CountTells(cl, ids);
      case Confirmation(_, _, ids, _, _, _) => CountTells(cl, ids);
      case Refund(_, _, ids, _) => assert forall i :: i in cl.writes.Keys <==> i in Elems(ids);
      case Extension(seat, _, _, _) => assert forall i :: i in cl.writes.Keys ==> i == seat;
    }
    CountedOk(w.db, cl);
  }

  lemma WriteOk(w: World, c: int)
    requires Inv(w.db) && Enabled(w, Write(c)) && ClientOk(w.db, w.clients[c])
    ensures ClientOk(w.db, NextClient(w, Write(c), w.clients[c]))
  {
    var t, cl := w.db.seats, w.clients[c];
    var cl', r := NextClient(w, Write(c), cl), cl.req;
    if !r.Sweep? {
      forall i | i in cl.locked ensures Effect(r, cl.locked[i]) == Ok(HoldRow(t[i], r.who, r.now + r.duration)) {
        HoldUpdateAgrees(t[i], r.who, r.now, r.duration);
      }
      assert forall i :: i in cl'.writes.Keys <==> i in cl.locked.Keys;
      assert cl'.writes.Keys == cl.locked.Keys;
    }
  }

  lemma LockOk(w: World, c: int, i: int)
    requires Enabled(w, LockRow(c, i)) && ClientOk(w.db, w.clients[c])
    ensures ClientOk(w.db, NextClient(w, LockRow(c, i), w.clients[c]))
  {
    var t, cl := w.db.seats, w.clients[c];
    var cl' := NextClient(w, LockRow(c, i), cl);
    forall j | j in cl.req.ids && j in t && j !in cl'.locked ensures i < j {
      assert j in ToLock(w, cl);
    }
  }

  lemma SkipLockedOk(w: World, c: int, chosen: set<int>)
    requires Enabled(w, SkipLocked(c, chosen)) && ClientOk(w.db, w.clients[c])
    ensures ClientOk(w.db, NextClient(w, SkipLocked(c, chosen), w.clients[c]))
    ensures forall i :: i in NextClient(w, SkipLocked(c, chosen), w.clients[c]).locked ==> i in chosen && Free(w, c, i)
  {
    assert Restrict(w.db.seats, chosen).Keys == chosen;
  }

  lemma CheckOk(w: World, c: int)
    requires Enabled(w, CheckLocked(c)) && ClientOk(w.db, w.clients[c])
    ensures ClientOk(w.db, NextClient(w, CheckLocked(c), w.clients[c]))
  {
    var cl := w.clients[c];
    if cl.req.Pessimistic? && AllHoldable(cl.locked, Elems(cl.req.ids), cl.req.who, cl.req.now, cl.req.duration) {
      assert forall i :: i in cl.locked.Keys <==> i in Elems(cl.req.ids);
    }
  }

  /** The statements with nothing to it. */
  lemma PlainOk(w: World, a: Action)
    requires Local(a) && Enabled(w, a) && ClientOk(w.db, w.clients[a.c])
    requires !UpdateStep(a) && !LockStep(a)
    ensures ClientOk(w.db, NextClient(w, a, w.clients[a.c]))
  {
  }

  predicate UpdateStep(a: Action) {
    a.BeginUpdate? || a.UpdateRow? || a.EndUpdate?
  }

  lemma UpdateStepOk(w: World, a: Action)
    requires Inv(w.db) && UpdateStep(a) && Enabled(w, a) && ClientOk(w.db, w.clients[a.c])
    ensures ClientOk(w.db, NextClient(w, a, w.clients[a.c]))
  {
    if a.BeginUpdate? { BeginUpdateOk(w, a.c); }
    else if a.UpdateRow? { UpdateRowOk(w, a.c, a.i); } else { EndUpdateOk(w, a.c); }
  }

  predicate LockStep(a: Action) {
    a.Write? || a.LockRow? || a.SkipLocked? || a.CheckLocked?
  }

  lemma LockStepOk(w: World, a: Action)
    requires Inv(w.db) && LockStep(a) && Enabled(w, a) && ClientOk(w.db, w.clients[a.c])
    ensures ClientOk(w.db, NextClient(w, a, w.clients[a.c]))
  {
    match a
    case Write(c) => WriteOk(w, c);
    case LockRow(c, i) => LockOk(w, c, i);
    case SkipLocked(c, chosen) => SkipLockedOk(w, c, chosen);
    case CheckLocked(c) => CheckOk(w, c);
  }

  /** A local step keeps its own client in order. */
  lemma LocalClientOk(w: World, a: Action)
    requires Inv(w.db) && Local(a) && Enabled(w, a) && ClientOk(w.db, w.clients[a.c])
    ensures ClientOk(w.db, NextClient(w, a, w.clients[a.c]))
  {
    if UpdateStep(a) { UpdateStepOk(w, a); } else if LockStep(a) { LockStepOk(w, a); } else { PlainOk(w, a); }
  }

  /** It takes no lock that somebody else holds, and never reports success by itself. */
  lemma LocalTakesFreeRows(w: World, a: Action)
    requires Local(a) && Enabled(w, a) && ClientOk(w.db, w.clients[a.c])
    ensures forall i :: i in NextClient(w, a, w.clients[a.c]).locked ==> i in w.clients[a.c].locked || Free(w, a.c, i)
    ensures NextClient(w, a, w.clients[a.c]).phase != Done(true)
    ensures NextClient(w, a, w.clients[a.c]).req == w.clients[a.c].req
  {
    if a.SkipLocked? { SkipLockedOk(w, a.c, a.chosen); }
  }

  lemma LocalTakesFreeBooking(w: World, a: Action)
    requires Local(a) && Enabled(w, a) && ClientOk(w.db, w.clients[a.c])
    ensures var cl, cl' := w.clients[a.c], NextClient(w, a, w.clients[a.c]);
      && (BookingLock(cl').Some? ==> BookingLock(cl') == BookingLock(cl) || BookingFree(w, a.c, BookingLock(cl').value))
      && (KeyClaim(cl').Some? ==>
           KeyClaim(cl') == KeyClaim(cl) ||
           forall d :: d in w.clients && d != a.c ==> KeyClaim(w.clients[d]) != KeyClaim(cl'))
  {
  }

  lemma LocalApart(w: World, a: Action, d: int)
    requires LocksDisjoint(w) && Local(a) && Enabled(w, a) && ClientOk(w.db, w.clients[a.c]) && d in w.clients
    requires d != a.c
    ensures Apart(Do(w, a).clients[a.c], w.clients[d]) && Apart(w.clients[d], Do(w, a).clients[a.c])
  {
    LocalTakesFreeRows(w, a);
    LocalTakesFreeBooking(w, a);
    var cl, cl', other := w.clients[a.c], NextClient(w, a, w.clients[a.c]), w.clients[d];
    assert Apart(cl, other) && Apart(other, cl);
    assert forall i :: i in cl'.locked.Keys ==> i !in other.locked.Keys;
  }

  lemma LocalLocksDisjoint(w: World, a: Action)
    requires LocksDisjoint(w) && Local(a) && Enabled(w, a) && ClientOk(w.db, w.clients[a.c])
    ensures LocksDisjoint(Do(w, a))
  {
    forall d | d in w.clients && d != a.c
      ensures Apart(Do(w, a).clients[a.c], w.clients[d]) && Apart(w.clients[d], Do(w, a).clients[a.c]) {
      LocalApart(w, a, d);
    }
  }

  lemma LocalLogsOk(w: World, a: Action)
    requires LogsOk(w) && Local(a) && Enabled(w, a) && NextClient(w, a, w.clients[a.c]).phase != Done(true)
    ensures LogsOk(Do(w, a))
  {
    forall c ensures LogOk(Do(w, a), c) {
      assert LogOk(w, c);
    }
  }

  lemma LocalKeepsWInv(w: World, a: Action, db0: Db)
    requires WInv(w, db0) && Local(a) && Enabled(w, a)
    ensures WInv(Do(w, a), db0)
  {
    LocalTakesFreeRows(w, a);
    LocalClientsOk(w, a);
    LocalLocksDisjoint(w, a);
    LocalLogsOk(w, a);
  }

  lemma LocalClientsOk(w: World, a: Action)
    requires Inv(w.db) && ClientsOk(w) && Local(a) && Enabled(w, a)
    requires NextClient(w, a, w.clients[a.c]).req == w.clients[a.c].req
    ensures ClientsOk(Do(w, a))
  {
    LocalClientOk(w, a);
  }

  lemma QuietLogsOk(w: World, a: Action)
    requires LogsOk(w) && Enabled(w, a) && (a.Tick? || a.Begin?)
    ensures LogsOk(Do(w, a))
  {
    forall c ensures LogOk(Do(w, a), c) { assert LogOk(w, c); }
  }

  lemma QuietLocksDisjoint(w: World, a: Action)
    requires LocksDisjoint(w) && Enabled(w, a) && (a.Tick? || a.Begin?)
    ensures LocksDisjoint(Do(w, a))
  {
    var w' := Do(w, a);
    forall c, d | c in w'.clients && d in w'.clients && c != d ensures Apart(w'.clients[c], w'.clients[d]) {
      if c in w.clients && d in w.clients { assert Apart(w.clients[c], w.clients[d]); }
    }
  }

  lemma QuietKeepsWInv(w: World, a: Action, db0: Db)
    requires WInv(w, db0) && Enabled(w, a) && Protocol(a) && (a.Tick? || a.Begin?)
    ensures WInv(Do(w, a), db0)
  {
    QuietLogsOk(w, a);
    QuietLocksDisjoint(w, a);
    QuietClientsOk(w, a);
  }

  lemma QuietClientsOk(w: World, a: Action)
    requires ClientsOk(w) && Enabled(w, a) && Protocol(a) && (a.Tick? || a.Begin?)
    ensures ClientsOk(Do(w, a))
  {
    var w' := Do(w, a);
    assert w'.db == w.db && w.clock <= w'.clock;
    forall c | c in w'.clients ensures ClientOk(w'.db, w'.clients[c]) && w'.clients[c].req.now <= w'.clock {
      assert c in w.clients ==> ClientOk(w.db, w.clients[c]);
    }
  }

  // ---------------------------------------------------------------- commits

  lemma HoldWrites(t: Table, writes: Table, who: Session, now: Time, duration: int)
    requires forall i :: i in writes ==> i in t && Hold(t[i], who, now, duration) == Ok(writes[i])
    ensures HoldSeats(t, writes.Keys, who, now, duration) == t + writes
  {
    var a := HoldSeats(t, writes.Keys, who, now, duration);
    assert forall i :: i in a <==> i in t + writes;
    assert forall i :: i in t ==> a[i] == (t + writes)[i];
    assert a == t + writes;
  }

  lemma ExpireWrites(t: Table, writes: Table, now: Time)
    requires forall i :: i in writes ==> i in t && Expire(t[i], now) == Ok(writes[i])
    ensures ExpireSeats(t, writes.Keys, now) == t + writes
  {
    var a := ExpireSeats(t, writes.Keys, now);
    assert forall i :: i in a <==> i in t + writes;
    assert forall i :: i in t ==> a[i] == (t + writes)[i];
    assert a == t + writes;
  }

  lemma ConfirmWrites(t: Table, writes: Table, ids: seq<int>, who: Session, bid: int, now: Time)
    requires writes.Keys == Elems(ids)
    requires forall i :: i in writes ==> i in t && Confirm(t[i], who, bid, now) == Ok(writes[i])
    ensures ConfirmSeats(t, ids, who, bid, now) == t + writes
  {
    var a := ConfirmSeats(t, ids, who, bid, now);
    assert forall i :: i in writes.Keys <==> i in ids;
    assert forall i :: i in a <==> i in t + writes;
    assert forall i :: i in t ==> a[i] == (t + writes)[i];
    assert a == t + writes;
  }

  lemma ReleaseWrites(t: Table, writes: Table, ids: seq<int>, bid: int)
    requires writes.Keys == Elems(ids)
    requires forall i :: i in writes ==> i in t && BookedFor(t[i], bid) && Release(t[i]) == Ok(writes[i])
    ensures ReleaseSeats(t, ids, bid) == t + writes
  {
    var a := ReleaseSeats(t, ids, bid);
    assert forall i :: i in writes.Keys <==> i in ids;
    assert forall i :: i in a <==> i in t + writes;
    assert forall i :: i in t ==> a[i] == (t + writes)[i];
    assert a == t + writes;
  }

  lemma ConfirmationIsApply(db: Db, cl: Client)
    requires ClientOk(db, cl) && cl.phase == Written(true) && cl.req.Confirmation?
    requires forall i :: i in cl.writes ==> i in db.seats && Effect(cl.req, db.seats[i]) == Ok(cl.writes[i])
    ensures Legal(db, TxOp(cl)) && CommitDb(db, cl) == Apply(db, TxOp(cl))
  {
    var r := cl.req;
    ElemsCard(r.ids);
    assert forall i :: i in r.ids ==> i in cl.writes.Keys;
    assert ConfirmableSeats(db, r.bid, r.who, r.now);
    ConfirmWrites(db.seats, cl.writes, r.ids, r.who, r.bid, r.now);
  }

  /** The statements of a transaction took effect at different moments. Published at its commit, its rows are
      one legal operation on the tables as they are then. */
  lemma WritesAreApply(db: Db, cl: Client)
    requires ClientOk(db, cl) && cl.phase == Written(true)
    ensures Legal(db, TxOp(cl)) && CommitDb(db, cl) == Apply(db, TxOp(cl))
  {
    var t, r := db.seats, cl.req;
    forall i | i in cl.writes ensures i in t && Effect(r, t[i]) == Ok(cl.writes[i]) {
      assert i in cl.locked;
    }
    if r.Sweep? {
      ExpireWrites(t, cl.writes, r.now);
    } else if r.Extension? {
      assert r.seat in cl.writes.Keys;
      assert t + cl.writes == t[r.seat := ExtendRow(t[r.seat], r.until)];
    } else if r.Confirmation? {
      ConfirmationIsApply(db, cl);
    } else if r.Refund? {
      ReleaseWrites(t, cl.writes, r.ids, r.bid);
    } else {
      HoldWrites(t, cl.writes, r.who, r.now, r.duration);
    }
  }

  /** What a commit needs to lock is what its transaction has locked. */
  lemma CommitCompatible(w: World, c: int, d: int)
    requires LocksDisjoint(w) && c in w.clients && ClientOk(w.db, w.clients[c]) && w.clients[c].phase == Written(true)
    requires d in w.clients && d != c
    ensures Compatible(w.db, TxOp(w.clients[c]), w.clients[d])
  {
    var cl, other := w.clients[c], w.clients[d];
    assert Apart(cl, other) && Apart(other, cl);
    assert OpSeats(w.db, TxOp(cl)) <= cl.locked.Keys;
    assert OpBooking(TxOp(cl)) == BookingLock(cl);
    assert OpKey(w.db, TxOp(cl)) == KeyClaim(cl);
  }

  lemma CommitClientOk(w: World, c: int, d: int)
    requires LocksDisjoint(w) && Inv(w.db) && Enabled(w, Commit(c)) && d in w.clients
    requires ClientOk(w.db, w.clients[c]) && ClientOk(w.db, w.clients[d])
    ensures Legal(w.db, TxOp(w.clients[c])) && Do(w, Commit(c)).db == Apply(w.db, TxOp(w.clients[c]))
    ensures ClientOk(Do(w, Commit(c)).db, Do(w, Commit(c)).clients[d])
  {
    var op := TxOp(w.clients[c]);
    WritesAreApply(w.db, w.clients[c]);
    if d != c {
      CommitCompatible(w, c, d);
      Undisturbed(w.db, op, w.clients[d]);
    } else {
      OpFrame(w.db, op);
    }
  }

  lemma CommitLogOk(w: World, c: int, d: int)
    requires Enabled(w, Commit(c)) && ClientOk(w.db, w.clients[c]) && LogOk(w, c) && LogOk(w, d)
    ensures LogOk(Do(w, Commit(c)), d)
  {
    EntriesSnoc(w.log, Entry(Some(c), TxOp(w.clients[c]), w.clock), d);
  }

  lemma CommitExtendsTrace(w: World, c: int, db0: Db)
    requires HistoryOk(w, db0) && Enabled(w, Commit(c)) && ClientOk(w.db, w.clients[c])
    requires w.clients[c].req.now <= w.clock
    ensures HistoryOk(Do(w, Commit(c)), db0)
  {
    var op := TxOp(w.clients[c]);
    WritesAreApply(w.db, w.clients[c]);
    ApplyKeepsInv(w.db, op);
    assert Now(op) <= w.clock;
    ValidSnoc(db0, w.log, Entry(Some(c), op, w.clock));
  }

  lemma CommitUnlocks(w: World, c: int)
    requires LocksDisjoint(w) && Enabled(w, Commit(c))
    ensures LocksDisjoint(Do(w, Commit(c)))
  {
    var w' := Do(w, Commit(c));
    forall d, e | d in w'.clients && e in w'.clients && d != e ensures Apart(w'.clients[d], w'.clients[e]) {
      assert Apart(w.clients[d], w.clients[e]);
    }
  }

  lemma CommitClientsOk(w: World, c: int)
    requires LocksDisjoint(w) && Inv(w.db) && ClientsOk(w) && Enabled(w, Commit(c))
    ensures ClientsOk(Do(w, Commit(c)))
  {
    forall d | d in w.clients ensures ClientOk(Do(w, Commit(c)).db, Do(w, Commit(c)).clients[d]) {
      CommitClientOk(w, c, d);
    }
  }

  lemma CommitKeepsWInv(w: World, c: int, db0: Db)
    requires WInv(w, db0) && Enabled(w, Commit(c))
    ensures WInv(Do(w, Commit(c)), db0)
  {
    CommitExtendsTrace(w, c, db0);
    CommitUnlocks(w, c);
    CommitClientsOk(w, c);
    forall d ensures LogOk(Do(w, Commit(c)), d) {
      assert LogOk(w, c) && LogOk(w, d);
      CommitLogOk(w, c, d);
    }
  }

  lemma OtherKeepsWInv(w: World, op: Op, db0: Db)
    requires WInv(w, db0) && Enabled(w, Other(op))
    ensures WInv(Do(w, Other(op)), db0)
  {
    var w' := Do(w, Other(op));
    ApplyKeepsInv(w.db, op);
    ValidSnoc(db0, w.log, Entry(None, op, w.clock));
    forall d | d in w'.clients ensures ClientOk(w'.db, w'.clients[d]) {
      Undisturbed(w.db, op, w.clients[d]);
    }
    forall d ensures LogOk(w', d) {
      assert LogOk(w, d);
      EntriesSnoc(w.log, Entry(None, op, w.clock), d);
    }
  }

  /** Every statement of every transaction keeps the invariant. */
  lemma StepKeepsWInv(w: World, a: Action, db0: Db)
    requires WInv(w, db0) && Enabled(w, a) && Protocol(a)
    ensures WInv(Do(w, a), db0)
  {
    if Local(a) {
      LocalKeepsWInv(w, a, db0);
    } else if a.Commit? {
      CommitKeepsWInv(w, a.c, db0);
    } else if a.Other? {
      OtherKeepsWInv(w, a.op, db0);
    } else {
      QuietKeepsWInv(w, a, db0);
    }
  }

  // ---------------------------------------------------------------- runs

  lemma {:induction false} Reachable(w: World, run: seq<Action>)
    requires Initial(w) && Runs(w, run) && Safe(run)
    ensures WInv(Exec(w, run), w.db)
  {
    if run == [] {
      assert forall c :: LogOk(w, c);
    } else {
      var n := |run| - 1;
      RunsPrefix(w, run, n);
      assert Safe(run[..n]);
      Reachable(w, run[..n]);
      StepKeepsWInv(Exec(w, run[..n]), run[n], w.db);
    }
  }

  /** The tables after any interleaving are those of its commit log, replayed atomically through the domain
      functions: every operation is legal where it stands, and none carries a `now` ahead of the clock. */
  lemma RunIsReplayOfItsLog(w: World, run: seq<Action>)
    requires Initial(w) && Runs(w, run) && Safe(run)
    ensures ValidTrace(w.db, Exec(w, run).log)
    ensures Exec(w, run).db == Replay(w.db, Exec(w, run).log)
    ensures Inv(Exec(w, run).db)
  {
    Reachable(w, run);
  }

  /** All or nothing: a transaction that reported success committed exactly once, with its whole effect: every
      seat it asked for, or exactly N seats, or its booking with all its seats. One that failed at whichever
      statement, or has not finished, committed nothing. */
  lemma AllOrNothing(w: World, run: seq<Action>, c: int)
    requires Initial(w) && Runs(w, run) && Safe(run) && c in Exec(w, run).clients
    ensures var w' := Exec(w, run);
      if w'.clients[c].phase == Done(true)
      then |Entries(w'.log, c)| == 1 && Granted(w'.clients[c].req, Entries(w'.log, c)[0].op)
      else Entries(w'.log, c) == []
  {
    Reachable(w, run);
    assert LogOk(Exec(w, run), c);
  }

  /** Exclusivity at every moment of every interleaving: a booking is CONFIRMED exactly when all its seats are
      BOOKED in its name; its list then has no duplicates and shares no seat with another confirmed booking;
      a booking in any other status owns no seat. */
  lemma ExclusivityAlways(w: World, run: seq<Action>, b: int)
    requires Initial(w) && Runs(w, run) && Safe(run)
    ensures var db := Exec(w, run).db;
      b in db.bookings && db.bookings[b].seatIds != [] ==>
        && (db.bookings[b].status == CONFIRMED <==> OwnsAll(db, b))
        && (db.bookings[b].status == CONFIRMED ==> NoDup(db.bookings[b].seatIds))
        && (db.bookings[b].status != CONFIRMED ==> forall i :: i in db.seats ==> !BookedFor(db.seats[i], b))
        && (forall a ::
             a in db.bookings && a != b && db.bookings[a].status == CONFIRMED && db.bookings[b].status == CONFIRMED ==>
             Elems(db.bookings[a].seatIds) !! Elems(db.bookings[b].seatIds))
  {
    RunIsReplayOfItsLog(w, run);
    var db := Exec(w, run).db;
    if b in db.bookings && db.bookings[b].seatIds != [] {
      ConfirmedIffOwnsAll(db, b);
      forall a | a in db.bookings && a != b && db.bookings[a].status == CONFIRMED && db.bookings[b].status == CONFIRMED
        ensures Elems(db.bookings[a].seatIds) !! Elems(db.bookings[b].seatIds)
      {
        ConfirmedDisjoint(db, a, b);
        assert forall i :: i in Elems(db.bookings[a].seatIds) ==> i !in Elems(db.bookings[b].seatIds);
      }
    }
  }

  // ---------------------------------------------------------------- histories of runs

  lemma ExecNext(w: World, run: seq<Action>, k: nat)
    requires Runs(w, run) && k < |run|
    ensures Exec(w, run[..k + 1]) == Do(Exec(w, run[..k]), run[k])
  {
    assert run[..k + 1][..k] == run[..k];
  }

  lemma LogNext(w: World, run: seq<Action>, k: nat)
    requires k < |run|
    ensures Exec(w, run[..k]).log <= Exec(w, run[..k + 1]).log
  {
    assert run[..k + 1][..k] == run[..k];
    if Enabled(Exec(w, run[..k]), run[k]) { LogAndDb(Exec(w, run[..k]), run[k]); }
  }

  lemma {:induction false} LogGrows(w: World, run: seq<Action>, j: nat, k: nat)
    requires j <= k <= |run|
    ensures Exec(w, run[..j]).log <= Exec(w, run[..k]).log
  {
    if j < k {
      LogGrows(w, run, j, k - 1);
      LogNext(w, run, k - 1);
    }
  }

  lemma ReachablePrefix(w: World, run: seq<Action>, k: nat)
    requires Initial(w) && Runs(w, run) && Safe(run) && k <= |run|
    ensures WInv(Exec(w, run[..k]), w.db)
  {
    RunsPrefix(w, run, k);
    Reachable(w, run[..k]);
  }

  /** No ABA between any two moments of any run: a seat row seen with the same version is the same row. */
  lemma RunNoABA(w: World, run: seq<Action>, i: int, j: nat, k: nat)
    requires Initial(w) && Runs(w, run) && Safe(run) && i in w.db.seats && j <= k <= |run|
    ensures i in Exec(w, run[..j]).db.seats && i in Exec(w, run[..k]).db.seats
    ensures var a, b := Exec(w, run[..j]).db.seats[i], Exec(w, run[..k]).db.seats[i];
      a.version <= b.version && (a.version == b.version ==> a == b)
  {
    ReachablePrefix(w, run, j);
    ReachablePrefix(w, run, k);
    LogGrows(w, run, j, k);
    var early, late := Exec(w, run[..j]).log, Exec(w, run[..k]).log;
    assert late[..|early|] == early && late[..|late|] == late;
    NoABA(w.db, late, i, |early|, |late|);
  }

  /** The step commits the holder's own confirmation or extension. */
  predicate OwnCommit(w: World, a: Action, holder: Session) {
    a.Commit? && a.c in w.clients && OwnAct(TxOp(w.clients[a.c]), holder)
  }

  /** No theft in any run: whatever a step does to the row of a seat held by `holder`, it is the holder's
      own confirmation or extension, or the real clock has reached the expiry in that row. */
  lemma RunNoTheft(w: World, run: seq<Action>, k: nat, i: int, holder: Session)
    requires Initial(w) && Runs(w, run) && Safe(run) && k < |run|
    requires i in Exec(w, run[..k]).db.seats
    requires Exec(w, run[..k]).db.seats[i].status == HELD && Exec(w, run[..k]).db.seats[i].heldBy == Some(holder)
    ensures i in Exec(w, run[..k + 1]).db.seats
    ensures var before, after := Exec(w, run[..k]), Exec(w, run[..k + 1]);
      || after.db.seats[i] == before.db.seats[i]
      || OwnCommit(before, run[k], holder)
      || (before.db.seats[i].expiresAt.Some? && before.db.seats[i].expiresAt.value <= before.clock)
  {
    ReachablePrefix(w, run, k);
    ExecNext(w, run, k);
    StepNoTheft(w.db, Exec(w, run[..k]), run[k], i, holder);
  }

  lemma StepNoTheft(db0: Db, w: World, a: Action, i: int, holder: Session)
    requires WInv(w, db0) && Enabled(w, a) && Protocol(a)
    requires i in w.db.seats && w.db.seats[i].status == HELD && w.db.seats[i].heldBy == Some(holder)
    ensures i in Do(w, a).db.seats
    ensures
      || Do(w, a).db.seats[i] == w.db.seats[i]
      || OwnCommit(w, a, holder)
      || (w.db.seats[i].expiresAt.Some? && w.db.seats[i].expiresAt.value <= w.clock)
  {
    LogAndDb(w, a);
    if a.Commit? {
      CommitNoTheft(w, a.c, i, holder);
    } else if a.Other? {
      OpNoTheft(w.db, a.op, i, holder);
    }
  }

  lemma CommitNoTheft(w: World, c: int, i: int, holder: Session)
    requires AllCoherent(w.db.seats) && Enabled(w, Commit(c)) && ClientOk(w.db, w.clients[c])
    requires w.clients[c].req.now <= w.clock
    requires i in w.db.seats && w.db.seats[i].status == HELD && w.db.seats[i].heldBy == Some(holder)
    ensures i in Do(w, Commit(c)).db.seats
    ensures
      || Do(w, Commit(c)).db.seats[i] == w.db.seats[i]
      || OwnAct(TxOp(w.clients[c]), holder)
      || (w.db.seats[i].expiresAt.Some? && w.db.seats[i].expiresAt.value <= w.clock)
  {
    WritesAreApply(w.db, w.clients[c]);
    OpNoTheft(w.db, TxOp(w.clients[c]), i, holder);
    assert Now(TxOp(w.clients[c])) <= w.clock;
  }
}
