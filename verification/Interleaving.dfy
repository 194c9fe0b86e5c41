/** Any number of transactions acting at once on the committed tables, one SQL statement or one row lock
    at a time.

    - An optimistic acquire reads without locks, validates what it read, then issues one versioned
      UPDATE, then commits or rolls back and retries.
    - A pessimistic acquire of specific seats locks its rows one by one in ascending id order,
      validates the locked rows, issues an unguarded UPDATE, and commits.
    - A pessimistic acquire of any N seats, and a sweeper pass, lock what ORDER BY id LIMIT n
      FOR UPDATE SKIP LOCKED selects.
    - An extension is one conditional UPDATE of one row.
    - A confirmation updates its seats, inserts its booking_seats rows, updates the booking, and commits.
    - A refund updates the booking, then the seats, and commits.
    - The naive strategy reads without locks and writes without a guard.
    - Creating a booking and demanding a refund are single statements on one row.

    A multi-row UPDATE picks its rows when it starts, then locks them one at a time in no particular order,
    waits where a row is locked, and checks each row again when it gets the lock. Uncommitted writes are
    private to their transaction; locks last until commit or rollback. */
module Interleaving {
  import opened SeatMachine
  import opened Collections
  import opened Ledger
  import opened History

  // ---------------------------------------------------------------- state

  datatype Request =
    | Optimistic(ids: seq<int>, who: Session, now: Time, duration: int, maxAttempts: nat)
    | Pessimistic(ids: seq<int>, who: Session, now: Time, duration: int)
    | AnyN(event: int, count: nat, who: Session, now: Time, duration: int)
    | Sweep(batch: nat, now: Time)
    | Extension(seat: int, who: Session, now: Time, until: Time)
    | Confirmation(bid: int, user: int, ids: seq<int>, who: Session, now: Time, key: Option<string>)
    | Refund(bid: int, user: int, ids: seq<int>, now: Time)
    | Naive(ids: seq<int>, who: Session, now: Time, duration: int)

  /** Read, Validated: an unlocked read, and a read that hold() accepted. Updating: a multi-row UPDATE under
      way, with the rows it has still to lock. Locking, Checked: SELECT ... FOR UPDATE, and its rows
      validated. Marked: a refund has updated the booking. Seated, Linked: a confirmation has updated all
      its seats, and inserted its booking_seats rows. Written: ready to commit, if every row was written. */
  datatype Phase =
    | Start
    | Read(rows: Table)
    | Validated(rows: Table)
    | Updating(rows: Table, todo: set<int>)
    | Locking
    | Checked
    | Marked
    | Seated
    | Linked
    | Written(full: bool)
    | Done(success: bool)

  /** `locked` holds the row locks of the open transaction, each with the row as it was when the lock
      was granted; `writes` holds its uncommitted rows. */
  datatype Client = Client(req: Request, phase: Phase, attempt: nat, locked: Table, writes: Table)

  datatype World = World(db: Db, clients: map<int, Client>, clock: Time, log: Trace)

  predicate Free(w: World, c: int, i: int) {
    forall d :: d in w.clients && d != c ==> i !in w.clients[d].locked
  }

  /** The bookings row the open transaction has updated. */
  function BookingLock(cl: Client): Option<int> {
    match cl.req
    case Confirmation(bid, _, _, _, _, _) => if cl.phase.Written? then Some(bid) else None
    case Refund(bid, _, _, _) => if cl.phase.Marked? || cl.phase.Updating? || cl.phase.Written? then Some(bid) else None
    case _ => None
  }

  datatype Claim = Claim(user: int, key: string)

  /** The entry it has put into the unique index on bookings(user_id, idempotency_key). */
  function KeyClaim(cl: Client): Option<Claim> {
    if cl.req.Confirmation? && cl.phase.Written? && cl.req.key.Some?
    then Some(Claim(cl.req.user, cl.req.key.value)) else None
  }

  predicate BookingFree(w: World, c: int, bid: int) {
    forall d :: d in w.clients && d != c ==> BookingLock(w.clients[d]) != Some(bid)
  }

  predicate ClaimFree(w: World, c: int, r: Request) {
    r.Confirmation? && r.key.Some? ==>
      forall d :: d in w.clients && d != c ==> KeyClaim(w.clients[d]) != Some(Claim(r.user, r.key.value))
  }

  function Restrict(t: Table, ids: set<int>): Table {
    map i | i in t && i in ids :: t[i]
  }

  // ---------------------------------------------------------------- what an operation needs to lock

  function OpSeats(db: Db, op: Op): set<int> {
    match op
    case HoldOp(ids, _, _, _) => ids
    case ExpireOp(ids, _) => ids
    case ExtendOp(i, _, _, _) => {i}
    case ConfirmOp(bid, _, _, _) => if bid in db.bookings then Elems(db.bookings[bid].seatIds) else {}
    case RefundOp(bid, _) => if bid in db.bookings then Elems(db.bookings[bid].seatIds) else {}
    case _ => {}
  }

  function OpBooking(op: Op): Option<int> {
    if op.LateOp? || op.ConfirmOp? || op.RefundOp? then Some(op.bid) else None
  }

  function OpKey(db: Db, op: Op): Option<Claim> {
    match op
    case CreateOp(_, b, _) => if b.key.Some? then Some(Claim(b.userId, b.key.value)) else None
    case ConfirmOp(bid, _, _, key) =>
      if bid in db.bookings && key.Some? then Some(Claim(db.bookings[bid].userId, key.value)) else None
    case _ => None
  }

  /** The operation can commit while the transaction is open: it needs none of its locks. */
  predicate Compatible(db: Db, op: Op, cl: Client) {
    && cl.locked.Keys !! OpSeats(db, op)
    && (BookingLock(cl).Some? ==> OpBooking(op) != BookingLock(cl))
    && (KeyClaim(cl).Some? ==> OpKey(db, op) != KeyClaim(cl))
  }

  // ---------------------------------------------------------------- the statements

  /** The WHERE clauses of the conditional UPDATEs; `rows` is what an optimistic attempt read. */
  predicate Matches(r: Request, rows: Table, i: int, row: Seat) {
    match r
    case Optimistic(ids, _, now, _, _) =>
      i in ids && i in rows && row.version == rows[i].version && Reclaimable(row, now)
    case Extension(seat, who, now, _) => i == seat && HeldLive(row, who, now)
    case Confirmation(_, _, ids, who, now, _) => i in ids && HeldLive(row, who, now)
    case Refund(bid, _, ids, _) => i in ids && BookedFor(row, bid)
    case _ => false
  }

  /** The rows an UPDATE names. */
  predicate Listed(r: Request, i: int) {
    match r
    case Optimistic(ids, _, _, _, _) => i in ids
    case Extension(seat, _, _, _) => i == seat
    case Confirmation(_, _, ids, _, _, _) => i in ids
    case Refund(_, _, ids, _) => i in ids
    case _ => false
  }

  /** Their SET clauses. */
  function Rewrite(r: Request, row: Seat): Seat
    requires Updates(r)
  {
    match r
    case Optimistic(_, who, now, duration, _) => HoldRow(row, who, now + duration)
    case Extension(_, _, _, until) => ExtendRow(row, until)
    case Confirmation(bid, _, _, _, _, _) => BookRow(row, bid)
    case Refund(_, _, _, _) => FreeRow(row)
  }

  /** The transactions that write seats by a conditional multi-row UPDATE. */
  predicate Updates(r: Request) {
    r.Optimistic? || r.Extension? || r.Confirmation? || r.Refund?
  }

  function Hits(t: Table, r: Request, rows: Table): set<int> {
    set i | i in t && Matches(r, rows, i, t[i])
  }

  function HoldRows(t: Table, ids: set<int>, who: Session, until: Time): Table {
    map i | i in t && i in ids :: HoldRow(t[i], who, until)
  }

  /** seat_apply of expire() for the rows it accepts. */
  function ExpireRows(t: Table, ids: set<int>, now: Time): Table {
    map i | i in t && i in ids && Expire(t[i], now).Ok? :: Expire(t[i], now).value
  }

  predicate AllHoldable(t: Table, ids: set<int>, who: Session, now: Time, duration: int) {
    forall i :: i in ids ==> i in t && Hold(t[i], who, now, duration).Ok?
  }

  /** Rows a SKIP LOCKED selection may pick for client c. */
  predicate Selectable(w: World, c: int, i: int) {
    && c in w.clients && i in w.db.seats && Free(w, c, i)
    && match w.clients[c].req
       case AnyN(event, _, _, now, _) => w.db.seats[i].eventId == event && Reclaimable(w.db.seats[i], now)
       case Sweep(_, now) => Overdue(w.db.seats[i], now)
       case _ => false
  }

  function Candidates(w: World, c: int): set<int> {
    set i | i in w.db.seats && Selectable(w, c, i)
  }

  function Limit(r: Request): nat {
    if r.AnyN? then r.count else if r.Sweep? then r.batch else 0
  }

  /** The flush of a row loaded, changed and written back by the ORM: only changed columns are set. */
  function Merge(current: Seat, read: Seat, next: Seat): Seat {
    current.(
      status := if next.status != read.status then next.status else current.status,
      version := if next.version != read.version then next.version else current.version,
      heldBy := if next.heldBy != read.heldBy then next.heldBy else current.heldBy,
      expiresAt := if next.expiresAt != read.expiresAt then next.expiresAt else current.expiresAt,
      bookingId := if next.bookingId != read.bookingId then next.bookingId else current.bookingId)
  }

  function NaiveRows(t: Table, rows: Table, who: Session, now: Time, duration: int): Table {
    map i | i in t && i in rows && Hold(rows[i], who, now, duration).Ok? ::
      Merge(t[i], rows[i], Hold(rows[i], who, now, duration).value)
  }

  // ---------------------------------------------------------------- steps

  datatype Action =
    | Tick(t: Time)
    | Begin(c: int, req: Request)
    | SelectRows(c: int)
    | Validate(c: int)
    | BeginUpdate(c: int)
    | UpdateRow(c: int, i: int)
    | EndUpdate(c: int)
    | LockRow(c: int, i: int)
    | SkipLocked(c: int, chosen: set<int>)
    | CheckLocked(c: int)
    | Write(c: int)
    | InsertLinks(c: int)
    | UpdateBooking(c: int)
    | MarkRefunded(c: int)
    | Commit(c: int)
    | Conflict(c: int)
    | DeadlockVictim(c: int)
    | Abort(c: int)
    | Other(op: Op)
    | NaiveWrite(c: int)

  function Finish(cl: Client, success: bool): Client {
    cl.(phase := Done(success), locked := map[], writes := map[])
  }

  /** Rollback. An optimistic attempt that conflicted starts again from a fresh read, unless its budget is
      spent; everything else gives up. */
  function RetryOrGiveUp(cl: Client): Client {
    if cl.req.Optimistic? && cl.attempt < cl.req.maxAttempts
    then Client(cl.req, Start, cl.attempt + 1, map[], map[])
    else Finish(cl, false)
  }

  /** The rows a mode (a) transaction still has to lock. */
  function ToLock(w: World, cl: Client): set<int>
    requires cl.req.Pessimistic?
  {
    set i | i in cl.req.ids && i in w.db.seats && i !in cl.locked
  }

  function TxOp(cl: Client): Op {
    match cl.req
    case Sweep(_, now) => ExpireOp(cl.writes.Keys, now)
    case Extension(seat, who, now, until) => ExtendOp(seat, who, now, until)
    case Confirmation(bid, _, _, who, now, key) => ConfirmOp(bid, who, now, key)
    case Refund(bid, _, _, now) => RefundOp(bid, now)
    case _ => HoldOp(cl.writes.Keys, cl.req.who, cl.req.now, cl.req.duration)
  }

  predicate At(w: World, c: int) {
    c in w.clients && !w.clients[c].phase.Done?
  }

  /** A confirmation or refund has loaded its booking. */
  predicate Loaded(db: Db, r: Request) {
    r.Confirmation? || r.Refund? ==>
      r.bid in db.bookings && r.ids == db.bookings[r.bid].seatIds && r.user == db.bookings[r.bid].userId
  }

  predicate MayUpdate(cl: Client) {
    if cl.req.Optimistic? then cl.phase.Validated?
    else if cl.req.Refund? then cl.phase.Marked?
    else (cl.req.Extension? || cl.req.Confirmation?) && cl.phase.Start?
  }

  predicate Enabled(w: World, a: Action) {
    match a
    case Tick(t) => w.clock <= t
    case Begin(c, req) => c !in w.clients && req.now <= w.clock && Loaded(w.db, req)
    case SelectRows(c) =>
      At(w, c) && w.clients[c].phase.Start? && (w.clients[c].req.Optimistic? || w.clients[c].req.Naive?)
    case Validate(c) => At(w, c) && w.clients[c].phase.Read? && w.clients[c].req.Optimistic?
    case BeginUpdate(c) => At(w, c) && MayUpdate(w.clients[c])
    case UpdateRow(c, i) =>
      && At(w, c) && w.clients[c].phase.Updating? && Updates(w.clients[c].req)
      && i in w.clients[c].phase.todo && i in w.db.seats && Free(w, c, i)
    case EndUpdate(c) =>
      At(w, c) && w.clients[c].phase.Updating? && w.clients[c].phase.todo == {} && Updates(w.clients[c].req)
    case LockRow(c, i) =>
      && At(w, c) && w.clients[c].req.Pessimistic? && (w.clients[c].phase.Start? || w.clients[c].phase.Locking?)
      && i in ToLock(w, w.clients[c]) && (forall j :: j in ToLock(w, w.clients[c]) ==> i <= j)
      && Free(w, c, i)
    case SkipLocked(c, chosen) =>
      && At(w, c) && w.clients[c].phase.Start? && (w.clients[c].req.AnyN? || w.clients[c].req.Sweep?)
      && chosen == First(Candidates(w, c), Limit(w.clients[c].req))
    case CheckLocked(c) =>
      && At(w, c)
      && ((w.clients[c].req.AnyN? && w.clients[c].phase.Locking?)
          || (w.clients[c].req.Pessimistic? && (w.clients[c].phase.Start? || w.clients[c].phase.Locking?)
              && ToLock(w, w.clients[c]) == {}))
    case Write(c) =>
      At(w, c) && w.clients[c].phase.Checked? &&
      (w.clients[c].req.Pessimistic? || w.clients[c].req.AnyN? || w.clients[c].req.Sweep?)
    case InsertLinks(c) => At(w, c) && w.clients[c].req.Confirmation? && w.clients[c].phase.Seated?
    case UpdateBooking(c) =>
      && At(w, c) && w.clients[c].req.Confirmation? && w.clients[c].phase.Linked?
      && BookingFree(w, c, w.clients[c].req.bid) && ClaimFree(w, c, w.clients[c].req)
    case MarkRefunded(c) =>
      At(w, c) && w.clients[c].req.Refund? && w.clients[c].phase.Start? && BookingFree(w, c, w.clients[c].req.bid)
    case Commit(c) => At(w, c) && w.clients[c].phase == Written(true)
    case Conflict(c) => At(w, c) && w.clients[c].phase == Written(false) && w.clients[c].req.Optimistic?
    case DeadlockVictim(c) => At(w, c) && (w.clients[c].phase.Updating? || w.clients[c].phase.Locking?)
    case Abort(c) => At(w, c)
    case Other(op) =>
      && (op.CreateOp? || op.LateOp?) && Legal(w.db, op) && Now(op) <= w.clock
      && (forall c :: c in w.clients ==> Compatible(w.db, op, w.clients[c]))
    case NaiveWrite(c) =>
      && At(w, c) && w.clients[c].req.Naive? && w.clients[c].phase.Read?
      && forall i :: i in w.clients[c].req.ids ==> Free(w, c, i)
  }

  function Selected(cl: Client, rows: Table): Client
    requires cl.req.Optimistic? || cl.req.Naive?
  {
    if forall i :: i in cl.req.ids ==> i in rows then cl.(phase := Read(rows)) else Finish(cl, false)
  }

  /** The row is checked again once it is locked; if it no longer matches it is passed over. */
  function RowDone(cl: Client, i: int, row: Seat): Client
    requires cl.phase.Updating? && Updates(cl.req)
  {
    var rest := Updating(cl.phase.rows, cl.phase.todo - {i});
    if Matches(cl.req, cl.phase.rows, i, row)
    then cl.(phase := rest, locked := cl.locked[i := row], writes := cl.writes[i := Rewrite(cl.req, row)])
    else cl.(phase := rest)
  }

  /** What the row count of the UPDATE decides. */
  function Counted(cl: Client): Client
    requires Updates(cl.req)
  {
    match cl.req
    case Optimistic(ids, _, _, _, _) => cl.(phase := Written(|cl.writes.Keys| == |ids|))
    case Extension(_, _, _, _) => if cl.writes.Keys == {} then Finish(cl, false) else cl.(phase := Written(true))
    case Confirmation(_, _, ids, _, _, _) =>
      if |cl.writes.Keys| == |ids| then cl.(phase := Seated) else Finish(cl, false)
    case Refund(_, _, _, _) => cl.(phase := Written(true))
  }

  /** What action a makes of client c. */
  function NextClient(w: World, a: Action, cl: Client): Client
    requires Enabled(w, a) && !a.Tick? && !a.Begin? && !a.Other? && a.c in w.clients && cl == w.clients[a.c]
  {
    var t, r := w.db.seats, cl.req;
    match a
    case SelectRows(_) => Selected(cl, Restrict(t, Elems(r.ids)))
    case Validate(_) =>
      if AllHoldable(cl.phase.rows, Elems(r.ids), r.who, r.now, r.duration)
      then cl.(phase := Validated(cl.phase.rows)) else Finish(cl, false)
    case BeginUpdate(_) =>
      var rows := if cl.phase.Validated? then cl.phase.rows else map[];
      cl.(phase := Updating(rows, Hits(t, r, rows)))
    case UpdateRow(_, i) => RowDone(cl, i, t[i])
    case EndUpdate(_) => Counted(cl)
    case LockRow(_, i) => cl.(phase := Locking, locked := cl.locked[i := t[i]])
    case SkipLocked(_, chosen) =>
      if r.Sweep? then cl.(phase := Checked, locked := Restrict(t, chosen))
      else if |chosen| < r.count then Finish(cl, false)
      else cl.(phase := Locking, locked := Restrict(t, chosen))
    case CheckLocked(_) =>
      if AllHoldable(cl.locked, if r.AnyN? then cl.locked.Keys else Elems(r.ids), r.who, r.now, r.duration)
      then cl.(phase := Checked) else Finish(cl, false)
    case Write(_) =>
      if r.Sweep? then cl.(phase := Written(true), writes := ExpireRows(t, cl.locked.Keys, r.now))
      else cl.(phase := Written(true), writes := HoldRows(t, cl.locked.Keys, r.who, r.now + r.duration))
    case InsertLinks(_) => if LinksInsertable(w.db, r.bid, r.ids) then cl.(phase := Linked) else Finish(cl, false)
    case UpdateBooking(_) =>
      if r.bid in w.db.bookings && w.db.bookings[r.bid].status == PENDING && KeyFree(w.db, r.bid, r.user, r.key)
      then cl.(phase := Written(true)) else Finish(cl, false)
    case MarkRefunded(_) =>
      if r.bid in w.db.bookings && w.db.bookings[r.bid].status == CONFIRMED
      then cl.(phase := Marked) else Finish(cl, false)
    case Commit(_) => Finish(cl, true)
    case Conflict(_) => RetryOrGiveUp(cl)
    case DeadlockVictim(_) => RetryOrGiveUp(cl)
    case Abort(_) => Finish(cl, false)
    case NaiveWrite(_) =>
      Finish(cl, AllHoldable(cl.phase.rows, Elems(r.ids), r.who, r.now, r.duration))
  }

  /** The committed tables once the transaction's rows are published. */
  function CommitDb(db: Db, cl: Client): Db {
    var t := db.seats + cl.writes;
    match cl.req
    case Confirmation(bid, _, ids, _, now, key) =>
      if bid !in db.bookings then db.(seats := t)
      else
        var b := db.bookings[bid].(status := CONFIRMED, confirmedAt := Some(now));
        Db(t, db.bookings[bid := if key.Some? then b.(key := key) else b], db.links + NewLinks(bid, ids))
    case Refund(bid, _, _, _) =>
      if bid !in db.bookings then db.(seats := t)
      else db.(seats := t, bookings := db.bookings[bid := db.bookings[bid].(status := REFUNDED)])
    case _ => db.(seats := t)
  }

  function Do(w: World, a: Action): World
    requires Enabled(w, a)
  {
    match a
    case Tick(t) => w.(clock := t)
    case Begin(c, req) =>
      var phase := if req.Optimistic? && req.maxAttempts == 0 then Done(false) else Start;
      w.(clients := w.clients[c := Client(req, phase, 1, map[], map[])])
    case Other(op) => w.(db := Apply(w.db, op), log := w.log + [Entry(None, op, w.clock)])
    case Commit(c) =>
      World(CommitDb(w.db, w.clients[c]), w.clients[c := NextClient(w, a, w.clients[c])], w.clock,
            w.log + [Entry(Some(c), TxOp(w.clients[c]), w.clock)])
    case NaiveWrite(c) =>
      var cl := w.clients[c];
      w.(db := if NextClient(w, a, cl).phase.success
               then w.db.(seats := w.db.seats +
                        NaiveRows(w.db.seats, cl.phase.rows, cl.req.who, cl.req.now, cl.req.duration))
               else w.db,
         clients := w.clients[c := NextClient(w, a, cl)])
    case _ => w.(clients := w.clients[a.c := NextClient(w, a, w.clients[a.c])])
  }

  // ---------------------------------------------------------------- runs

  predicate Protocol(a: Action) {
    !a.NaiveWrite? && !(a.Begin? && a.req.Naive?)
  }

  function Exec(w: World, run: seq<Action>): World {
    if run == [] then w
    else
      var w' := Exec(w, run[..|run| - 1]);
      if Enabled(w', run[|run| - 1]) then Do(w', run[|run| - 1]) else w'
  }

  ghost predicate Runs(w: World, run: seq<Action>) {
    forall k :: 0 <= k < |run| ==> Enabled(Exec(w, run[..k]), run[k])
  }

  ghost predicate Safe(run: seq<Action>) {
    forall k :: 0 <= k < |run| ==> Protocol(run[k])
  }

  ghost predicate Initial(w: World) {
    Inv(w.db) && w.clients == map[] && w.log == []
  }

  lemma RunsPrefix(w: World, run: seq<Action>, n: nat)
    requires Runs(w, run) && n <= |run|
    ensures Runs(w, run[..n])
  {
    assert forall k :: 0 <= k < n ==> run[..n][..k] == run[..k] && run[..n][k] == run[k];
  }

  lemma RunsSnoc(w: World, run: seq<Action>, a: Action)
    requires Runs(w, run) && Enabled(Exec(w, run), a)
    ensures Runs(w, run + [a])
    ensures Exec(w, run + [a]) == Do(Exec(w, run), a)
  {
    var run' := run + [a];
    assert run'[..|run|] == run;
    assert forall k :: 0 <= k < |run| ==> run'[..k] == run[..k] && run'[k] == run[k];
  }

  lemma LogAndDb(w: World, a: Action)
    requires Enabled(w, a)
    ensures w.log <= Do(w, a).log
    ensures a.Commit? ==> Do(w, a).log == w.log + [Entry(Some(a.c), TxOp(w.clients[a.c]), w.clock)]
    ensures a.Other? ==> Do(w, a).log == w.log + [Entry(None, a.op, w.clock)]
    ensures !a.Commit? && !a.Other? && !a.NaiveWrite? ==> Do(w, a).db == w.db
  {
  }
}
