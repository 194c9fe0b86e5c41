/** The idempotent routes (app/api/routes/bookings.py), the key functions they call (app/infra/idempotency.py)
    and the reaper pass (workers/idempotency_reaper.py), as statements on a session whose tables include
    idempotency_keys. Each commit moves the committed tables by exactly one step of the key system in
    Idempotency, and a crash, which drops the session, moves them by none. */
module KeyService {
  import opened SeatMachine
  import opened Collections
  import opened Ledger
  import opened Requests
  import opened Payments
  import opened Strategies
  import opened BookingService
  import I = Idempotency

  // ---------------------------------------------------------------- the tables and the key system

  /** (user_id, idempotency_key) of each booking that has one. */
  function Carriers(db: Db): map<int, I.Key> {
    map b | b in db.bookings && db.bookings[b].key.Some? :: I.Key(db.bookings[b].userId, db.bookings[b].key.value)
  }

  /** The committed tables are what the key system says: its rows are idempotency_keys, its carriers the
      bookings. Who is in which phase of a request is not in any table. */
  ghost predicate Shows(store: Store, s: I.Sys) {
    s.rows == store.keys && s.carriers == Carriers(store.db)
  }

  /** The unique index on bookings is what the key system takes it to be. */
  lemma IndexIsKeyFree(db: Db, s: I.Sys, bid: int, k: I.Key)
    requires s.carriers == Carriers(db)
    ensures KeyFree(db, bid, k.user, Some(k.key)) <==> I.IndexAccepts(s, bid, k)
  {
    if !KeyFree(db, bid, k.user, Some(k.key)) {
      var b :| b in db.bookings && b != bid && db.bookings[b].userId == k.user && db.bookings[b].key == Some(k.key);
      assert s.carriers[b] == k;
    }
  }

  lemma CreateCarries(db: Db, bid: int, userId: int, who: Session, ids: seq<int>, key: string, now: Time)
    ensures var (db', o) := CreateSpec(db, bid, userId, who, ids, key, now);
      Carriers(db') == if o.Created? then Carriers(db)[bid := I.Key(userId, key)] else Carriers(db)
  {
  }

  lemma ConfirmCarries(db: Db, bid: int, who: Session, now: Time, key: string)
    ensures var (db', o) := ConfirmSpec(db, bid, who, now, key);
      Carriers(db') ==
        if o.Confirmed? && bid in db.bookings then Carriers(db)[bid := I.Key(db.bookings[bid].userId, key)]
        else Carriers(db)
  {
  }

  /** Payment events never move a key. */
  lemma PaymentsCarryNothing(seen: Db, db: Db, ev: Event, now: Time)
    ensures Carriers(HandlerSpec(seen, db, ev, now).db) == Carriers(db)
  {
    var db' := HandlerSpec(seen, db, ev, now).db;
    assert forall b :: b in db'.bookings <==> b in db.bookings;
    assert forall b :: b in db.bookings ==>
      db'.bookings[b].key == db.bookings[b].key && db'.bookings[b].userId == db.bookings[b].userId;
  }

  // ---------------------------------------------------------------- begin

  datatype Begun = New | Replayed(resp: I.Response) | Conflict | InProgress

  /** What the caller is told, by the phase its request is in. */
  predicate Told(p: I.Phase, outcome: Begun) {
    match outcome
    case New => p == I.Working
    case Replayed(resp) => p == I.Answered(I.Replay(resp))
    case Conflict => p == I.Answered(I.Mismatch)
    case InProgress => p == I.Answered(I.Busy)
  }

  /** Others took steps, none of them for request r. Key rows are never deleted. */
  ghost predicate OthersActed(before: I.Sys, after: I.Sys, r: int) {
    && r in before.reqs && r in after.reqs && after.reqs[r] == before.reqs[r]
    && forall k :: k in before.rows ==> k in after.rows
  }

  function WithKey(s: Store, k: I.Key, row: I.KeyRow): Store {
    s.(keys := s.keys[k := row])
  }

  /** begin_idempotent_request: INSERT and COMMIT; on the primary key's refusal ROLLBACK and SELECT; for a FAILED
      row the UPDATE guarded on FAILED, and COMMIT. Others may commit before the SELECT (leaving `seen`) and
      before the UPDATE (leaving `found`). */
  method BeginIdempotentRequest(session: DbSession, k: I.Key, fingerprint: string, now: Time, seen: Store, found: Store,
      ghost r: int, ghost s0: I.Sys, ghost s1: I.Sys, ghost s2: I.Sys) returns (outcome: Begun, ghost s: I.Sys)
    requires session.work == session.committed && Shows(session.committed, s0) && Shows(seen, s1) && Shows(found, s2)
    requires r !in s0.reqs && OthersActed(I.Do(s0, I.Insert(r, k, fingerprint, now)), s1, r)
    requires I.Enabled(s1, I.Look(r)) ==> OthersActed(I.Do(s1, I.Look(r)), s2, r)
    modifies session
    ensures session.work == session.committed && Shows(session.committed, s) && r in s.reqs
    ensures Told(s.reqs[r].phase, outcome)
    ensures k !in s0.rows ==> s == I.Do(s0, I.Insert(r, k, fingerprint, now))
    ensures k in s0.rows ==> I.Enabled(s1, I.Look(r))
    ensures k in s0.rows ==>
      if I.Do(s1, I.Look(r)).reqs[r].phase == I.Reclaiming
      then I.Enabled(s2, I.Reclaim(r, now)) && s == I.Do(s2, I.Reclaim(r, now))
      else s == I.Do(s1, I.Look(r)) && session.committed == seen
  {
    if k !in session.work.keys {
      session.work := WithKey(session.work, k, I.KeyRow(fingerprint, I.IN_PROGRESS, None, now));
      session.Commit();
      s := I.Do(s0, I.Insert(r, k, fingerprint, now));
      return New, s;
    }
    session.Rollback();
    assert k in I.Do(s0, I.Insert(r, k, fingerprint, now)).rows;
    session.Refresh(seen);
    var existing := session.work.keys[k];
    s := I.Do(s1, I.Look(r));
    if existing.fingerprint != fingerprint {
      return Conflict, s;
    }
    if existing.status == I.IN_PROGRESS {
      return InProgress, s;
    }
    if existing.status == I.FAILED {
      session.Refresh(found);
      var row := session.work.keys[k];
      var rowcount := if row.status == I.FAILED then 1 else 0;
      if rowcount == 1 {
        session.work := WithKey(session.work, k, row.(status := I.IN_PROGRESS, createdAt := now));
      }
      session.Commit();
      s := I.Do(s2, I.Reclaim(r, now));
      return if rowcount == 1 then New else InProgress, s;
    }
    outcome := Replayed(if existing.response.Some? then existing.response.value else I.Reply(500, "{}"));
  }

  // ---------------------------------------------------------------- execute and complete in one commit

  /** complete_idempotent_request: an UPDATE of the key row, not guarded on its status, in the caller's
      transaction. */
  method CompleteIdempotentRequest(session: DbSession, k: I.Key, resp: I.Response)
    modifies session
    ensures session.committed == old(session.committed)
    ensures session.work == old(session.work).(keys := session.work.keys)
    ensures session.work.keys == if k in old(session.work).keys
      then old(session.work).keys[k := old(session.work).keys[k].(status := I.COMPLETED, response := Some(resp))]
      else old(session.work).keys
  {
    if k in session.work.keys {
      session.work := WithKey(session.work, k, session.work.keys[k].(status := I.COMPLETED, response := Some(resp)));
    }
  }

  datatype Answer<T> = Answered(outcome: T, resp: I.Response) | Died

  /** The step of the key system that a route's transaction amounts to: none but its end if it died. */
  function Amounts(r: int, died: bool, work: I.Work): I.Step {
    if died then I.Crash(r) else I.Execute(r, work)
  }

  /** Request r has been told New for key k and is executing. */
  predicate Executing(s: I.Sys, r: int, k: I.Key) {
    r in s.reqs && s.reqs[r].key == k && s.reqs[r].phase == I.Working && k in s.rows
  }

  /** Others commit changes to idempotency_keys, such as a reaping, in the middle of a transaction that has not
      touched that table yet. */
  method OthersMoveKeys(session: DbSession, keys: map<I.Key, I.KeyRow>)
    requires session.work.keys == session.committed.keys
    modifies session
    ensures session.committed == old(session.committed).(keys := keys)
    ensures session.work == old(session.work).(keys := keys)
  {
    session.committed, session.work := session.committed.(keys := keys), session.work.(keys := keys);
  }

  /** create_booking_route after New: create_booking, the completion marker, one COMMIT. Others may change key rows
      before the marker is written (leaving `keys`). The route may die after any number of its statements, and
      it dies of an IntegrityError if another booking carries its key. */
  method CreateBookingRoute(session: DbSession, k: I.Key, bid: int, who: Session, ids: seq<int>, now: Time,
      body: string, failed: I.Response, keys: map<I.Key, I.KeyRow>, crashAt: nat,
      ghost r: int, ghost s0: I.Sys, ghost s1: I.Sys)
      returns (answer: Answer<CreateOutcome>, ghost s: I.Sys)
    requires session.work == session.committed && Shows(session.committed, s0) && Executing(s0, r, k)
    requires Shows(session.committed.(keys := keys), s1) && OthersActed(s0, s1, r)
    requires bid !in session.committed.db.bookings && failed.Reply?
    modifies session
    ensures session.work == session.committed && Shows(session.committed, s)
    ensures var (_, o) := CreateSpec(old(session.committed).db, bid, k.user, who, ids, k.key, now);
      && (answer.Died? <==> crashAt < 3 || o.KeyTaken?)
      && (answer.Answered? ==>
           answer.outcome == o && answer.resp == if o.Created? then I.Created(bid, body) else failed)
    ensures var (_, o) := CreateSpec(old(session.committed).db, bid, k.user, who, ids, k.key, now);
      var work := if o.Created? then I.CreateBooking(bid, I.Created(bid, body)) else I.Reject(failed);
      var a, before := Amounts(r, answer.Died?, work), if crashAt < 2 || o.KeyTaken? then s0 else s1;
      I.Enabled(before, a) && s == I.Do(before, a)
    ensures answer.Died? ==> session.committed.db == old(session.committed).db
    ensures answer.Answered? ==>
      session.committed.db == CreateSpec(old(session.committed).db, bid, k.user, who, ids, k.key, now).0
  {
    IndexIsKeyFree(session.committed.db, s0, bid, k);
    CreateCarries(session.committed.db, bid, k.user, who, ids, k.key, now);
    s := I.Do(s0, I.Crash(r));
    if crashAt == 0 {
      session.Rollback();
      return Died, s;
    }
    var outcome := CreateBooking(session, bid, k.user, who, ids, k.key, now);
    if outcome.KeyTaken? || crashAt == 1 {
      session.Rollback();
      return Died, s;
    }
    OthersMoveKeys(session, keys);
    var resp := if outcome.Created? then I.Created(bid, body) else failed;
    CompleteIdempotentRequest(session, k, resp);
    if crashAt == 2 {
      session.Rollback();
      s := I.Do(s1, I.Crash(r));
      return Died, s;
    }
    session.Commit();
    s := I.Do(s1, I.Execute(r, if outcome.Created? then I.CreateBooking(bid, resp) else I.Reject(resp)));
    answer := Answered(outcome, resp);
  }

  /** confirm_booking_route after New, likewise. A booking that is gone by then is a 404 like any other rejection. */
  method ConfirmBookingRoute(session: DbSession, k: I.Key, bid: int, who: Session, now: Time,
      ok: I.Response, failed: I.Response, keys: map<I.Key, I.KeyRow>, crashAt: nat,
      ghost r: int, ghost s0: I.Sys, ghost s1: I.Sys)
      returns (answer: Answer<ConfirmOutcome>, ghost s: I.Sys)
    requires session.work == session.committed && Shows(session.committed, s0) && Executing(s0, r, k)
    requires Shows(session.committed.(keys := keys), s1) && OthersActed(s0, s1, r)
    requires bid in session.committed.db.bookings ==> session.committed.db.bookings[bid].userId == k.user
    requires ok.Reply? && failed.Reply?
    modifies session
    ensures session.work == session.committed && Shows(session.committed, s)
    ensures var (_, o) := ConfirmSpec(old(session.committed).db, bid, who, now, k.key);
      && (answer.Died? <==> crashAt < 3 || o.KeyReused?)
      && (answer.Answered? ==> answer.outcome == o && answer.resp == if o.Confirmed? then ok else failed)
    ensures var (_, o) := ConfirmSpec(old(session.committed).db, bid, who, now, k.key);
      var work := if o.Confirmed? then I.ConfirmTo(bid, ok) else I.Reject(failed);
      var a, before := Amounts(r, answer.Died?, work), if crashAt < 2 || o.KeyReused? then s0 else s1;
      I.Enabled(before, a) && s == I.Do(before, a)
    ensures answer.Died? ==>
      session.committed.db == old(session.committed).db && session.committed.outbox == old(session.committed).outbox
    ensures answer.Answered? ==>
      && session.committed.db == ConfirmSpec(old(session.committed).db, bid, who, now, k.key).0
      && session.committed.outbox
         == old(session.committed).outbox + if answer.outcome.Confirmed? then [Msg(bid, CONFIRMED)] else []
  {
    IndexIsKeyFree(session.committed.db, s0, bid, k);
    ConfirmCarries(session.committed.db, bid, who, now, k.key);
    s := I.Do(s0, I.Crash(r));
    if crashAt == 0 {
      session.Rollback();
      return Died, s;
    }
    var outcome := ConfirmBookingTransaction(session, bid, who, now, k.key);
    if outcome.KeyReused? || crashAt == 1 {
      session.Rollback();
      return Died, s;
    }
    OthersMoveKeys(session, keys);
    var resp := if outcome.Confirmed? then ok else failed;
    CompleteIdempotentRequest(session, k, resp);
    if crashAt == 2 {
      session.Rollback();
      s := I.Do(s1, I.Crash(r));
      return Died, s;
    }
    session.Commit();
    s := I.Do(s1, I.Execute(r, if outcome.Confirmed? then I.ConfirmTo(bid, resp) else I.Reject(resp)));
    answer := Answered(outcome, resp);
  }

  // ---------------------------------------------------------------- the reaper

  function Stale(keys: map<I.Key, I.KeyRow>, now: Time, timeout: int): set<I.Key> {
    set k | k in keys && keys[k].status == I.IN_PROGRESS && keys[k].createdAt <= now - timeout
  }

  /** Stale rows are those the key system lets the reaper take: in progress for at least the timeout. */
  lemma StaleIffReapable(store: Store, s: I.Sys, k: I.Key, now: Time, timeout: int, rebuilt: I.Response)
    requires Shows(store, s) && rebuilt.Reply?
    ensures k in Stale(store.keys, now, timeout) <==> I.Enabled(s, I.Reap(k, now, timeout, rebuilt))
    ensures k in Stale(store.keys, now, timeout) <==>
      k in store.keys && store.keys[k].status == I.IN_PROGRESS && store.keys[k].createdAt + timeout <= now
  {
  }

  /** The positions of these keys in (user_id, key) order. */
  function Ranks(ks: set<I.Key>, rank: I.Key -> int): set<int> {
    set k | k in ks :: rank(k)
  }

  predicate BookingCarries(db: Db, k: I.Key) {
    exists b :: b in db.bookings && db.bookings[b].userId == k.user && db.bookings[b].key == Some(k.key)
  }

  lemma CarriedIsBooking(db: Db, s: I.Sys, k: I.Key)
    requires s.carriers == Carriers(db)
    ensures I.Carried(s, k) <==> BookingCarries(db, k)
  {
    if b :| b in db.bookings && db.bookings[b].userId == k.user && db.bookings[b].key == Some(k.key) {
      assert s.carriers[b] == k;
    }
  }

  /** The row the reaper leaves: response set and COMPLETED, or FAILED. */
  function ReapedRow(db: Db, k: I.Key, row: I.KeyRow, rebuilt: I.Response): I.KeyRow {
    if BookingCarries(db, k) then row.(status := I.COMPLETED, response := Some(rebuilt)) else row.(status := I.FAILED)
  }

  /** A pass has done these rows, and touched nothing else. */
  ghost predicate PassDone(before: Store, after: Store, done: seq<I.Key>, rebuilt: I.Key -> I.Response) {
    && after == before.(keys := after.keys) && (forall k :: k in after.keys <==> k in before.keys)
    && forall k :: k in before.keys ==>
         after.keys[k] == if k in done then ReapedRow(before.db, k, before.keys[k], rebuilt(k)) else before.keys[k]
  }

  /** The pass so far, as tables and as steps. */
  ghost predicate Midway(before: Store, after: Store, done: seq<I.Key>, rebuilt: I.Key -> I.Response, s0: I.Sys,
      steps: seq<I.Step>) {
    && PassDone(before, after, done, rebuilt)
    && (forall n :: 0 <= n < |steps| ==> steps[n].Reap?) && I.Runs(s0, steps) && Shows(after, I.Exec(s0, steps))
  }

  /** From a state the system can reach, nothing is recovered. */
  ghost predicate Sound(s0: I.Sys, s: I.Sys, recovered: nat) {
    I.AnyInv(s0) ==> recovered == 0 && I.AnyInv(s)
  }

  /** SELECT ... ORDER BY user_id, key LIMIT n; `rank` is that order. */
  method SelectStale(stale: set<I.Key>, limit: nat, rank: I.Key -> int) returns (rows: seq<I.Key>)
    requires forall j, k :: rank(j) == rank(k) ==> j == k
    ensures NoDup(rows) && Elems(rows) <= stale
    ensures IsFirst(Ranks(Elems(rows), rank), Ranks(stale, rank), limit)
  {
    var chosen := First(Ranks(stale, rank), limit);
    var left := chosen;
    rows := [];
    while left != {}
      invariant left <= chosen && NoDup(rows)
      invariant forall k :: k in rows <==> k in stale && rank(k) in chosen && rank(k) !in left
      decreases left
    {
      var m: int := Min(left);
      var k := KeyAt(stale, rank, m);
      rows := rows + [k];
      left := left - {m};
    }
    RanksAre(rows, stale, chosen, rank);
  }

  method KeyAt(stale: set<I.Key>, rank: I.Key -> int, m: int) returns (k: I.Key)
    requires m in Ranks(stale, rank)
    ensures k in stale && rank(k) == m
  {
    k :| k in stale && rank(k) == m;
  }

  lemma RanksAre(rows: seq<I.Key>, stale: set<I.Key>, chosen: set<int>, rank: I.Key -> int)
    requires chosen <= Ranks(stale, rank) && forall k :: k in rows <==> k in stale && rank(k) in chosen
    ensures Ranks(Elems(rows), rank) == chosen
  {
    forall m ensures m in Ranks(Elems(rows), rank) <==> m in chosen {
      if m in chosen {
        var k :| k in stale && rank(k) == m;
        assert k in Elems(rows);
      }
    }
  }

  /** reap_once: of the stale rows that others have not locked, the first `limit` in (user_id, key) order. Each is
      recovered where a booking carries the key, FAILED elsewhere, and all are committed at once. They are as
      many Reap steps; from a state the system can reach, the recovery branch is never taken. */
  method ReapOnce(session: DbSession, limit: nat, skip: set<I.Key>, rank: I.Key -> int, now: Time, timeout: int,
      rebuilt: I.Key -> I.Response, ghost s0: I.Sys)
      returns (recovered: nat, reaped: nat, rows: seq<I.Key>, ghost steps: seq<I.Step>)
    requires session.work == session.committed && Shows(session.committed, s0)
    requires forall j, k :: rank(j) == rank(k) ==> j == k
    requires forall k :: rebuilt(k).Reply?
    modifies session
    ensures session.work == session.committed
    ensures NoDup(rows)
    ensures IsFirst(Ranks(Elems(rows), rank),
        Ranks(Stale(old(session.committed).keys, now, timeout) - skip, rank), limit)
    ensures Midway(old(session.committed), session.committed, rows, rebuilt, s0, steps)
    ensures recovered + reaped == |rows| == |steps| && Sound(s0, I.Exec(s0, steps), recovered)
  {
    rows := SelectStale(Stale(session.work.keys, now, timeout) - skip, limit, rank);
    assert forall k :: k in rows ==> k in Elems(rows);
    recovered, reaped, steps := ReapAll(session, rows, now, timeout, rebuilt, s0);
    session.Commit();
  }

  /** The rows of the pass, in order. */
  method ReapAll(session: DbSession, rows: seq<I.Key>, now: Time, timeout: int, rebuilt: I.Key -> I.Response,
      ghost s0: I.Sys)
      returns (recovered: nat, reaped: nat, ghost steps: seq<I.Step>)
    requires session.work == session.committed && Shows(session.committed, s0) && NoDup(rows)
    requires forall k :: k in rows ==> k in Stale(session.work.keys, now, timeout)
    requires forall k :: rebuilt(k).Reply?
    modifies session
    ensures session.committed == old(session.committed)
    ensures Midway(old(session.work), session.work, rows, rebuilt, s0, steps)
    ensures recovered + reaped == |rows| == |steps| && Sound(s0, I.Exec(s0, steps), recovered)
  {
    ghost var base := session.committed;
    steps, recovered, reaped := [], 0, 0;
    NothingYet(base, rebuilt, s0);
    for n := 0 to |rows|
      invariant session.committed == base && recovered + reaped == |steps| == n
      invariant Midway(base, session.work, rows[..n], rebuilt, s0, steps)
      invariant Sound(s0, I.Exec(s0, steps), recovered)
    {
      var k := rows[n];
      assert k in rows && k !in rows[..n] && rows[..n + 1] == rows[..n] + [k];
      Onwards(base, session.work, rows[..n], rebuilt, s0, steps, k, now, timeout);
      var booked := ReapRow(session, k, now, timeout, rebuilt(k), I.Exec(s0, steps));
      if booked {
        recovered := recovered + 1;
      } else {
        reaped := reaped + 1;
      }
      steps := steps + [I.Reap(k, now, timeout, rebuilt(k))];
    }
    assert rows[..|rows|] == rows;
  }

  lemma NothingYet(before: Store, rebuilt: I.Key -> I.Response, s0: I.Sys)
    requires Shows(before, s0)
    ensures Midway(before, before, [], rebuilt, s0, [])
  {
  }

  lemma Onwards(before: Store, after: Store, done: seq<I.Key>, rebuilt: I.Key -> I.Response, s0: I.Sys,
      steps: seq<I.Step>, k: I.Key, now: Time, timeout: int)
    requires Midway(before, after, done, rebuilt, s0, steps)
    requires k in Stale(before.keys, now, timeout) && k !in done && rebuilt(k).Reply?
    ensures var a := I.Reap(k, now, timeout, rebuilt(k));
      && I.Enabled(I.Exec(s0, steps), a)
      && Midway(before, WithKey(after, k, ReapedRow(after.db, k, after.keys[k], rebuilt(k))),
                done + [k], rebuilt, s0, steps + [a])
      && (I.AnyInv(I.Exec(s0, steps)) ==> !I.Carried(I.Exec(s0, steps), k) && I.AnyInv(I.Exec(s0, steps + [a])))
  {
    var a := I.Reap(k, now, timeout, rebuilt(k));
    assert after.keys[k] == before.keys[k];
    ReapStep(s0, steps, a);
    CarriedIsBooking(after.db, I.Exec(s0, steps), k);
    PassOneMore(before, after, done, rebuilt, k);
  }

  /** One row of the pass. */
  method ReapRow(session: DbSession, k: I.Key, now: Time, timeout: int, rebuilt: I.Response, ghost s: I.Sys)
      returns (booked: bool)
    requires Shows(session.work, s) && I.Enabled(s, I.Reap(k, now, timeout, rebuilt))
    modifies session
    ensures session.committed == old(session.committed) && k in old(session.work).keys
    ensures session.work ==
      WithKey(old(session.work), k, ReapedRow(old(session.work).db, k, old(session.work).keys[k], rebuilt))
    ensures Shows(session.work, I.Do(s, I.Reap(k, now, timeout, rebuilt))) && (booked <==> I.Carried(s, k))
  {
    CarriedIsBooking(session.work.db, s, k);
    booked := BookingCarries(session.work.db, k);
    var row := session.work.keys[k];
    if booked {
      row := row.(status := I.COMPLETED, response := Some(rebuilt));
    } else {
      row := row.(status := I.FAILED);
    }
    session.work := WithKey(session.work, k, row);
  }

  lemma PassOneMore(before: Store, after: Store, done: seq<I.Key>, rebuilt: I.Key -> I.Response, k: I.Key)
    requires PassDone(before, after, done, rebuilt) && k in before.keys && k !in done
    ensures PassDone(before, WithKey(after, k, ReapedRow(after.db, k, after.keys[k], rebuilt(k))), done + [k], rebuilt)
  {
  }

  lemma ReapStep(s0: I.Sys, steps: seq<I.Step>, a: I.Step)
    requires I.Runs(s0, steps) && a.Reap? && I.Enabled(I.Exec(s0, steps), a)
    ensures I.Runs(s0, steps + [a]) && I.Exec(s0, steps + [a]) == I.Do(I.Exec(s0, steps), a)
    ensures I.AnyInv(I.Exec(s0, steps)) ==> !I.Carried(I.Exec(s0, steps), a.key) && I.AnyInv(I.Exec(s0, steps + [a]))
  {
    I.RunsSnoc(s0, steps, a);
    var s := I.Exec(s0, steps);
    if I.AnyInv(s) {
      assert I.KeyOk(s, a.key);
      I.StepKeepsAnyInv(s, a);
    }
  }
}
