/** The seat acquisition strategies (app/inventory/strategies), the sweeper pass (workers/sweeper.py) and the
    hold extension (app/api/routes/booking.py) as the step-by-step programs they are, each proved against what
    it should do to the committed tables. */
module Strategies {
  import opened SeatMachine
  import opened Collections
  import opened Ledger
  import opened Interleaving
  import opened Requests
  import opened Payments

  // ---------------------------------------------------------------- the session

  function WithSeats(s: Store, t: Table): Store {
    s.(db := s.db.(seats := t))
  }

  /** A database session: what is committed, and what the open transaction sees. */
  class DbSession {
    var committed: Store
    var work: Store

    constructor (s: Store)
      ensures committed == s && work == s
    {
      committed, work := s, s;
    }

    method Commit()
      modifies this
      ensures committed == work == old(work)
    {
      committed := work;
    }

    method Rollback()
      modifies this
      ensures committed == work == old(committed)
    {
      work := committed;
    }

    /** Other transactions committed; the next statement of this one, which has written nothing yet, sees it. */
    method Refresh(s: Store)
      requires work == committed
      modifies this
      ensures committed == work == s
    {
      committed, work := s, s;
    }
  }

  // ---------------------------------------------------------------- shared loops

  method MissingIds(rows: Table, ids: seq<int>) returns (missing: seq<int>)
    ensures missing == Missing(rows, ids)
  {
    missing := [];
    for k := 0 to |ids|
      invariant missing + Missing(rows, ids[k..]) == Missing(rows, ids)
    {
      assert ids[k..][0] == ids[k] && ids[k..][1..] == ids[k + 1..];
      ghost var rest := Missing(rows, ids[k + 1..]);
      if ids[k] !in rows {
        assert missing + ([ids[k]] + rest) == (missing + [ids[k]]) + rest;
        missing := missing + [ids[k]];
      } else {
        assert [] + rest == rest;
      }
    }
  }

  /** Runs hold() over the listed rows in order and stops at the first refusal. */
  method ValidateAll(rows: Table, ids: seq<int>, who: Session, now: Time, duration: int)
      returns (refused: Option<int>, versions: map<int, int>)
    requires forall i :: i in ids ==> i in rows
    ensures refused == FirstRefused(rows, ids, who, now, duration)
    ensures refused.None? ==> forall i :: i in ids ==> i in versions && versions[i] == rows[i].version
  {
    refused, versions := None, map[];
    for k := 0 to |ids|
      invariant FirstRefused(rows, ids[k..], who, now, duration) == FirstRefused(rows, ids, who, now, duration)
      invariant forall i :: i in ids[..k] ==> i in versions && versions[i] == rows[i].version
    {
      assert ids[k..][0] == ids[k] && ids[k..][1..] == ids[k + 1..];
      var i := ids[k];
      match Hold(rows[i], who, now, duration)
      case Err(_) => return Some(i), map[];
      case Ok(_) => versions := versions[i := rows[i].version];
    }
  }

  lemma {:induction false} RestrictSees(t: Table, all: set<int>, ids: seq<int>, who: Session, now: Time, duration: int)
    requires forall i :: i in ids ==> i in all
    ensures Missing(Restrict(t, all), ids) == Missing(t, ids)
    ensures FirstRefused(Restrict(t, all), ids, who, now, duration) == FirstRefused(t, ids, who, now, duration)
  {
    if ids != [] {
      var i := ids[0];
      assert i in ids;
      assert forall j :: j in ids[1..] ==> j in ids;
      RestrictSees(t, all, ids[1..], who, now, duration);
    }
  }

  // ---------------------------------------------------------------- pessimistic

  class PessimisticStrategy {
    constructor () { }

    /** Mode (a): lock the rows in id order, validate each, bulk-update without a guard. */
    method Acquire(session: DbSession, ids: seq<int>, who: Session, now: Time, duration: int)
        returns (outcome: AcquireOutcome)
      requires session.work == session.committed
      modifies session
      ensures (session.committed, outcome) ==
        var (t, o) := AcquireSpec(old(session.committed).db.seats, ids, who, now, duration, false);
        (WithSeats(old(session.committed), t), o)
      ensures session.work == session.committed
    {
      var rows := Restrict(session.work.db.seats, Elems(ids));
      RestrictSees(session.work.db.seats, Elems(ids), ids, who, now, duration);
      var missing := MissingIds(rows, ids);
      NothingMissing(rows, ids);
      if missing != [] {
        session.Rollback();
        return NotFound(missing);
      }
      var refused, _ := ValidateAll(rows, ids, who, now, duration);
      if refused.Some? {
        session.Rollback();
        return if duration <= 0 then Raised else Rejected(refused.value);
      }
      CommitHolds(session, Elems(ids), who, now, duration);
      outcome := Acquired(ids);
    }

    /** Mode (b): any `count` seats of the event, all or none; `skip` are the rows locked by others. */
    method AcquireAnyN(session: DbSession, event: int, count: nat, who: Session, now: Time, duration: int,
        skip: set<int>)
        returns (outcome: AnyOutcome)
      requires session.work == session.committed
      modifies session
      ensures (session.committed, outcome) ==
        var (t, o) := AnyNSpec(old(session.committed).db.seats, event, count, who, now, duration, skip);
        (WithSeats(old(session.committed), t), o)
      ensures session.work == session.committed
    {
      var t := session.work.db.seats;
      var chosen := First(Available(t, event, now, skip), count);
      var rows := Restrict(t, chosen);
      assert rows.Keys == chosen;
      if |rows.Keys| < count {
        session.Rollback();
        return Insufficient(chosen);
      }
      var left := chosen;
      while left != {}
        invariant left <= chosen && session.committed == session.work == old(session.committed)
        invariant left != chosen ==> duration > 0
        decreases left
      {
        var i: int := Min(left);
        HoldUpdateAgrees(rows[i], who, now, if duration <= 0 then 1 else duration);
        if Hold(rows[i], who, now, duration).Err? {
          session.Rollback();
          return AnyRaised;
        }
        left := left - {i};
      }
      CommitHolds(session, chosen, who, now, duration);
      outcome := AnyAcquired(chosen);
    }

    /** UPDATE seats SET ... WHERE id = ANY(:ids), then COMMIT. */
    method CommitHolds(session: DbSession, ids: set<int>, who: Session, now: Time, duration: int)
      modifies session
      ensures session.committed == session.work ==
        WithSeats(old(session.work), HeldTable(old(session.work).db.seats, ids, who, now + duration))
    {
      session.work := WithSeats(session.work, HeldTable(session.work.db.seats, ids, who, now + duration));
      session.Commit();
    }
  }

  // ---------------------------------------------------------------- naive

  function WrittenBack(t: Table, rows: Table, held: Table): Table {
    map i | i in t :: if i in held && i in rows then Merge(t[i], rows[i], held[i]) else t[i]
  }

  lemma WrittenBackIsNaive(t: Table, rows: Table, held: Table, who: Session, now: Time, duration: int)
    requires forall i :: i in rows <==> i in held
    requires forall i :: i in held ==> Hold(rows[i], who, now, duration) == Ok(held[i])
    ensures WrittenBack(t, rows, held) == t + NaiveRows(t, rows, who, now, duration)
  {
    var a, b := WrittenBack(t, rows, held), t + NaiveRows(t, rows, who, now, duration);
    assert a.Keys == b.Keys;
    forall i | i in t ensures a[i] == b[i] {
      if i in rows { assert Hold(rows[i], who, now, duration) == Ok(held[i]); }
    }
  }

  class NaiveStrategy {
    constructor () { }

    /** Decides from an unlocked read and writes back without a guard; `meanwhile` is what others commit in
        between. */
    method Acquire(session: DbSession, ids: seq<int>, who: Session, now: Time, duration: int, meanwhile: Store)
        returns (outcome: AcquireOutcome)
      requires session.work == session.committed
      requires forall i :: i in session.committed.db.seats ==> i in meanwhile.db.seats
      modifies session
      ensures outcome.Acquired? <==>
        forall i :: i in ids ==>
          i in old(session.committed).db.seats && Hold(old(session.committed).db.seats[i], who, now, duration).Ok?
      ensures outcome.Acquired? ==> session.committed == WithSeats(meanwhile, meanwhile.db.seats +
        NaiveRows(meanwhile.db.seats, Restrict(old(session.committed).db.seats, Elems(ids)), who, now, duration))
      ensures !outcome.Acquired? ==> session.committed in {old(session.committed), meanwhile}
    {
      var rows := Restrict(session.work.db.seats, Elems(ids));
      var missing := MissingIds(rows, ids);
      NothingMissing(rows, ids);
      if missing != [] {
        return NotFound(missing);
      }
      session.Refresh(meanwhile);
      var held: Table := map[];
      for k := 0 to |ids|
        invariant session.work == session.committed == meanwhile
        invariant forall i :: i in held <==> i in ids[..k]
        invariant forall i :: i in held ==> Hold(rows[i], who, now, duration) == Ok(held[i])
      {
        var i := ids[k];
        match Hold(rows[i], who, now, duration)
        case Err(_) => return if duration <= 0 then Raised else Rejected(i);
        case Ok(seat) => held := held[i := seat];
      }
      assert ids[..|ids|] == ids;
      WriteBack(session, rows, held);
      WrittenBackIsNaive(meanwhile.db.seats, rows, held, who, now, duration);
      session.Commit();
      outcome := Acquired(ids);
    }

    /** seat_apply on each loaded row; the flush writes the changed columns by primary key alone. */
    method WriteBack(session: DbSession, rows: Table, held: Table)
      requires forall i :: i in held ==> i in rows && i in session.work.db.seats
      modifies session
      ensures session.committed == old(session.committed)
      ensures session.work == WithSeats(old(session.work), WrittenBack(old(session.work).db.seats, rows, held))
    {
      var left := held.Keys;
      ghost var start := session.work.db.seats;
      assert WrittenBack(start, rows, held - left) == start;
      while left != {}
        invariant left <= held.Keys && session.committed == old(session.committed)
        invariant session.work == WithSeats(old(session.work), WrittenBack(start, rows, held - left))
        decreases left
      {
        var i: int := Min(left);
        var t := session.work.db.seats;
        session.work := WithSeats(session.work, t[i := Merge(t[i], rows[i], held[i])]);
        left := left - {i};
        assert session.work.db.seats == WrittenBack(start, rows, held - left);
      }
      assert held - left == held;
    }
  }

  // ---------------------------------------------------------------- optimistic

  /** What the attempts of one acquire run into: the tables at the read and at the UPDATE of each attempt,
      whether Postgres picks that UPDATE as a deadlock victim, and the random draw of the backoff after it. */
  datatype Others = Others(atRead: nat -> Store, atUpdate: nat -> Store, deadlock: nat -> bool, jitter: nat -> real)

  /** Rows matched by the versioned UPDATE: unchanged version, and still reclaimable. */
  function Matched(t: Table, ids: seq<int>, rows: Table, now: Time): set<int> {
    set i | i in ids && i in t && i in rows && t[i].version == rows[i].version && Reclaimable(t[i], now)
  }

  /** One attempt: its final outcome, or None for a conflict, which is retried. */
  function Try(o: Others, ids: seq<int>, who: Session, now: Time, duration: int, attempt: nat): Option<AcquireOutcome> {
    var rows := o.atRead(attempt).db.seats;
    if Missing(rows, ids) != [] then Some(NotFound(Missing(rows, ids)))
    else if FirstRefused(rows, ids, who, now, duration).Some? then
      Some(if duration <= 0 then Raised else Rejected(FirstRefused(rows, ids, who, now, duration).value))
    else if o.deadlock(attempt) then None
    else if |Matched(o.atUpdate(attempt).db.seats, ids, Restrict(rows, Elems(ids)), now)| == |ids|
    then Some(Acquired(ids))
    else None
  }

  function Pow2(n: nat): nat {
    if n == 0 then 1 else 2 * Pow2(n - 1)
  }

  /** The longest sleep after the given attempt. */
  function Ceiling(base: real, attempt: nat): real
    requires attempt >= 1
  {
    base * (Pow2(attempt - 1) as real)
  }

  /** The first ceiling is the base, and each is twice the one before. */
  lemma CeilingDoubles(base: real, attempt: nat)
    requires attempt >= 1
    ensures Ceiling(base, 1) == base && Ceiling(base, attempt + 1) == 2.0 * Ceiling(base, attempt)
  {
    var p := Pow2(attempt - 1) as real;
    assert Pow2(attempt) as real == 2.0 * p;
  }

  /** The longest total sleep of that many retries. */
  function SleepBudget(base: real, retries: nat): real {
    base * ((Pow2(retries) - 1) as real)
  }

  lemma NextSleep(base: real, retries: nat)
    ensures SleepBudget(base, retries + 1) == SleepBudget(base, retries) + Ceiling(base, retries + 1)
  {
    var p := Pow2(retries) as real;
    assert (Pow2(retries + 1) - 1) as real == (p - 1.0) + p;
  }

  lemma {:induction false} SleepBudgetGrows(base: real, few: nat, many: nat)
    requires base >= 0.0 && few <= many
    ensures SleepBudget(base, few) <= SleepBudget(base, many)
  {
    if few < many {
      SleepBudgetGrows(base, few, many - 1);
      NextSleep(base, many - 1);
      assert Ceiling(base, many) >= 0.0;
    }
  }

  lemma Jittered(ceiling: real, draw: real)
    requires ceiling >= 0.0 && 0.0 <= draw <= 1.0
    ensures 0.0 <= ceiling * draw <= ceiling
  {
  }

  datatype Effort = Effort(attempts: nat, conflicts: nat, retries: nat, slept: real)

  class OptimisticStrategy {
    const baseSeconds: real
    const maxAttempts: nat
    const fullJitter: bool

    constructor (base: real, max: nat, jitter: bool)
      ensures baseSeconds == base && maxAttempts == max && fullJitter == jitter
    {
      baseSeconds, maxAttempts, fullJitter := base, max, jitter;
    }

    /** The outcome is that of the first attempt that does not conflict, and Exhausted when all of them do. */
    method Acquire(session: DbSession, ids: seq<int>, who: Session, now: Time, duration: int, others: Others)
        returns (outcome: AcquireOutcome, effort: Effort)
      requires session.work == session.committed
      requires baseSeconds >= 0.0 && forall k: nat :: 0.0 <= others.jitter(k) <= 1.0
      modifies session
      ensures effort.attempts <= maxAttempts
      ensures forall k: nat :: 1 <= k < effort.attempts ==> Try(others, ids, who, now, duration, k).None?
      ensures !outcome.Exhausted? ==>
        effort.attempts >= 1 && Try(others, ids, who, now, duration, effort.attempts) == Some(outcome)
      ensures outcome.Exhausted? ==>
        effort.attempts == maxAttempts &&
        forall k: nat :: 1 <= k <= maxAttempts ==> Try(others, ids, who, now, duration, k).None?
      ensures outcome.Acquired? ==> NoDup(ids)
      ensures outcome.Acquired? ==>
        var seen := others.atUpdate(effort.attempts);
        session.committed == WithSeats(seen, HeldTable(seen.db.seats, Elems(ids), who, now + duration))
      ensures !outcome.Acquired? ==>
        session.committed in {old(session.committed), others.atRead(effort.attempts), others.atUpdate(effort.attempts)}
      ensures effort.conflicts == if outcome.Exhausted? then maxAttempts else effort.attempts - 1
      ensures effort.retries == if outcome.Exhausted? && maxAttempts > 0 then effort.conflicts - 1 else effort.conflicts
      ensures 0.0 <= effort.slept <= SleepBudget(baseSeconds, effort.retries)
      ensures !fullJitter ==> effort.slept == SleepBudget(baseSeconds, effort.retries)
      ensures maxAttempts > 0 ==> effort.slept <= SleepBudget(baseSeconds, maxAttempts - 1)
    {
      effort := Effort(0, 0, 0, 0.0);
      var attempt := 1;
      while attempt <= maxAttempts
        invariant 1 <= attempt <= maxAttempts + 1
        invariant session.work == session.committed
        invariant session.committed in
          {old(session.committed), others.atRead(attempt - 1), others.atUpdate(attempt - 1)}
        invariant effort.attempts == attempt - 1 && effort.conflicts == attempt - 1
        invariant effort.retries == if attempt == maxAttempts + 1 && maxAttempts > 0 then attempt - 2 else attempt - 1
        invariant forall k: nat :: 1 <= k < attempt ==> Try(others, ids, who, now, duration, k).None?
        invariant 0.0 <= effort.slept <= SleepBudget(baseSeconds, effort.retries)
        invariant !fullJitter ==> effort.slept == SleepBudget(baseSeconds, effort.retries)
      {
        session.Refresh(others.atRead(attempt));
        effort := effort.(attempts := attempt);
        var done := Attempt(session, ids, who, now, duration, others, attempt);
        if done.Some? {
          if maxAttempts > 0 { SleepBudgetGrows(baseSeconds, effort.retries, maxAttempts - 1); }
          return done.value, effort;
        }
        effort := effort.(conflicts := effort.conflicts + 1);
        if attempt < maxAttempts {
          var delay := Backoff(attempt, others.jitter(attempt));
          NextSleep(baseSeconds, effort.retries);
          effort := effort.(retries := effort.retries + 1, slept := effort.slept + delay);
        }
        attempt := attempt + 1;
      }
      outcome := Exhausted;
      if maxAttempts > 0 { SleepBudgetGrows(baseSeconds, effort.retries, maxAttempts - 1); }
    }

    /** Read, validate, one versioned UPDATE, then commit or roll back. */
    method Attempt(session: DbSession, ids: seq<int>, who: Session, now: Time, duration: int, others: Others,
        attempt: nat)
        returns (done: Option<AcquireOutcome>)
      requires session.work == session.committed == others.atRead(attempt)
      modifies session
      ensures done == Try(others, ids, who, now, duration, attempt)
      ensures done.Some? ==> !done.value.Exhausted?
      ensures session.work == session.committed
      ensures done.Some? && done.value.Acquired? ==> NoDup(ids)
      ensures done.Some? && done.value.Acquired? ==>
        var seen := others.atUpdate(attempt);
        session.committed == WithSeats(seen, HeldTable(seen.db.seats, Elems(ids), who, now + duration))
      ensures !(done.Some? && done.value.Acquired?) ==>
        session.committed in {others.atRead(attempt), others.atUpdate(attempt)}
    {
      var rows := Restrict(session.work.db.seats, Elems(ids));
      RestrictSees(session.work.db.seats, Elems(ids), ids, who, now, duration);
      var missing := MissingIds(rows, ids);
      NothingMissing(rows, ids);
      if missing != [] {
        session.Rollback();
        return Some(NotFound(missing));
      }
      var refused, versions := ValidateAll(rows, ids, who, now, duration);
      if refused.Some? {
        session.Rollback();
        return Some(if duration <= 0 then Raised else Rejected(refused.value));
      }
      session.Refresh(others.atUpdate(attempt));
      if others.deadlock(attempt) {
        session.Rollback();
        return None;
      }
      var t := session.work.db.seats;
      var matched := set i |
        i in ids && i in t && i in versions && t[i].version == versions[i] && Reclaimable(t[i], now);
      assert forall i :: i in matched <==> i in Matched(t, ids, rows, now);
      assert matched == Matched(t, ids, rows, now);
      session.work := WithSeats(session.work, HeldTable(t, matched, who, now + duration));
      RowCount(ids, matched);
      if |matched| == |ids| {
        session.Commit();
        return Some(Acquired(ids));
      }
      session.Rollback();
      done := None;
    }

    /** Full jitter draws uniformly below the ceiling; without it the ceiling itself is slept. */
    method Backoff(attempt: nat, draw: real) returns (delay: real)
      requires attempt >= 1 && baseSeconds >= 0.0 && 0.0 <= draw <= 1.0
      ensures 0.0 <= delay <= Ceiling(baseSeconds, attempt)
      ensures !fullJitter ==> delay == Ceiling(baseSeconds, attempt)
    {
      var ceiling := Ceiling(baseSeconds, attempt);
      assert ceiling >= 0.0;
      Jittered(ceiling, draw);
      delay := if fullJitter then ceiling * draw else ceiling;
    }
  }

  /** The status guard alone makes an UPDATE of all listed rows a legal hold of exactly those seats: nothing is
      asked of their versions, nor of when they were read. */
  lemma StatusGuardSuffices(db: Db, ids: seq<int>, who: Session, now: Time, duration: int)
    requires AllCoherent(db.seats) && duration > 0
    requires |(set i | i in ids && i in db.seats && Reclaimable(db.seats[i], now))| == |ids|
    ensures NoDup(ids)
    ensures Legal(db, HoldOp(Elems(ids), who, now, duration))
    ensures Apply(db, HoldOp(Elems(ids), who, now, duration)) ==
      db.(seats := HeldTable(db.seats, Elems(ids), who, now + duration))
  {
    var matched := set i | i in ids && i in db.seats && Reclaimable(db.seats[i], now);
    RowCount(ids, matched);
    forall i | i in Elems(ids) ensures i in db.seats && Hold(db.seats[i], who, now, duration).Ok? {
      assert i in matched;
      HoldUpdateAgrees(db.seats[i], who, now, duration);
    }
    HeldTableIsHold(db, Elems(ids), who, now, duration);
  }

  /** A winning attempt is a legal hold, in the state its UPDATE saw, of exactly the seats asked for,
      whatever happened since the read. */
  lemma WinIsHold(o: Others, ids: seq<int>, who: Session, now: Time, duration: int, attempt: nat)
    requires Try(o, ids, who, now, duration, attempt) == Some(Acquired(ids))
    requires AllCoherent(o.atUpdate(attempt).db.seats)
    ensures var db := o.atUpdate(attempt).db;
      && NoDup(ids)
      && Legal(db, HoldOp(Elems(ids), who, now, duration))
      && Apply(db, HoldOp(Elems(ids), who, now, duration)) ==
         db.(seats := HeldTable(db.seats, Elems(ids), who, now + duration))
  {
    var rows, db := o.atRead(attempt).db.seats, o.atUpdate(attempt).db;
    var matched := Matched(db.seats, ids, Restrict(rows, Elems(ids)), now);
    var reclaimable := set i | i in ids && i in db.seats && Reclaimable(db.seats[i], now);
    if ids == [] {
      assert HoldSeats(db.seats, Elems(ids), who, now, duration) ==
        HeldTable(db.seats, Elems(ids), who, now + duration);
    } else {
      NothingRefused(rows, ids, who, now, duration);
      NothingMissing(rows, ids);
      assert ids[0] in rows && Hold(rows[ids[0]], who, now, duration).Ok?;
      SubsetCard(matched, reclaimable);
      RowCount(ids, reclaimable);
      StatusGuardSuffices(db, ids, who, now, duration);
    }
  }

  /** Undisturbed, an attempt conflicts exactly when a seat is listed twice, and then so does every retry;
      otherwise the first attempt decides, as specified. */
  lemma QuietTry(o: Others, s: Store, ids: seq<int>, who: Session, now: Time, duration: int, attempt: nat)
    requires o.atRead(attempt) == s && o.atUpdate(attempt) == s && !o.deadlock(attempt)
    ensures var outcome := AcquireSpec(s.db.seats, ids, who, now, duration, true).1;
      Try(o, ids, who, now, duration, attempt) == if outcome.Exhausted? then None else Some(outcome)
  {
    var t := s.db.seats;
    NothingMissing(t, ids);
    NothingRefused(t, ids, who, now, duration);
    var matched := Matched(t, ids, Restrict(t, Elems(ids)), now);
    RowCount(ids, matched);
    ElemsCard(ids);
    if Missing(t, ids) == [] && FirstRefused(t, ids, who, now, duration).None? {
      forall i | i in ids ensures i in matched {
        assert Hold(t[i], who, now, duration).Ok?;
        HoldUpdateAgrees(t[i], who, now, duration);
      }
      assert forall i :: i in matched <==> i in Elems(ids);
    }
  }

  // ---------------------------------------------------------------- a sweep in the middle of an attempt

  /** The rows a sweeper pass takes. */
  function Taken(s: Store, batch: nat, at: Time, skip: set<int>): set<int> {
    First(Backlog(s.db.seats, at) - skip, batch)
  }

  function Swept(s: Store, batch: nat, at: Time, skip: set<int>): Store {
    WithSeats(s, SweepSpec(s.db.seats, batch, at, skip))
  }

  /** A sweep keeps what can be taken and moves the version of exactly the rows it takes. */
  lemma SweepMovesVersions(s: Store, batch: nat, at: Time, skip: set<int>)
    ensures var t, u := s.db.seats, Swept(s, batch, at, skip).db.seats;
      && (forall i :: i in u <==> i in t)
      && (forall i :: i in t ==> (u[i].version == t[i].version <==> i !in Taken(s, batch, at, skip)))
      && (forall i, now :: i in t && Reclaimable(t[i], now) ==> Reclaimable(u[i], now))
  {
    var taken := Taken(s, batch, at, skip);
    assert forall i :: i in taken ==> i in Backlog(s.db.seats, at);
  }

  /** A pass between the read and the UPDATE of an attempt that would win makes it conflict exactly when it takes
      one of the listed seats. (A list with duplicates conflicts anyway.) */
  lemma SweepCostsIff(o: Others, s: Store, ids: seq<int>, who: Session, now: Time, duration: int, attempt: nat,
      batch: nat, at: Time, skip: set<int>)
    requires o.atRead(attempt) == s && o.atUpdate(attempt) == Swept(s, batch, at, skip) && !o.deadlock(attempt)
    ensures Try(o, ids, who, now, duration, attempt).None? <==>
      && Missing(s.db.seats, ids) == [] && FirstRefused(s.db.seats, ids, who, now, duration).None?
      && (!NoDup(ids) || exists i :: i in ids && i in Taken(s, batch, at, skip))
  {
    var t, u := s.db.seats, Swept(s, batch, at, skip).db.seats;
    NothingMissing(t, ids);
    NothingRefused(t, ids, who, now, duration);
    SweepMovesVersions(s, batch, at, skip);
    if Missing(t, ids) == [] && FirstRefused(t, ids, who, now, duration).None? {
      var matched := Matched(u, ids, Restrict(t, Elems(ids)), now);
      forall i | i in ids ensures i in matched <==> i !in Taken(s, batch, at, skip) {
        assert Hold(t[i], who, now, duration).Ok?;
        HoldUpdateAgrees(t[i], who, now, duration);
      }
      assert forall i :: i in matched ==> i in Elems(ids);
      RowCount(ids, matched);
      assert matched == Elems(ids) <==> forall i :: i in ids ==> i in matched;
    }
  }

  /** Accepted before the sweep, accepted after it. */
  lemma SweptStillAccepted(s: Store, ids: seq<int>, who: Session, now: Time, duration: int,
      batch: nat, at: Time, skip: set<int>)
    requires AcquireSpec(s.db.seats, ids, who, now, duration, true).1.Acquired?
    ensures AcquireSpec(Swept(s, batch, at, skip).db.seats, ids, who, now, duration, true).1 == Acquired(ids)
  {
    var t, u := s.db.seats, Swept(s, batch, at, skip).db.seats;
    SweepMovesVersions(s, batch, at, skip);
    NothingMissing(t, ids);
    NothingMissing(u, ids);
    NothingRefused(t, ids, who, now, duration);
    NothingRefused(u, ids, who, now, duration);
    forall i | i in ids ensures i in u && Hold(u[i], who, now, duration).Ok? {
      assert Hold(t[i], who, now, duration).Ok?;
      HoldUpdateAgrees(t[i], who, now, duration);
      HoldUpdateAgrees(u[i], who, now, duration);
    }
  }

  /** The sweeper costs at most one attempt: the attempt it falls into, or else the undisturbed next one, has the
      outcome there would have been without the sweep. */
  lemma SweepCostsOneAttempt(o: Others, s: Store, ids: seq<int>, who: Session, now: Time, duration: int, attempt: nat,
      batch: nat, at: Time, skip: set<int>)
    requires o.atRead(attempt) == s && o.atUpdate(attempt) == Swept(s, batch, at, skip) && !o.deadlock(attempt)
    requires o.atRead(attempt + 1) == Swept(s, batch, at, skip) && o.atUpdate(attempt + 1) == Swept(s, batch, at, skip)
    requires !o.deadlock(attempt + 1)
    ensures var outcome := AcquireSpec(s.db.seats, ids, who, now, duration, true).1;
      var first, second := Try(o, ids, who, now, duration, attempt), Try(o, ids, who, now, duration, attempt + 1);
      if outcome.Exhausted? then first.None?
      else first == Some(outcome) || (first.None? && second == Some(outcome))
  {
    SweepCostsIff(o, s, ids, who, now, duration, attempt, batch, at, skip);
    ElemsCard(ids);
    if AcquireSpec(s.db.seats, ids, who, now, duration, true).1.Acquired? {
      SweptStillAccepted(s, ids, who, now, duration, batch, at, skip);
      QuietTry(o, Swept(s, batch, at, skip), ids, who, now, duration, attempt + 1);
    }
  }

  // ---------------------------------------------------------------- sweeper and extension

  /** sweep_once; `skip` are the rows locked by others. */
  method SweepOnce(session: DbSession, batch: nat, now: Time, skip: set<int>)
      returns (candidates: nat, expired: seq<int>, backlog: nat)
    requires session.work == session.committed
    modifies session
    ensures session.work == session.committed
    ensures session.committed ==
      WithSeats(old(session.committed), SweepSpec(old(session.committed).db.seats, batch, now, skip))
    ensures backlog == |Backlog(old(session.committed).db.seats, now)|
    ensures Elems(expired) == First(Backlog(old(session.committed).db.seats, now) - skip, batch)
    ensures |expired| == candidates
  {
    var t := session.work.db.seats;
    backlog := |Backlog(t, now)|;
    var rows := First(Backlog(t, now) - skip, batch);
    candidates := |rows|;
    var swept;
    swept, expired := ExpireAll(t, rows, now);
    session.work := WithSeats(session.work, swept);
    session.Commit();
  }

  /** Applies expire() to each selected row in turn. */
  method ExpireAll(t: Table, rows: set<int>, now: Time) returns (swept: Table, expired: seq<int>)
    requires forall i :: i in rows ==> i in t && Overdue(t[i], now)
    ensures swept == t + ExpireRows(t, rows, now)
    ensures Elems(expired) == rows && |expired| == |rows|
  {
    var left := rows;
    swept, expired := t, [];
    assert t + ExpireRows(t, rows - left, now) == t && Elems(expired) == rows - left;
    while left != {}
      invariant left <= rows && swept == t + ExpireRows(t, rows - left, now)
      invariant Elems(expired) == rows - left && |expired| + |left| == |rows|
      decreases left
    {
      var i: int := Min(left);
      ExpireOneMore(t, rows - left, i, now);
      ElemsSnoc(expired, i);
      match Expire(swept[i], now) {
        case Err(_) => assert false;
        case Ok(next) => swept, expired := swept[i := next], expired + [i];
      }
      assert rows - (left - {i}) == (rows - left) + {i};
      left := left - {i};
    }
    assert rows - left == rows;
  }

  lemma ElemsSnoc(s: seq<int>, x: int)
    ensures Elems(s + [x]) == Elems(s) + {x}
  {
  }

  lemma ExpireOneMore(t: Table, done: set<int>, i: int, now: Time)
    requires i in t && i !in done && Overdue(t[i], now)
    ensures (t + ExpireRows(t, done, now))[i] == t[i] && Expire(t[i], now).Ok?
    ensures (t + ExpireRows(t, done, now))[i := Expire(t[i], now).value] == t + ExpireRows(t, done + {i}, now)
  {
  }

  /** Each pass takes exactly its batch off the backlog that nobody has locked, so the sweeper keeps up whenever
      it runs. */
  lemma SweepDrains(t: Table, batch: nat, now: Time, skip: set<int>)
    ensures var before, after := Backlog(t, now), Backlog(SweepSpec(t, batch, now, skip), now);
      && after == before - First(before - skip, batch)
      && |after| == |before| - (if |before - skip| <= batch then |before - skip| else batch)
  {
    var before := Backlog(t, now);
    var chosen := First(before - skip, batch);
    var after := Backlog(SweepSpec(t, batch, now, skip), now);
    SweptBacklog(t, chosen, now);
    SubsetCard(chosen, before - skip);
    assert |before| == |chosen| + |after| by { assert before == chosen + after && chosen !! after; }
  }

  lemma SweptBacklog(t: Table, chosen: set<int>, now: Time)
    requires chosen <= Backlog(t, now)
    ensures Backlog(t + ExpireRows(t, chosen, now), now) == Backlog(t, now) - chosen
  {
    var after := Backlog(t + ExpireRows(t, chosen, now), now);
    assert forall i :: i in after <==> i in Backlog(t, now) && i !in chosen;
  }

  /** extend_hold_at */
  method ExtendHoldAt(session: DbSession, seat: int, who: Session, now: Time, until: Time) returns (ok: bool)
    requires session.work == session.committed
    modifies session
    ensures session.work == session.committed
    ensures (session.committed, ok) ==
      var (t, o) := ExtendSpec(old(session.committed).db.seats, seat, who, now, until);
      (WithSeats(old(session.committed), t), o)
  {
    var t := session.work.db.seats;
    var matched := set i | i in t && i == seat && HeldLive(t[i], who, now);
    session.work := WithSeats(session.work, t + map i | i in matched :: ExtendRow(t[i], until));
    if matched == {} {
      session.Rollback();
      return false;
    }
    assert seat in matched;
    assert session.work.db.seats == t[seat := ExtendRow(t[seat], until)];
    session.Commit();
    ok := true;
  }

  /** An extension goes through exactly when the ledger allows it; the hold is then live exactly until the
      new expiry. */
  lemma ExtendIsExtend(db: Db, seat: int, who: Session, now: Time, until: Time)
    ensures var (t, ok) := ExtendSpec(db.seats, seat, who, now, until);
      && (ok <==> Legal(db, ExtendOp(seat, who, now, until)))
      && (ok ==> db.(seats := t) == Apply(db, ExtendOp(seat, who, now, until)))
      && (ok ==> seat in t && forall later :: HeldLive(t[seat], who, later) <==> later < until)
      && (!ok ==> t == db.seats)
  {
  }
}
