/** A transaction that nobody disturbs: it succeeds exactly when the operation it stands for is legal, and then the
    tables are those of that operation. This is what keeps the theorems about runs from being about runs in
    which nothing ever commits. */
module Alone {
  import opened SeatMachine
  import opened Collections
  import opened Ledger
  import opened History
  import opened Interleaving
  import opened Refinement
  import opened Progress

  // ---------------------------------------------------------------- what a request stands for

  /** The rows mode (b) and the sweeper choose from, by the domain functions. */
  function Pool(db: Db, r: Request): set<int> {
    match r
    case AnyN(event, _, who, now, _) =>
      set i | i in db.seats && db.seats[i].eventId == event && Hold(db.seats[i], who, now, 1).Ok?
    case Sweep(_, now) => set i | i in db.seats && Expire(db.seats[i], now).Ok?
    case _ => {}
  }

  /** The operation the request stands for. */
  function Goal(db: Db, r: Request): Op {
    match r
    case Optimistic(ids, who, now, duration, _) => HoldOp(Elems(ids), who, now, duration)
    case Pessimistic(ids, who, now, duration) => HoldOp(Elems(ids), who, now, duration)
    case Naive(ids, who, now, duration) => HoldOp(Elems(ids), who, now, duration)
    case AnyN(_, count, who, now, duration) => HoldOp(First(Pool(db, r), count), who, now, duration)
    case Sweep(batch, now) => ExpireOp(First(Pool(db, r), batch), now)
    case Extension(seat, who, now, until) => ExtendOp(seat, who, now, until)
    case Confirmation(bid, _, _, who, now, key) => ConfirmOp(bid, who, now, key)
    case Refund(bid, _, _, now) => RefundOp(bid, now)
  }

  /** It can be done: the operation is legal; an optimistic list has no duplicates; there are N seats. */
  predicate Possible(db: Db, r: Request) {
    && Legal(db, Goal(db, r))
    && (r.Optimistic? ==> |Elems(r.ids)| == |r.ids|)
    && (r.AnyN? ==> |First(Pool(db, r), r.count)| == r.count)
  }

  // ---------------------------------------------------------------- a client on its own

  /** A step of client c. */
  predicate Of(a: Action, c: int) {
    !a.Tick? && !a.Other? && a.c == c
  }

  /** run' goes on from run with steps of client c only. */
  ghost predicate GoesOn(run: seq<Action>, run': seq<Action>, c: int) {
    run <= run' && forall k :: |run| <= k < |run'| ==> Of(run'[k], c)
  }

  /** Everybody but c is done, so nobody but c holds a lock. */
  ghost predicate OthersDone(w: World, c: int) {
    forall d :: d in w.clients && d != c ==> w.clients[d].phase.Done?
  }

  /** What a client knows when the tables have not changed since it started. */
  ghost predicate Track(db: Db, cl: Client) {
    match cl.phase
    case Read(rows) => cl.req.Optimistic? && rows == Restrict(db.seats, Elems(cl.req.ids))
    case Validated(rows) => cl.req.Optimistic? && rows == Restrict(db.seats, Elems(cl.req.ids))
    case Updating(rows, todo) =>
      && (if cl.req.Optimistic? then rows == Restrict(db.seats, Elems(cl.req.ids)) else rows == map[])
      && (forall i :: i in Hits(db.seats, cl.req, rows) <==> i in cl.locked || i in todo)
    case Locking => cl.req.AnyN? ==> cl.locked.Keys == First(Pool(db, cl.req), cl.req.count)
    case Checked => cl.req.AnyN? || cl.req.Sweep? ==> cl.locked.Keys == First(Pool(db, cl.req), Limit(cl.req))
    case Written(_) => cl.req.AnyN? || cl.req.Sweep? ==> cl.writes.Keys == First(Pool(db, cl.req), Limit(cl.req))
    case _ => true
  }

  ghost predicate Quiet(w: World, db0: Db, c: int, r: Request, base: Db) {
    && WInv(w, db0) && At(w, c) && w.clients[c].req == r && OthersDone(w, c)
    && w.db == base && Track(base, w.clients[c])
  }

  lemma NobodyLocks(w: World, c: int, i: int)
    requires ClientsOk(w) && OthersDone(w, c)
    ensures Free(w, c, i)
  {
    forall d | d in w.clients && d != c ensures i !in w.clients[d].locked {
      assert ClientOk(w.db, w.clients[d]);
    }
  }

  lemma PoolIsCandidates(w: World, c: int)
    requires ClientsOk(w) && OthersDone(w, c) && c in w.clients && (w.clients[c].req.AnyN? || w.clients[c].req.Sweep?)
    requires AllCoherent(w.db.seats)
    ensures Candidates(w, c) == Pool(w.db, w.clients[c].req)
  {
    var r := w.clients[c].req;
    forall i | i in w.db.seats ensures i in Candidates(w, c) <==> i in Pool(w.db, r) {
      NobodyLocks(w, c, i);
      if r.AnyN? { HoldUpdateAgrees(w.db.seats[i], r.who, r.now, 1); }
    }
    assert forall i :: i in Candidates(w, c) <==> i in Pool(w.db, r);
  }

  lemma TrackSelection(w: World, c: int, chosen: set<int>)
    requires ClientsOk(w) && AllCoherent(w.db.seats) && OthersDone(w, c) && Enabled(w, SkipLocked(c, chosen))
    ensures chosen == First(Pool(w.db, w.clients[c].req), Limit(w.clients[c].req))
    ensures var cl := NextClient(w, SkipLocked(c, chosen), w.clients[c]); !cl.phase.Done? ==> Track(w.db, cl)
  {
    PoolIsCandidates(w, c);
    assert Restrict(w.db.seats, chosen).Keys == chosen;
  }

  lemma TrackUpdate(w: World, c: int, i: int)
    requires Enabled(w, UpdateRow(c, i)) && Track(w.db, w.clients[c])
    ensures Matches(w.clients[c].req, w.clients[c].phase.rows, i, w.db.seats[i])
    ensures Track(w.db, NextClient(w, UpdateRow(c, i), w.clients[c]))
  {
    var cl := w.clients[c];
    assert i in Hits(w.db.seats, cl.req, cl.phase.rows);
  }

  lemma TrackWrite(w: World, c: int)
    requires Enabled(w, Write(c)) && ClientOk(w.db, w.clients[c]) && Track(w.db, w.clients[c])
    ensures Track(w.db, NextClient(w, Write(c), w.clients[c]))
  {
    var cl := w.clients[c];
    var cl' := NextClient(w, Write(c), cl);
    if cl.req.AnyN? || cl.req.Sweep? {
      assert First(Pool(w.db, cl.req), Limit(cl.req)) <= Pool(w.db, cl.req);
      assert forall i :: i in cl'.writes.Keys <==> i in cl.locked.Keys;
    }
  }

  /** Whatever it does, a client on its own keeps track. */
  lemma TrackStep(w: World, c: int, a: Action)
    requires ClientsOk(w) && AllCoherent(w.db.seats) && OthersDone(w, c)
    requires Local(a) && a.c == c && Enabled(w, a) && Track(w.db, w.clients[c])
    ensures var cl := NextClient(w, a, w.clients[c]); !cl.phase.Done? ==> Track(w.db, cl)
  {
    match a
    case SkipLocked(_, chosen) => TrackSelection(w, c, chosen);
    case UpdateRow(_, i) => TrackUpdate(w, c, i);
    case Write(_) => TrackWrite(w, c);
    case _ =>
  }

  // ---------------------------------------------------------------- success means the operation

  /** What is committed is what the request stands for. */
  lemma CommitsGoal(w: World, db0: Db, c: int, r: Request, base: Db)
    requires Quiet(w, db0, c, r, base) && Enabled(w, Commit(c))
    ensures TxOp(w.clients[c]) == Goal(base, r) && Possible(base, r)
    ensures Do(w, Commit(c)).db == Apply(base, Goal(base, r))
  {
    var cl := w.clients[c];
    assert ClientOk(w.db, cl);
    WritesAreApply(w.db, cl);
    if r.Optimistic? { ElemsCard(r.ids); }
  }

  /** What a step leaves of a quiet world. */
  ghost predicate StillQuiet(w': World, db0: Db, c: int, r: Request, base: Db) {
    && WInv(w', db0) && c in w'.clients && w'.clients[c].req == r && OthersDone(w', c)
    && (At(w', c) ==> Quiet(w', db0, c, r, base))
    && (w'.clients[c].phase == Done(true) ==> Possible(base, r) && w'.db == Apply(base, Goal(base, r)))
    && (w'.clients[c].phase == Done(false) ==> w'.db == base)
  }

  lemma QuietLocal(w: World, db0: Db, c: int, r: Request, base: Db, a: Action)
    requires Quiet(w, db0, c, r, base) && Enabled(w, a) && Local(a) && a.c == c && WInv(Do(w, a), db0)
    ensures StillQuiet(Do(w, a), db0, c, r, base)
  {
    TrackStep(w, c, a);
    LocalTakesFreeRows(w, a);
    assert Do(w, a) == w.(clients := w.clients[c := NextClient(w, a, w.clients[c])]);
  }

  lemma QuietCommit(w: World, db0: Db, c: int, r: Request, base: Db)
    requires Quiet(w, db0, c, r, base) && Enabled(w, Commit(c)) && WInv(Do(w, Commit(c)), db0)
    ensures StillQuiet(Do(w, Commit(c)), db0, c, r, base)
  {
    CommitsGoal(w, db0, c, r, base);
    CommitEnds(w, c);
    assert OthersDone(Do(w, Commit(c)), c);
  }

  lemma CommitEnds(w: World, c: int)
    requires Enabled(w, Commit(c))
    ensures var w' := Do(w, Commit(c));
      && c in w'.clients && w'.clients[c].phase == Done(true) && w'.clients[c].req == w.clients[c].req
      && w'.clients.Keys == w.clients.Keys && forall d :: d in w.clients && d != c ==> w'.clients[d] == w.clients[d]
  {
  }

  lemma QuietStep(w: World, db0: Db, c: int, r: Request, base: Db, a: Action)
    requires Quiet(w, db0, c, r, base) && Enabled(w, a) && Protocol(a) && ((Of(a, c) && !a.Begin?) || a.Tick?)
    ensures StillQuiet(Do(w, a), db0, c, r, base)
  {
    StepKeepsWInv(w, a, db0);
    if a.Commit? {
      QuietCommit(w, db0, c, r, base);
    } else if !a.Tick? {
      QuietLocal(w, db0, c, r, base, a);
    }
  }

  /** The client is where steps of its own, and the clock, have brought it. */
  ghost predicate OwnRun(run: seq<Action>, c: int) {
    forall k :: 0 <= k < |run| ==> run[k].Tick? || (Of(run[k], c) && !run[k].Begin?)
  }

  ghost predicate Outcome(w: World, c: int, r: Request, base: Db) {
    && c in w.clients
    && (w.clients[c].phase == Done(true) ==> Possible(base, r) && w.db == Apply(base, Goal(base, r)))
    && (w.clients[c].phase != Done(true) ==> w.db == base)
  }

  /** Undisturbed, a client succeeds only if what it stands for is possible, and then it has done exactly that; and
      as long as it has not succeeded, nothing has changed. */
  lemma {:induction false} SuccessMeansGoal(w: World, db0: Db, c: int, r: Request, run: seq<Action>)
    requires Quiet(w, db0, c, r, w.db) && w.clients[c].phase.Start? && Runs(w, run) && Safe(run) && OwnRun(run, c)
    ensures Outcome(Exec(w, run), c, r, w.db)
    ensures WInv(Exec(w, run), db0) && OthersDone(Exec(w, run), c) && Exec(w, run).clients[c].req == r
    ensures At(Exec(w, run), c) ==> Quiet(Exec(w, run), db0, c, r, w.db)
  {
    if run != [] {
      var n := |run| - 1;
      RunsPrefix(w, run, n);
      assert Safe(run[..n]) && OwnRun(run[..n], c);
      SuccessMeansGoal(w, db0, c, r, run[..n]);
      var mid := Exec(w, run[..n]);
      LastStep(mid, db0, c, r, w.db, run[n]);
    }
  }

  lemma LastStep(w: World, db0: Db, c: int, r: Request, base: Db, a: Action)
    requires Outcome(w, c, r, base) && WInv(w, db0) && OthersDone(w, c) && w.clients[c].req == r
    requires At(w, c) ==> Quiet(w, db0, c, r, base)
    requires Enabled(w, a) && Protocol(a) && (a.Tick? || (Of(a, c) && !a.Begin?))
    ensures var w' := Do(w, a);
      && Outcome(w', c, r, base) && WInv(w', db0) && OthersDone(w', c) && w'.clients[c].req == r
      && (At(w', c) ==> Quiet(w', db0, c, r, base))
  {
    if At(w, c) {
      QuietStep(w, db0, c, r, base, a);
    } else {
      StepKeepsWInv(w, a, db0);
    }
  }

  // ---------------------------------------------------------------- and it does succeed

  function Rank(p: Phase): nat {
    match p
    case Start => 9
    case Read(_) => 8
    case Validated(_) => 7
    case Marked => 7
    case Updating(_, _) => 6
    case Locking => 6
    case Checked => 5
    case Seated => 4
    case Linked => 3
    case Written(_) => 2
    case Done(_) => 0
  }

  /** Rows still to be locked. */
  function Left(w: World, cl: Client): nat {
    if cl.phase.Updating? then |cl.phase.todo| else if cl.req.Pessimistic? then |ToLock(w, cl)| else 0
  }

  /** On the way: neither given up nor about to. */
  predicate Sure(cl: Client) {
    cl.phase != Written(false) && cl.phase != Done(false)
  }

  /** The UPDATE picks every row it names. */
  lemma PicksAll(db: Db, r: Request, rows: Table)
    requires AllCoherent(db.seats) && Possible(db, r) && Loaded(db, r)
    requires r.Optimistic? || r.Extension? || r.Confirmation?
    requires r.Optimistic? ==> rows == Restrict(db.seats, Elems(r.ids))
    ensures forall i :: Listed(r, i) <==> i in Hits(db.seats, r, rows)
  {
    forall i | Listed(r, i) ensures i in Hits(db.seats, r, rows) {
      match r
      case Optimistic(ids, who, now, duration, _) =>
        assert i in Elems(ids);
        HoldUpdateAgrees(db.seats[i], who, now, duration);
      case Confirmation(bid, _, ids, who, now, _) =>
        ConfirmUpdateAgrees(db.seats[i], who, bid, now);
      case Extension(_, _, _, _) =>
    }
  }

  lemma CountIsFull(w: World, c: int, base: Db)
    requires AllCoherent(base.seats) && w.db == base && Enabled(w, EndUpdate(c)) && ClientOk(base, w.clients[c])
    requires Track(base, w.clients[c]) && Possible(base, w.clients[c].req)
    ensures Sure(NextClient(w, EndUpdate(c), w.clients[c]))
  {
    var cl := w.clients[c];
    var r := cl.req;
    if !r.Refund? {
      PicksAll(base, r, cl.phase.rows);
      assert forall i :: i in cl.writes.Keys <==> Listed(r, i);
      if r.Extension? {
        assert r.seat in cl.writes.Keys;
      } else {
        assert forall i :: i in cl.writes.Keys <==> i in Elems(r.ids);
        assert cl.writes.Keys == Elems(r.ids);
      }
    }
  }

  lemma AllPass(w: World, c: int, base: Db)
    requires w.db == base && Enabled(w, CheckLocked(c)) && ClientOk(base, w.clients[c])
    requires Track(base, w.clients[c]) && Possible(base, w.clients[c].req)
    ensures Sure(NextClient(w, CheckLocked(c), w.clients[c]))
  {
    var cl := w.clients[c];
    var r := cl.req;
    if r.Pessimistic? {
      forall i | i in Elems(r.ids) ensures i in cl.locked && Hold(cl.locked[i], r.who, r.now, r.duration).Ok? {
        assert i !in ToLock(w, cl);
      }
    }
  }

  lemma SmoothStart(w: World, c: int, base: Db, a: Action)
    requires w.db == base && Enabled(w, a) && (a.SelectRows? || a.Validate?) && a.c == c && ClientOk(base, w.clients[c])
    requires Track(base, w.clients[c]) && Possible(base, w.clients[c].req)
    ensures Sure(NextClient(w, a, w.clients[c]))
  {
    var r := w.clients[c].req;
    assert forall i :: i in r.ids <==> i in Elems(r.ids);
  }

  lemma SmoothBooking(w: World, c: int, base: Db, a: Action)
    requires w.db == base && Enabled(w, a) && (a.InsertLinks? || a.UpdateBooking? || a.MarkRefunded?) && a.c == c
    requires Loaded(base, w.clients[c].req) && Possible(base, w.clients[c].req)
    ensures Sure(NextClient(w, a, w.clients[c]))
  {
  }

  /** If what it stands for is possible, no statement makes it give up. */
  lemma Smooth(w: World, db0: Db, c: int, r: Request, base: Db, a: Action)
    requires Quiet(w, db0, c, r, base) && Possible(base, r) && Sure(w.clients[c])
    requires Enabled(w, a) && Protocol(a) && Forward(a) && a.c == c
    ensures Sure(NextClient(w, a, w.clients[c]))
  {
    assert ClientOk(base, w.clients[c]);
    if a.SelectRows? || a.Validate? {
      SmoothStart(w, c, base, a);
    } else if a.EndUpdate? {
      CountIsFull(w, c, base);
    } else if a.CheckLocked? {
      AllPass(w, c, base);
    } else if a.SkipLocked? {
      TrackSelection(w, c, a.chosen);
    } else if a.InsertLinks? || a.UpdateBooking? || a.MarkRefunded? {
      SmoothBooking(w, c, base, a);
    }
  }

  lemma StepIsNext(w: World, a: Action, c: int)
    requires Enabled(w, a) && Protocol(a) && Forward(a) && a.c == c
    ensures c in w.clients && c in Do(w, a).clients && Do(w, a).clients[c] == NextClient(w, a, w.clients[c])
  {
  }

  predicate Less(w: World, cl': Client, cl: Client) {
    Rank(cl'.phase) < Rank(cl.phase) || (Rank(cl'.phase) == Rank(cl.phase) && Left(w, cl') < Left(w, cl))
  }

  lemma LockShrinks(w: World, c: int, i: int)
    requires Enabled(w, LockRow(c, i))
    ensures Less(w, NextClient(w, LockRow(c, i), w.clients[c]), w.clients[c])
  {
    var cl, cl' := w.clients[c], NextClient(w, LockRow(c, i), w.clients[c]);
    assert ToLock(w, cl') == ToLock(w, cl) - {i};
  }

  lemma UpdateShrinks(w: World, c: int, i: int)
    requires Enabled(w, UpdateRow(c, i))
    ensures Less(w, NextClient(w, UpdateRow(c, i), w.clients[c]), w.clients[c])
  {
    var cl, cl' := w.clients[c], NextClient(w, UpdateRow(c, i), w.clients[c]);
    assert cl'.phase.todo == cl.phase.todo - {i};
  }

  lemma RankDrops(w: World, c: int, a: Action)
    requires Enabled(w, a) && Protocol(a) && Forward(a) && a.c == c && !a.Conflict? && !a.LockRow? && !a.UpdateRow?
    ensures Rank(NextClient(w, a, w.clients[c]).phase) < Rank(w.clients[c].phase)
  {
  }

  lemma Shrinks(w: World, c: int, a: Action)
    requires Enabled(w, a) && Protocol(a) && Forward(a) && a.c == c && !a.Conflict?
    ensures Less(w, NextClient(w, a, w.clients[c]), w.clients[c])
  {
    if a.LockRow? {
      LockShrinks(w, c, a.i);
    } else if a.UpdateRow? {
      UpdateShrinks(w, c, a.i);
    } else {
      RankDrops(w, c, a);
    }
  }

  lemma NoBookingHeld(w: World, c: int, r: Request)
    requires OthersDone(w, c)
    ensures (r.Confirmation? || r.Refund? ==> BookingFree(w, c, r.bid)) && ClaimFree(w, c, r)
  {
  }

  lemma StarterMovesOn(w: World, c: int) returns (a: Action)
    requires ClientsOk(w) && At(w, c) && OthersDone(w, c) && w.clients[c].phase.Start?
    ensures Forward(a) && a.c == c && Enabled(w, a) && Protocol(a) && !a.Conflict?
  {
    var r := w.clients[c].req;
    assert ClientOk(w.db, w.clients[c]);
    a := BeginUpdate(c);
    if r.Optimistic? {
      a := SelectRows(c);
    } else if r.Pessimistic? {
      a := LockerMovesOn(w, c);
    } else if r.AnyN? || r.Sweep? {
      a := SkipLocked(c, First(Candidates(w, c), Limit(r)));
    } else if r.Refund? {
      NoBookingHeld(w, c, r);
      a := MarkRefunded(c);
    }
  }

  lemma LockerMovesOn(w: World, c: int) returns (a: Action)
    requires ClientsOk(w) && At(w, c) && OthersDone(w, c) && w.clients[c].req.Pessimistic?
    requires w.clients[c].phase.Start? || w.clients[c].phase.Locking?
    ensures Forward(a) && a.c == c && Enabled(w, a) && Protocol(a) && !a.Conflict?
  {
    var need := ToLock(w, w.clients[c]);
    a := CheckLocked(c);
    if need != {} {
      NobodyLocks(w, c, Min(need));
      a := LockRow(c, Min(need));
    }
  }

  lemma UpdaterMovesOn(w: World, c: int) returns (a: Action)
    requires ClientsOk(w) && At(w, c) && OthersDone(w, c) && w.clients[c].phase.Updating?
    ensures Forward(a) && a.c == c && Enabled(w, a) && Protocol(a) && !a.Conflict?
  {
    assert ClientOk(w.db, w.clients[c]);
    var todo := w.clients[c].phase.todo;
    a := EndUpdate(c);
    if todo != {} {
      NobodyLocks(w, c, Min(todo));
      a := UpdateRow(c, Min(todo));
    }
  }

  /** It always has a next statement. */
  lemma MovesOn(w: World, c: int) returns (a: Action)
    requires ClientsOk(w) && At(w, c) && OthersDone(w, c) && Sure(w.clients[c])
    ensures Forward(a) && a.c == c && Enabled(w, a) && Protocol(a) && !a.Conflict?
  {
    var cl := w.clients[c];
    assert ClientOk(w.db, cl);
    a := BeginUpdate(c);
    match cl.phase {
      case Start => a := StarterMovesOn(w, c);
      case Read(_) => a := Validate(c);
      case Updating(_, _) => a := UpdaterMovesOn(w, c);
      case Locking => if cl.req.AnyN? { a := CheckLocked(c); } else { a := LockerMovesOn(w, c); }
      case Checked => a := Write(c);
      case Seated => a := InsertLinks(c);
      case Linked =>
        NoBookingHeld(w, c, cl.req);
        a := UpdateBooking(c);
      case Written(_) => a := Commit(c);
      case _ =>
    }
  }

  lemma OneMore(w: World, db0: Db, c: int, r: Request, run: seq<Action>, base: Db) returns (run': seq<Action>)
    requires Runs(w, run) && Safe(run) && OwnRun(run, c)
    requires Quiet(Exec(w, run), db0, c, r, base) && Possible(base, r) && Sure(Exec(w, run).clients[c])
    ensures Runs(w, run') && Safe(run') && OwnRun(run', c)
    ensures var v, v' := Exec(w, run), Exec(w, run');
      && c in v'.clients && Sure(v'.clients[c])
      && (if At(v', c) then Quiet(v', db0, c, r, base) && Less(v', v'.clients[c], v.clients[c])
          else v'.db == Apply(base, Goal(base, r)))
  {
    var v := Exec(w, run);
    var a := MovesOn(v, c);
    Smooth(v, db0, c, r, base, a);
    Shrinks(v, c, a);
    StepIsNext(v, a, c);
    QuietStep(v, db0, c, r, base, a);
    RunsSnoc(w, run, a);
    run' := run + [a];
    ghost var v' := Do(v, a);
    if At(v', c) { SameLeft(v, v', v'.clients[c]); }
  }

  lemma SameLeft(v: World, v': World, cl: Client)
    requires v'.db == v.db
    ensures Left(v', cl) == Left(v, cl)
  {
    if cl.req.Pessimistic? { assert ToLock(v', cl) == ToLock(v, cl); }
  }

  lemma GoesThrough(w: World, db0: Db, c: int, r: Request, run: seq<Action>, base: Db) returns (run': seq<Action>)
    requires Runs(w, run) && Safe(run) && OwnRun(run, c)
    requires Quiet(Exec(w, run), db0, c, r, base) && Possible(base, r) && Sure(Exec(w, run).clients[c])
    ensures Runs(w, run') && Safe(run') && OwnRun(run', c)
    ensures var v' := Exec(w, run');
      c in v'.clients && v'.clients[c].phase == Done(true) && v'.db == Apply(base, Goal(base, r))
    decreases Rank(Exec(w, run).clients[c].phase), Left(Exec(w, run), Exec(w, run).clients[c])
  {
    run' := OneMore(w, db0, c, r, run, base);
    if At(Exec(w, run'), c) {
      assert Left(Exec(w, run), Exec(w, run').clients[c]) == Left(Exec(w, run'), Exec(w, run').clients[c]) by {
        SameLeft(Exec(w, run), Exec(w, run'), Exec(w, run').clients[c]);
      }
      run' := GoesThrough(w, db0, c, r, run', base);
    }
  }

  // ---------------------------------------------------------------- the theorem

  /** The request has a run of its own that succeeds. */
  ghost predicate CanSucceed(w: World, c: int) {
    exists run :: Runs(w, run) && Safe(run) && OwnRun(run, c)
      && c in Exec(w, run).clients && Exec(w, run).clients[c].phase == Done(true)
  }

  /** A client that is about to start an attempt, while everybody else is done. */
  ghost predicate AboutToStart(w: World, db0: Db, c: int) {
    WInv(w, db0) && At(w, c) && w.clients[c].phase.Start? && OthersDone(w, c)
  }

  /** Undisturbed, a transaction of any kind succeeds if and only if the operation it stands for is possible in the
      tables as they are; it then leaves exactly the tables of that operation, and otherwise changes nothing. */
  lemma UndisturbedSucceedsIffPossible(w: World, db0: Db, c: int)
    requires AboutToStart(w, db0, c)
    ensures CanSucceed(w, c) <==> Possible(w.db, w.clients[c].req)
    ensures forall run :: Runs(w, run) && Safe(run) && OwnRun(run, c) ==>
      Outcome(Exec(w, run), c, w.clients[c].req, w.db)
  {
    var r := w.clients[c].req;
    assert Quiet(w, db0, c, r, w.db);
    forall run | Runs(w, run) && Safe(run) && OwnRun(run, c) ensures Outcome(Exec(w, run), c, r, w.db) {
      SuccessMeansGoal(w, db0, c, r, run);
    }
    if Possible(w.db, r) {
      var run := GoesThrough(w, db0, c, r, [], w.db);
    }
  }

  /** In particular from the start: a request that begins in an initial world. */
  lemma BeginsAboutToStart(w0: World, c: int, r: Request)
    requires Initial(w0) && !r.Naive? && r.now <= w0.clock && Loaded(w0.db, r) && (r.Optimistic? ==> r.maxAttempts > 0)
    ensures Enabled(w0, Begin(c, r)) && AboutToStart(Do(w0, Begin(c, r)), w0.db, c)
    ensures Do(w0, Begin(c, r)).db == w0.db && Do(w0, Begin(c, r)).clients[c].req == r
  {
    Reachable(w0, []);
    StepKeepsWInv(w0, Begin(c, r), w0.db);
  }

  /** A conflict or a deadlock costs an optimistic client one attempt of its budget, and nothing else: as long as
      there is one left, it is about to start again, and what it can do then is up to the tables as they are. */
  lemma ConflictCostsOneAttempt(w: World, db0: Db, c: int, a: Action)
    requires WInv(w, db0) && At(w, c) && w.clients[c].req.Optimistic? && OthersDone(w, c)
    requires (a == Conflict(c) || a == DeadlockVictim(c)) && Enabled(w, a)
    ensures var w' := Do(w, a); var r := w.clients[c].req;
      && w'.db == w.db && c in w'.clients && w'.clients[c].req == r
      && (if w.clients[c].attempt < r.maxAttempts
          then AboutToStart(w', db0, c) && w'.clients[c].attempt == w.clients[c].attempt + 1
          else w'.clients[c].phase == Done(false))
  {
    StepKeepsWInv(w, a, db0);
  }

  /** Nor are the others shut out: with every transaction done, creating a booking and demanding a refund go through
      exactly when they are legal, and the clock can always move on. */
  lemma OthersGoThrough(w: World, db0: Db, op: Op)
    requires WInv(w, db0) && (op.CreateOp? || op.LateOp?) && Now(op) <= w.clock
    requires forall c :: c in w.clients ==> w.clients[c].phase.Done?
    ensures Enabled(w, Other(op)) <==> Legal(w.db, op)
    ensures Legal(w.db, op) ==> Do(w, Other(op)).db == Apply(w.db, op)
    ensures forall t :: w.clock <= t ==> Enabled(w, Tick(t)) && Do(w, Tick(t)) == w.(clock := t)
  {
    forall c | c in w.clients ensures Compatible(w.db, op, w.clients[c]) {
      assert ClientOk(w.db, w.clients[c]);
    }
  }

  /** A client can give up at any time, and leaves nothing behind. */
  lemma MayAlwaysGiveUp(w: World, db0: Db, c: int)
    requires WInv(w, db0) && At(w, c)
    ensures Enabled(w, Abort(c))
    ensures var w' := Do(w, Abort(c));
      && w'.db == w.db && w'.log == w.log && w'.clients.Keys == w.clients.Keys
      && w'.clients[c].phase == Done(false) && w'.clients[c].locked == map[]
      && forall d :: d in w.clients && d != c ==> w'.clients[d] == w.clients[d]
  {
  }
}
