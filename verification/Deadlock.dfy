/** Deadlocks do happen: for two transactions over the same pair of seats, exactly when one of them locks by a
    multi-row UPDATE. */
module Deadlock {
  import opened SeatMachine
  import opened Collections
  import opened Ledger
  import opened History
  import opened Interleaving
  import opened Refinement
  import opened Progress

  // ---------------------------------------------------------------- a pair of seats

  /** The request, started now, goes for rows i and j and no others: it passes every check up to the statement
      that locks them, and that statement picks both. */
  predicate OverPair(db: Db, r: Request, i: int, j: int) {
    && i in db.seats && j in db.seats && Loaded(db, r)
    && match r
       case Pessimistic(ids, _, _, _) => Elems(ids) == {i, j}
       case Optimistic(ids, who, now, duration, maxAttempts) =>
         Elems(ids) == {i, j} && maxAttempts > 0 && AllHoldable(db.seats, {i, j}, who, now, duration)
       case Confirmation(_, _, ids, who, now, _) =>
         Elems(ids) == {i, j} && HeldLive(db.seats[i], who, now) && HeldLive(db.seats[j], who, now)
       case Refund(bid, _, ids, _) =>
         && Elems(ids) == {i, j} && HasStatus(db, bid, CONFIRMED)
         && BookedFor(db.seats[i], bid) && BookedFor(db.seats[j], bid)
       case _ => false
  }

  lemma OrderedIffNoUpdate(db: Db, r: Request, i: int, j: int)
    requires OverPair(db, r, i, j) && i != j
    ensures Ordered(r) <==> !Updates(r)
  {
    assert |{i, j}| == 2;
  }

  /** The run begins nothing but request ra for client a and request rb for client b. */
  ghost predicate Begins(run: seq<Action>, a: int, ra: Request, b: int, rb: Request) {
    forall k :: 0 <= k < |run| && run[k].Begin? ==> run[k] == Begin(a, ra) || run[k] == Begin(b, rb)
  }

  /** A run of these two, and the world it leads to. */
  ghost predicate Duel(w0: World, run: seq<Action>, a: int, ra: Request, b: int, rb: Request) {
    Runs(w0, run) && Safe(run) && Begins(run, a, ra, b, rb)
  }

  lemma DuelOn(w0: World, run: seq<Action>, a: int, ra: Request, b: int, rb: Request, act: Action)
      returns (run': seq<Action>)
    requires Duel(w0, run, a, ra, b, rb) && Protocol(act) && Enabled(Exec(w0, run), act)
    requires act.Begin? ==> act == Begin(a, ra) || act == Begin(b, rb)
    ensures Duel(w0, run', a, ra, b, rb) && Exec(w0, run') == Do(Exec(w0, run), act)
  {
    RunsSnoc(w0, run, act);
    run' := run + [act];
  }

  /** Between the two worlds only client c has moved. */
  ghost predicate OnlyMoved(w: World, w': World, c: int) {
    && w'.db == w.db && w'.clock == w.clock && c in w'.clients
    && w'.clients.Keys == w.clients.Keys + {c}
    && forall d :: d in w.clients && d != c ==> w'.clients[d] == w.clients[d]
  }

  lemma MovedOn(w: World, w1: World, w2: World, c: int)
    requires OnlyMoved(w, w1, c) && OnlyMoved(w1, w2, c)
    ensures OnlyMoved(w, w2, c)
  {
  }

  // ---------------------------------------------------------------- an UPDATE about to lock the pair

  /** The client has started an UPDATE that is about to lock rows i and j. */
  ghost predicate Poised(t: Table, cl: Client, i: int, j: int) {
    && Updates(cl.req) && cl.phase.Updating? && cl.phase.todo == {i, j} && cl.locked == map[] && cl.writes == map[]
    && i in t && j in t && Matches(cl.req, cl.phase.rows, i, t[i]) && Matches(cl.req, cl.phase.rows, j, t[j])
  }

  /** A client that has just started. */
  predicate Fresh(w: World, c: int, r: Request) {
    c in w.clients && w.clients[c] == Client(r, Start, 1, map[], map[])
  }

  lemma Starts(w: World, c: int, r: Request)
    requires c !in w.clients && r.now <= w.clock && Loaded(w.db, r) && (r.Optimistic? ==> r.maxAttempts > 0)
    ensures Enabled(w, Begin(c, r)) && OnlyMoved(w, Do(w, Begin(c, r)), c) && Fresh(Do(w, Begin(c, r)), c, r)
  {
  }

  lemma HitsPair(w: World, r: Request, rows: Table, i: int, j: int)
    requires OverPair(w.db, r, i, j) && Updates(r)
    requires r.Optimistic? ==> rows == Restrict(w.db.seats, {i, j})
    ensures Hits(w.db.seats, r, rows) == {i, j}
  {
    if r.Optimistic? {
      assert i in {i, j} && j in {i, j};
      HoldUpdateAgrees(w.db.seats[i], r.who, r.now, r.duration);
      HoldUpdateAgrees(w.db.seats[j], r.who, r.now, r.duration);
    }
    assert forall k :: k in r.ids <==> k in Elems(r.ids);
    assert forall k :: k in Hits(w.db.seats, r, rows) <==> k == i || k == j;
  }

  lemma ReadsPair(w: World, c: int, r: Request, i: int, j: int)
    requires Fresh(w, c, r) && OverPair(w.db, r, i, j) && r.Optimistic?
    ensures Enabled(w, SelectRows(c)) && OnlyMoved(w, Do(w, SelectRows(c)), c)
    ensures Do(w, SelectRows(c)).clients[c] == Client(r, Read(Restrict(w.db.seats, {i, j})), 1, map[], map[])
  {
    assert forall k :: k in r.ids ==> k in Elems(r.ids);
  }

  lemma ValidatesPair(w: World, c: int, r: Request, i: int, j: int)
    requires c in w.clients && w.clients[c] == Client(r, Read(Restrict(w.db.seats, {i, j})), 1, map[], map[])
    requires OverPair(w.db, r, i, j) && r.Optimistic?
    ensures Enabled(w, Validate(c)) && OnlyMoved(w, Do(w, Validate(c)), c)
    ensures Do(w, Validate(c)).clients[c] == Client(r, Validated(Restrict(w.db.seats, {i, j})), 1, map[], map[])
  {
  }

  lemma MarksPair(w: World, c: int, r: Request, i: int, j: int)
    requires Fresh(w, c, r) && OverPair(w.db, r, i, j) && r.Refund? && BookingFree(w, c, r.bid)
    ensures Enabled(w, MarkRefunded(c)) && OnlyMoved(w, Do(w, MarkRefunded(c)), c)
    ensures Do(w, MarkRefunded(c)).clients[c] == Client(r, Marked, 1, map[], map[])
  {
  }

  lemma UpdatesPair(w: World, c: int, i: int, j: int)
    requires c in w.clients && OverPair(w.db, w.clients[c].req, i, j) && MayUpdate(w.clients[c])
    requires w.clients[c].locked == map[] && w.clients[c].writes == map[]
    requires w.clients[c].req.Optimistic? ==> w.clients[c].phase.rows == Restrict(w.db.seats, {i, j})
    ensures Enabled(w, BeginUpdate(c)) && OnlyMoved(w, Do(w, BeginUpdate(c)), c)
    ensures Poised(w.db.seats, Do(w, BeginUpdate(c)).clients[c], i, j)
  {
    var cl := w.clients[c];
    var rows := if cl.phase.Validated? then cl.phase.rows else map[];
    HitsPair(w, cl.req, rows, i, j);
    assert i in Hits(w.db.seats, cl.req, rows) && j in Hits(w.db.seats, cl.req, rows);
  }

  /** The client has come to its UPDATE, with the rows it read if it is optimistic. */
  ghost predicate AtUpdate(w: World, c: int, r: Request, i: int, j: int) {
    && c in w.clients && w.clients[c].req == r && MayUpdate(w.clients[c])
    && w.clients[c].locked == map[] && w.clients[c].writes == map[]
    && (r.Optimistic? ==> w.clients[c].phase.rows == Restrict(w.db.seats, {i, j}))
  }

  lemma OptimisticComes(w0: World, run: seq<Action>, a: int, ra: Request, b: int, rb: Request, c: int, r: Request,
      i: int, j: int)
      returns (run': seq<Action>)
    requires Duel(w0, run, a, ra, b, rb) && Fresh(Exec(w0, run), c, r)
    requires OverPair(Exec(w0, run).db, r, i, j) && r.Optimistic?
    ensures Duel(w0, run', a, ra, b, rb) && OnlyMoved(Exec(w0, run), Exec(w0, run'), c)
    ensures AtUpdate(Exec(w0, run'), c, r, i, j)
  {
    ghost var w := Exec(w0, run);
    ReadsPair(w, c, r, i, j);
    run' := DuelOn(w0, run, a, ra, b, rb, SelectRows(c));
    ghost var w1 := Exec(w0, run');
    ValidatesPair(w1, c, r, i, j);
    run' := DuelOn(w0, run', a, ra, b, rb, Validate(c));
    MovedOn(w, w1, Exec(w0, run'), c);
  }

  lemma Comes(w0: World, run: seq<Action>, a: int, ra: Request, b: int, rb: Request, c: int, r: Request, i: int, j: int)
      returns (run': seq<Action>)
    requires Duel(w0, run, a, ra, b, rb) && Fresh(Exec(w0, run), c, r)
    requires OverPair(Exec(w0, run).db, r, i, j) && Updates(r) && (r.Refund? ==> BookingFree(Exec(w0, run), c, r.bid))
    ensures Duel(w0, run', a, ra, b, rb) && OnlyMoved(Exec(w0, run), Exec(w0, run'), c)
    ensures AtUpdate(Exec(w0, run'), c, r, i, j)
  {
    run' := run;
    if r.Optimistic? {
      run' := OptimisticComes(w0, run, a, ra, b, rb, c, r, i, j);
    } else if r.Refund? {
      MarksPair(Exec(w0, run), c, r, i, j);
      run' := DuelOn(w0, run, a, ra, b, rb, MarkRefunded(c));
    }
  }

  /** Any UPDATE over the pair can get there, unless another refund has the booking. */
  lemma Poise(w0: World, run: seq<Action>, a: int, ra: Request, b: int, rb: Request, c: int, r: Request, i: int, j: int)
      returns (run': seq<Action>)
    requires Duel(w0, run, a, ra, b, rb) && ((c == a && r == ra) || (c == b && r == rb))
    requires c !in Exec(w0, run).clients && r.now <= Exec(w0, run).clock
    requires OverPair(Exec(w0, run).db, r, i, j) && Updates(r) && (r.Refund? ==> BookingFree(Exec(w0, run), c, r.bid))
    ensures Duel(w0, run', a, ra, b, rb) && OnlyMoved(Exec(w0, run), Exec(w0, run'), c)
    ensures Poised(Exec(w0, run').db.seats, Exec(w0, run').clients[c], i, j)
  {
    ghost var w := Exec(w0, run);
    Starts(w, c, r);
    run' := DuelOn(w0, run, a, ra, b, rb, Begin(c, r));
    ghost var w1 := Exec(w0, run');
    run' := Comes(w0, run', a, ra, b, rb, c, r, i, j);
    ghost var w2 := Exec(w0, run');
    MovedOn(w, w1, w2, c);
    UpdatesPair(w2, c, i, j);
    run' := DuelOn(w0, run', a, ra, b, rb, BeginUpdate(c));
    MovedOn(w, w2, Exec(w0, run'), c);
  }

  // ---------------------------------------------------------------- each holds what the other needs

  /** Client c holds row i and has only row j left to lock. */
  ghost predicate Needs(w: World, c: int, i: int, j: int) {
    && c in w.clients && w.clients[c].locked.Keys == {i}
    && (if w.clients[c].phase.Updating? then w.clients[c].phase.todo == {j}
        else w.clients[c].req.Pessimistic? && w.clients[c].phase.Locking? && ToLock(w, w.clients[c]) == {j})
  }

  /** A deadlock of clients a and b over rows i and j: neither can move, nor anybody else. */
  ghost predicate Deadlocked(w: World, a: int, b: int, i: int, j: int) {
    && Cycle(w, [a, b, a], [j, i])
    && (forall act :: Forward(act) ==> !Enabled(w, act))
  }

  lemma NeedsStays(w: World, w': World, c: int, d: int, i: int, j: int)
    requires Needs(w, c, i, j) && OnlyMoved(w, w', d) && d != c
    ensures Needs(w', c, i, j)
  {
    assert w.clients[c].req.Pessimistic? ==> ToLock(w', w'.clients[c]) == ToLock(w, w.clients[c]);
  }

  lemma TakesOne(w: World, c: int, i: int, j: int)
    requires c in w.clients && Poised(w.db.seats, w.clients[c], i, j) && i != j && Free(w, c, i)
    ensures Enabled(w, UpdateRow(c, i)) && OnlyMoved(w, Do(w, UpdateRow(c, i)), c)
    ensures Needs(Do(w, UpdateRow(c, i)), c, i, j)
    ensures Do(w, UpdateRow(c, i)).clients[c].phase.Updating?
  {
  }

  lemma LocksLower(w: World, c: int, r: Request, i: int, j: int)
    requires Fresh(w, c, r) && OverPair(w.db, r, i, j) && r.Pessimistic? && i < j && Free(w, c, i)
    ensures Enabled(w, LockRow(c, i)) && OnlyMoved(w, Do(w, LockRow(c, i)), c) && Needs(Do(w, LockRow(c, i)), c, i, j)
  {
    assert forall k :: k in r.ids <==> k in Elems(r.ids);
    assert forall k :: k in ToLock(w, w.clients[c]) <==> k == i || k == j;
    var w' := Do(w, LockRow(c, i));
    assert forall k :: k in ToLock(w', w'.clients[c]) <==> k == j;
    assert ToLock(w', w'.clients[c]) == {j};
  }

  lemma EachNeedsTheOther(w: World, a: int, b: int, i: int, j: int)
    requires a != b && w.clients.Keys == {a, b} && Needs(w, a, i, j) && Needs(w, b, j, i)
    requires w.clients[b].phase.Updating?
    ensures Deadlocked(w, a, b, i, j)
  {
    assert j in w.clients[b].locked && i in w.clients[a].locked;
    assert Waits(w, a, b, j) && Waits(w, b, a, i);
    forall act | Forward(act) ensures !Enabled(w, act) {
      if act.LockRow? || act.UpdateRow? { assert !Free(w, a, j) && !Free(w, b, i); }
    }
  }

  /** The second UPDATE, poised, closes the cycle. */
  lemma CloseDeadlock(w0: World, run: seq<Action>, a: int, ra: Request, b: int, rb: Request, i: int, j: int)
      returns (run': seq<Action>)
    requires Duel(w0, run, a, ra, b, rb) && a != b && i != j
    requires var w := Exec(w0, run);
      w.clients.Keys == {a, b} && Needs(w, a, i, j) && Poised(w.db.seats, w.clients[b], i, j)
    ensures Duel(w0, run', a, ra, b, rb) && Deadlocked(Exec(w0, run'), a, b, i, j)
  {
    ghost var w := Exec(w0, run);
    assert Free(w, b, j);
    TakesOne(w, b, j, i);
    run' := DuelOn(w0, run, a, ra, b, rb, UpdateRow(b, j));
    NeedsStays(w, Exec(w0, run'), a, b, i, j);
    EachNeedsTheOther(Exec(w0, run'), a, b, i, j);
  }

  /** Client a locks row i first. */
  lemma FirstLock(w0: World, a: int, ra: Request, b: int, rb: Request, i: int, j: int) returns (run: seq<Action>)
    requires Initial(w0) && a != b && i < j && OverPair(w0.db, ra, i, j) && ra.now <= w0.clock && ra.Pessimistic?
    ensures Duel(w0, run, a, ra, b, rb) && OnlyMoved(w0, Exec(w0, run), a) && Needs(Exec(w0, run), a, i, j)
    ensures Exec(w0, run).clients[a].req == ra
  {
    run := [];
    Starts(w0, a, ra);
    run := DuelOn(w0, run, a, ra, b, rb, Begin(a, ra));
    ghost var w1 := Exec(w0, run);
    LocksLower(w1, a, ra, i, j);
    run := DuelOn(w0, run, a, ra, b, rb, LockRow(a, i));
    MovedOn(w0, w1, Exec(w0, run), a);
  }

  lemma PessimisticThenUpdate(w0: World, a: int, ra: Request, b: int, rb: Request, i: int, j: int)
      returns (run: seq<Action>)
    requires Initial(w0) && a != b && i < j && OverPair(w0.db, ra, i, j) && OverPair(w0.db, rb, i, j)
    requires ra.now <= w0.clock && rb.now <= w0.clock && ra.Pessimistic? && Updates(rb)
    ensures Duel(w0, run, a, ra, b, rb) && Deadlocked(Exec(w0, run), a, b, i, j)
  {
    run := FirstLock(w0, a, ra, b, rb, i, j);
    ghost var w1 := Exec(w0, run);
    run := Poise(w0, run, a, ra, b, rb, b, rb, i, j);
    NeedsStays(w1, Exec(w0, run), a, b, i, j);
    run := CloseDeadlock(w0, run, a, ra, b, rb, i, j);
  }

  lemma BothPoised(w0: World, a: int, ra: Request, b: int, rb: Request, i: int, j: int) returns (run: seq<Action>)
    requires Initial(w0) && a != b && OverPair(w0.db, ra, i, j) && OverPair(w0.db, rb, i, j)
    requires ra.now <= w0.clock && rb.now <= w0.clock && Updates(ra) && Updates(rb) && !rb.Refund?
    ensures Duel(w0, run, a, ra, b, rb)
    ensures var w := Exec(w0, run);
      w.clients.Keys == {a, b} && Poised(w.db.seats, w.clients[a], i, j) && Poised(w.db.seats, w.clients[b], i, j)
  {
    run := Poise(w0, [], a, ra, b, rb, a, ra, i, j);
    ghost var w1 := Exec(w0, run);
    run := Poise(w0, run, a, ra, b, rb, b, rb, i, j);
    assert Exec(w0, run).clients[a] == w1.clients[a];
  }

  lemma FirstUpdates(w0: World, run: seq<Action>, a: int, ra: Request, b: int, rb: Request, i: int, j: int)
      returns (run': seq<Action>)
    requires Duel(w0, run, a, ra, b, rb) && a != b && i != j
    requires var w := Exec(w0, run);
      w.clients.Keys == {a, b} && Poised(w.db.seats, w.clients[a], i, j) && Poised(w.db.seats, w.clients[b], i, j)
    ensures Duel(w0, run', a, ra, b, rb)
    ensures var w := Exec(w0, run');
      w.clients.Keys == {a, b} && Needs(w, a, i, j) && Poised(w.db.seats, w.clients[b], i, j)
  {
    ghost var w := Exec(w0, run);
    assert Free(w, a, i);
    TakesOne(w, a, i, j);
    run' := DuelOn(w0, run, a, ra, b, rb, UpdateRow(a, i));
  }

  lemma UpdateThenUpdate(w0: World, a: int, ra: Request, b: int, rb: Request, i: int, j: int) returns (run: seq<Action>)
    requires Initial(w0) && a != b && i != j && OverPair(w0.db, ra, i, j) && OverPair(w0.db, rb, i, j)
    requires ra.now <= w0.clock && rb.now <= w0.clock && Updates(ra) && Updates(rb) && !rb.Refund?
    ensures Duel(w0, run, a, ra, b, rb) && Deadlocked(Exec(w0, run), a, b, i, j)
  {
    run := BothPoised(w0, a, ra, b, rb, i, j);
    run := FirstUpdates(w0, run, a, ra, b, rb, i, j);
    run := CloseDeadlock(w0, run, a, ra, b, rb, i, j);
  }

  // ---------------------------------------------------------------- exactly when

  /** Some run of the two requests reaches a wait-for cycle. */
  ghost predicate CanDeadlock(w0: World, r0: Request, r1: Request) {
    exists run, walk, rows :: Duel(w0, run, 0, r0, 1, r1) && Cycle(Exec(w0, run), walk, rows)
  }

  lemma DuelSwaps(w0: World, run: seq<Action>, r0: Request, r1: Request)
    requires Duel(w0, run, 1, r1, 0, r0)
    ensures Duel(w0, run, 0, r0, 1, r1)
  {
  }

  /** Only clients 0 and 1 are there, each with its own request. */
  lemma {:induction false} OnlyDuellists(w0: World, run: seq<Action>, r0: Request, r1: Request)
    requires w0.clients == map[] && Begins(run, 0, r0, 1, r1)
    ensures forall c :: c in Exec(w0, run).clients ==>
      (c == 0 && Exec(w0, run).clients[c].req == r0) || (c == 1 && Exec(w0, run).clients[c].req == r1)
  {
    if run != [] {
      var n := |run| - 1;
      assert Begins(run[..n], 0, r0, 1, r1);
      OnlyDuellists(w0, run[..n], r0, r1);
      var w := Exec(w0, run[..n]);
      if Enabled(w, run[n]) { StepKeepsRequests(w, run[n]); }
    }
  }

  lemma NextKeepsRequest(w: World, a: Action)
    requires Enabled(w, a) && !a.Tick? && !a.Begin? && !a.Other?
    ensures a.c in w.clients && NextClient(w, a, w.clients[a.c]).req == w.clients[a.c].req
  {
  }

  lemma StepKeepsRequests(w: World, a: Action)
    requires Enabled(w, a)
    ensures forall c :: c in Do(w, a).clients ==>
      || (c in w.clients && Do(w, a).clients[c].req == w.clients[c].req)
      || (a.Begin? && c == a.c && Do(w, a).clients[c].req == a.req)
  {
    if !a.Tick? && !a.Begin? && !a.Other? {
      NextKeepsRequest(w, a);
      assert Do(w, a).clients == w.clients[a.c := NextClient(w, a, w.clients[a.c])];
    }
  }

  lemma OrderedNever(w0: World, run: seq<Action>, r0: Request, r1: Request, walk: seq<int>, rows: seq<int>)
    requires Initial(w0) && Duel(w0, run, 0, r0, 1, r1) && Ordered(r0) && Ordered(r1)
    ensures !Cycle(Exec(w0, run), walk, rows)
  {
    OnlyDuellists(w0, run, r0, r1);
    if Cycle(Exec(w0, run), walk, rows) {
      WaitForAcyclic(w0, run, walk, rows);
    }
  }

  /** A refund waits for seats only once it has the booking, which the other refund then has not. */
  lemma RefundsNever(w0: World, run: seq<Action>, r0: Request, r1: Request, walk: seq<int>, rows: seq<int>)
    requires Initial(w0) && Duel(w0, run, 0, r0, 1, r1) && r0.Refund? && r1.Refund? && r0.bid == r1.bid
    ensures !Cycle(Exec(w0, run), walk, rows)
  {
    OnlyDuellists(w0, run, r0, r1);
    Reachable(w0, run);
    var w := Exec(w0, run);
    if Cycle(w, walk, rows) {
      var next := if |rows| == 1 then 0 else 1;
      assert Waits(w, walk[0], walk[1], rows[0]) && Waits(w, walk[next], walk[next + 1], rows[next]);
      assert walk[next] == walk[1];
      OneRefundAtATime(w, walk[0], walk[1]);
    }
  }

  lemma OneRefundAtATime(w: World, c: int, d: int)
    requires LocksDisjoint(w) && c in w.clients && d in w.clients && w.clients[c].phase.Updating?
    requires w.clients[d].phase.Updating?
    requires w.clients[c].req.Refund? && w.clients[d].req.Refund? && w.clients[c].req.bid == w.clients[d].req.bid
    ensures c == d
  {
    assert BookingLock(w.clients[c]) == BookingLock(w.clients[d]);
    assert c == d || Apart(w.clients[c], w.clients[d]);
  }

  lemma SameBooking(db: Db, r0: Request, r1: Request, i: int, j: int)
    requires OverPair(db, r0, i, j) && OverPair(db, r1, i, j) && r0.Refund? && r1.Refund?
    ensures r0.bid == r1.bid
  {
  }

  lemma NeverDeadlocks(w0: World, r0: Request, r1: Request, i: int, j: int)
    requires Initial(w0) && i < j && OverPair(w0.db, r0, i, j) && OverPair(w0.db, r1, i, j)
    requires (Ordered(r0) && Ordered(r1)) || (r0.Refund? && r1.Refund?)
    ensures !CanDeadlock(w0, r0, r1)
  {
    if r0.Refund? && r1.Refund? { SameBooking(w0.db, r0, r1, i, j); }
    forall run, walk, rows | Duel(w0, run, 0, r0, 1, r1) ensures !Cycle(Exec(w0, run), walk, rows) {
      if r0.Refund? && r1.Refund? {
        RefundsNever(w0, run, r0, r1, walk, rows);
      } else {
        OrderedNever(w0, run, r0, r1, walk, rows);
      }
    }
  }

  lemma DoesDeadlock(w0: World, r0: Request, r1: Request, i: int, j: int)
      returns (run: seq<Action>, walk: seq<int>, rows: seq<int>)
    requires Initial(w0) && i < j && OverPair(w0.db, r0, i, j) && OverPair(w0.db, r1, i, j)
    requires r0.now <= w0.clock && r1.now <= w0.clock && (Updates(r0) || Updates(r1)) && !(r0.Refund? && r1.Refund?)
    ensures Duel(w0, run, 0, r0, 1, r1) && Cycle(Exec(w0, run), walk, rows)
    ensures forall act :: Forward(act) ==> !Enabled(Exec(w0, run), act)
  {
    walk, rows := [0, 1, 0], [j, i];
    if r0.Pessimistic? {
      run := PessimisticThenUpdate(w0, 0, r0, 1, r1, i, j);
    } else if Updates(r1) && !r1.Refund? {
      run := UpdateThenUpdate(w0, 0, r0, 1, r1, i, j);
    } else {
      walk := [1, 0, 1];
      if r1.Pessimistic? {
        run := PessimisticThenUpdate(w0, 1, r1, 0, r0, i, j);
      } else {
        run := UpdateThenUpdate(w0, 1, r1, 0, r0, i, j);
      }
      DuelSwaps(w0, run, r0, r1);
    }
  }

  /** Two transactions over the same pair of seats can deadlock if and only if one of them locks the pair by an
      UPDATE. Two refunds are the exception: they are of the same booking, and its row keeps them apart. */
  lemma DeadlockIff(w0: World, r0: Request, r1: Request, i: int, j: int)
    requires Initial(w0) && i < j && OverPair(w0.db, r0, i, j) && OverPair(w0.db, r1, i, j)
    requires r0.now <= w0.clock && r1.now <= w0.clock
    ensures CanDeadlock(w0, r0, r1) <==> !(Ordered(r0) && Ordered(r1)) && !(r0.Refund? && r1.Refund?)
  {
    OrderedIffNoUpdate(w0.db, r0, i, j);
    OrderedIffNoUpdate(w0.db, r1, i, j);
    if (Ordered(r0) && Ordered(r1)) || (r0.Refund? && r1.Refund?) {
      NeverDeadlocks(w0, r0, r1, i, j);
    } else {
      var run, walk, rows := DoesDeadlock(w0, r0, r1, i, j);
    }
  }

  // ---------------------------------------------------------------- for the record

  /** Two optimistic attempts at the same two available seats can deadlock, as the module's own documentation
      warns. */
  lemma OptimisticUpdatesDeadlock(w0: World, i: int, j: int, first: Session, second: Session) returns (run: seq<Action>)
    requires Initial(w0) && i != j && i in w0.db.seats && j in w0.db.seats
    requires w0.db.seats[i].status == AVAILABLE && w0.db.seats[j].status == AVAILABLE
    ensures Runs(w0, run) && Safe(run) && Deadlocked(Exec(w0, run), 0, 1, i, j)
  {
    var r0, r1 := Optimistic([i, j], first, w0.clock, 1, 1), Optimistic([i, j], second, w0.clock, 1, 1);
    assert Elems([i, j]) == {i, j};
    run := UpdateThenUpdate(w0, 0, r0, 1, r1, i, j);
  }

  /** Booking b claims seats i and j, and its session holds both. */
  ghost predicate ReadyToConfirm(db: Db, b: int, i: int, j: int, who: Session, now: Time) {
    && b in db.bookings && Elems(db.bookings[b].seatIds) == {i, j}
    && i in db.seats && HeldLive(db.seats[i], who, now) && j in db.seats && HeldLive(db.seats[j], who, now)
  }

  function Confirming(db: Db, b: int, who: Session, now: Time): Request
    requires b in db.bookings
  {
    Confirmation(b, db.bookings[b].userId, db.bookings[b].seatIds, who, now, None)
  }

  /** So can two confirmations over the same seats: two bookings of one session, or one booking confirmed by
      its session and by its payment at once. */
  lemma ConfirmationsDeadlock(w0: World, a: int, b: int, i: int, j: int, who: Session, now: Time)
      returns (run: seq<Action>)
    requires Initial(w0) && now <= w0.clock && i != j
    requires ReadyToConfirm(w0.db, a, i, j, who, now) && ReadyToConfirm(w0.db, b, i, j, who, now)
    ensures Runs(w0, run) && Safe(run) && Deadlocked(Exec(w0, run), 0, 1, i, j)
  {
    run := UpdateThenUpdate(w0, 0, Confirming(w0.db, a, who, now), 1, Confirming(w0.db, b, who, now), i, j);
  }

  /** Ordered locking alone does not save mode (a): a confirmation locks the same seats in its own order. */
  lemma PessimisticMeetsConfirmation(w0: World, b: int, i: int, j: int, who: Session, rival: Session, now: Time)
      returns (run: seq<Action>)
    requires Initial(w0) && now <= w0.clock && i < j && ReadyToConfirm(w0.db, b, i, j, who, now)
    ensures Runs(w0, run) && Safe(run) && Deadlocked(Exec(w0, run), 0, 1, i, j)
  {
    assert Elems([i, j]) == {i, j};
    run := PessimisticThenUpdate(w0, 0, Pessimistic([i, j], rival, now, 1), 1, Confirming(w0.db, b, who, now), i, j);
  }
}
