/** Waiting and deadlock: which wait-for cycles the protocols can form and how they are resolved. Then the
    control: the naive strategy in the same step system oversells. */
module Progress {
  import opened SeatMachine
  import opened Collections
  import opened Ledger
  import opened History
  import opened Interleaving
  import opened Refinement

  // ---------------------------------------------------------------- the wait-for graph

  /** Client c is about to lock row i. Mode (a) transactions queue for the least row they still need; a
      multi-row UPDATE may come to any of its remaining rows next. SKIP LOCKED transactions never wait. */
  predicate WaitsAt(w: World, c: int, i: int) {
    && At(w, c)
    && (if w.clients[c].phase.Updating? then i in w.clients[c].phase.todo
        else
          && w.clients[c].req.Pessimistic? && (w.clients[c].phase.Start? || w.clients[c].phase.Locking?)
          && i in ToLock(w, w.clients[c]) && (forall j :: j in ToLock(w, w.clients[c]) ==> i <= j))
  }

  predicate Waits(w: World, c: int, d: int, i: int) {
    WaitsAt(w, c, i) && d in w.clients && d != c && i in w.clients[d].locked
  }

  /** A walk in the wait-for graph: rows[k] is what walk[k] waits for and walk[k + 1] holds. */
  ghost predicate Walk(w: World, walk: seq<int>, rows: seq<int>) {
    && |walk| == |rows| + 1
    && forall k :: 0 <= k < |rows| ==> Waits(w, walk[k], walk[k + 1], rows[k])
  }

  ghost predicate Cycle(w: World, walk: seq<int>, rows: seq<int>) {
    Walk(w, walk, rows) && |rows| > 0 && walk[0] == walk[|rows|]
  }

  /** Only an UPDATE can hold a row above the one it waits for. */
  lemma WaitsAbove(w: World, c: int, i: int, j: int)
    requires c in w.clients && ClientOk(w.db, w.clients[c]) && WaitsAt(w, c, i) && j in w.clients[c].locked
    ensures i != j && (j < i || w.clients[c].phase.Updating?)
  {
  }

  /** The client is inside an UPDATE, holds row j and waits for the lower row i. */
  ghost predicate Descends(w: World, c: int, i: int, j: int) {
    && c in w.clients && w.clients[c].phase.Updating? && Updates(w.clients[c].req) && !w.clients[c].req.Extension?
    && i in w.clients[c].req.ids && j in w.clients[c].req.ids
    && i in w.clients[c].phase.todo && j in w.clients[c].locked && i < j
  }

  /** Among the first n rows of a walk, one is not above its predecessor, or they ascend throughout. */
  lemma FirstDescent(rows: seq<int>, n: nat) returns (k: nat)
    requires 0 < n <= |rows|
    ensures k < n
    ensures if k == 0 then rows[0] <= rows[n - 1] else rows[k] <= rows[k - 1]
  {
    k := 0;
    for m := 1 to n
      invariant k < n && (if k == 0 then rows[0] <= rows[m - 1] else rows[k] <= rows[k - 1])
    {
      if k == 0 && rows[m] <= rows[m - 1] { k := m; }
    }
  }

  lemma Descent(w: World, c: int, i: int, j: int)
    requires ClientsOk(w) && WaitsAt(w, c, i) && j in w.clients[c].locked && i <= j
    ensures Descends(w, c, i, j)
  {
    WaitsAbove(w, c, i, j);
    assert Matches(w.clients[c].req, w.clients[c].phase.rows, j, w.clients[c].locked[j]);
  }

  /** Every wait-for cycle runs through an UPDATE over several seats that locked them out of order. */
  lemma CycleNeedsUpdate(w: World, walk: seq<int>, rows: seq<int>) returns (k: nat, j: int)
    requires ClientsOk(w) && Cycle(w, walk, rows)
    ensures k < |rows| && Descends(w, walk[k], rows[k], j)
  {
    var n := |rows|;
    k := FirstDescent(rows, n);
    j := if k == 0 then rows[n - 1] else rows[k - 1];
    assert Waits(w, walk[k], walk[k + 1], rows[k]);
    if k == 0 {
      assert Waits(w, walk[n - 1], walk[n], rows[n - 1]);
    } else {
      assert Waits(w, walk[k - 1], walk[k], rows[k - 1]);
    }
    Descent(w, walk[k], rows[k], j);
  }

  /** Requests that never hold one row while waiting for a lower one: mode (a), mode (b), sweeps, extensions,
      and any UPDATE that names a single seat. */
  predicate Ordered(r: Request) {
    match r
    case Pessimistic(_, _, _, _) => true
    case AnyN(_, _, _, _, _) => true
    case Sweep(_, _) => true
    case Extension(_, _, _, _) => true
    case _ => |Elems(r.ids)| <= 1
  }

  /** Among such requests the wait-for graph has no cycle, in any reachable state. */
  lemma WaitForAcyclic(w0: World, run: seq<Action>, walk: seq<int>, rows: seq<int>)
    requires Initial(w0) && Runs(w0, run) && Safe(run)
    requires Walk(Exec(w0, run), walk, rows) && |rows| > 0
    requires forall c :: c in walk && c in Exec(w0, run).clients ==> Ordered(Exec(w0, run).clients[c].req)
    ensures walk[0] != walk[|rows|]
  {
    Reachable(w0, run);
    if walk[0] == walk[|rows|] {
      CycleNotOrdered(Exec(w0, run), walk, rows);
    }
  }

  lemma CycleNotOrdered(w: World, walk: seq<int>, rows: seq<int>)
    requires ClientsOk(w) && Cycle(w, walk, rows)
    ensures exists c :: c in walk && c in w.clients && !Ordered(w.clients[c].req)
  {
    var k, j := CycleNeedsUpdate(w, walk, rows);
    var c := walk[k];
    TwoSeats(w.clients[c].req.ids, rows[k], j);
    assert c in walk && c in w.clients && !Ordered(w.clients[c].req);
  }

  lemma TwoSeats(ids: seq<int>, i: int, j: int)
    requires i in ids && j in ids && i != j
    ensures |Elems(ids)| > 1
  {
    SubsetCard({i, j}, Elems(ids));
    assert |{i, j}| == 2;
  }

  // ---------------------------------------------------------------- moving, or a deadlock

  /** A step that carries a transaction forward, as opposed to giving up or starting something new. */
  predicate Forward(a: Action) {
    !a.Tick? && !a.Begin? && !a.Other? && !a.Abort? && !a.DeadlockVictim?
  }

  /** A client holds the booking row or the index entry that c needs. */
  predicate BookingHolder(w: World, d: int) {
    d in w.clients && BookingLock(w.clients[d]).Some?
  }

  lemma UpdaterMoves(w: World, c: int) returns (a: Action, i: int, d: int)
    requires At(w, c) && ClientOk(w.db, w.clients[c]) && w.clients[c].phase.Updating?
    ensures (Forward(a) && Enabled(w, a)) || Waits(w, c, d, i)
  {
    var todo := w.clients[c].phase.todo;
    a, i, d := EndUpdate(c), 0, 0;
    if todo != {} {
      i := Min(todo);
      a := UpdateRow(c, i);
      if !Free(w, c, i) {
        d :| d in w.clients && d != c && i in w.clients[d].locked;
      }
    }
  }

  lemma LockerMoves(w: World, c: int) returns (a: Action, i: int, d: int)
    requires At(w, c) && w.clients[c].req.Pessimistic? && (w.clients[c].phase.Start? || w.clients[c].phase.Locking?)
    ensures (Forward(a) && Enabled(w, a)) || Waits(w, c, d, i)
  {
    var need := ToLock(w, w.clients[c]);
    a, i, d := CheckLocked(c), 0, 0;
    if need != {} {
      i := Min(need);
      a := LockRow(c, i);
      if !Free(w, c, i) {
        d :| d in w.clients && d != c && i in w.clients[d].locked;
      }
    }
  }

  /** Whoever has updated a bookings row can go on, or is a refund waiting for a seat. */
  lemma BookingHolderMoves(w: World, d: int) returns (a: Action, i: int, e: int)
    requires BookingHolder(w, d) && ClientOk(w.db, w.clients[d])
    ensures (Forward(a) && Enabled(w, a)) || (Waits(w, d, e, i) && w.clients[d].req.Refund?)
  {
    a, i, e := Commit(d), 0, 0;
    if w.clients[d].phase.Marked? {
      a := BeginUpdate(d);
    } else if w.clients[d].phase.Updating? {
      a, i, e := UpdaterMoves(w, d);
    }
  }

  /** A refund never holds the booking of a confirmation that has inserted its links. */
  lemma RefundNotInTheWay(w: World, c: int, d: int)
    requires Inv(w.db) && ClientsOk(w) && c in w.clients && w.clients[c].req.Confirmation? && w.clients[c].phase.Linked?
    requires BookingHolder(w, d) && w.clients[d].req.Refund?
    ensures w.clients[d].req.bid != w.clients[c].req.bid
  {
    var r := w.clients[c].req;
    assert ClientOk(w.db, w.clients[c]) && ClientOk(w.db, w.clients[d]);
    var i := r.ids[0];
    assert i in r.ids && Link(r.bid, i) !in w.db.links;
    assert HasStatus(w.db, w.clients[d].req.bid, CONFIRMED);
  }

  lemma ConfirmerMoves(w: World, c: int) returns (a: Action)
    requires Inv(w.db) && ClientsOk(w) && At(w, c) && w.clients[c].req.Confirmation? && w.clients[c].phase.Linked?
    ensures Forward(a) && Enabled(w, a)
  {
    var r := w.clients[c].req;
    a := UpdateBooking(c);
    if !BookingFree(w, c, r.bid) {
      var d :| d in w.clients && d != c && BookingLock(w.clients[d]) == Some(r.bid);
      if w.clients[d].req.Refund? { RefundNotInTheWay(w, c, d); }
      var i, e;
      a, i, e := BookingHolderMoves(w, d);
    } else if !ClaimFree(w, c, r) {
      var d :| d in w.clients && d != c && KeyClaim(w.clients[d]) == Some(Claim(r.user, r.key.value));
      a := Commit(d);
    }
  }

  /** Whoever holds a seat row can go on, or waits for another seat row. */
  lemma SeatHolderMoves(w: World, d: int) returns (a: Action, i: int, e: int)
    requires Inv(w.db) && ClientsOk(w) && d in w.clients && w.clients[d].locked.Keys != {}
    ensures (Forward(a) && Enabled(w, a)) || Waits(w, d, e, i)
  {
    var cl := w.clients[d];
    assert ClientOk(w.db, cl);
    a, i, e := Write(d), 0, 0;
    match cl.phase {
      case Updating(_, _) => a, i, e := UpdaterMoves(w, d);
      case Locking =>
        if cl.req.AnyN? { a := CheckLocked(d); } else { a, i, e := LockerMoves(w, d); }
      case Seated => a := InsertLinks(d);
      case Linked => a := ConfirmerMoves(w, d);
      case Written(full) => a := if full then Commit(d) else Conflict(d);
      case _ =>
    }
  }

  lemma StarterMoves(w: World, c: int) returns (a: Action, b: int, d: int, i: int)
    requires Inv(w.db) && ClientsOk(w) && At(w, c) && w.clients[c].phase.Start?
    ensures (Forward(a) && Enabled(w, a)) || Waits(w, b, d, i)
  {
    var r := w.clients[c].req;
    assert ClientOk(w.db, w.clients[c]);
    a, b, d, i := BeginUpdate(c), c, 0, 0;
    if r.Optimistic? {
      a := SelectRows(c);
    } else if r.Pessimistic? {
      a, i, d := LockerMoves(w, c);
    } else if r.AnyN? || r.Sweep? {
      a := SkipLocked(c, First(Candidates(w, c), Limit(r)));
    } else if r.Refund? {
      a := MarkRefunded(c);
      if !BookingFree(w, c, r.bid) {
        b :| b in w.clients && b != c && BookingLock(w.clients[b]) == Some(r.bid);
        a, i, d := BookingHolderMoves(w, b);
      }
    }
  }

  /** An open transaction that cannot go on leads to one that waits for a seat row. */
  lemma AnyoneMoves(w: World, c: int) returns (a: Action, b: int, d: int, i: int)
    requires Inv(w.db) && ClientsOk(w) && At(w, c)
    ensures (Forward(a) && Enabled(w, a)) || Waits(w, b, d, i)
  {
    var cl := w.clients[c];
    assert ClientOk(w.db, cl);
    a, b, d, i := BeginUpdate(c), c, 0, 0;
    match cl.phase {
      case Start => a, b, d, i := StarterMoves(w, c);
      case Read(_) => a := Validate(c);
      case Updating(_, _) => a, i, d := UpdaterMoves(w, c);
      case Locking => if cl.req.AnyN? { a := CheckLocked(c); } else { a, i, d := LockerMoves(w, c); }
      case Checked => a := Write(c);
      case Seated => a := InsertLinks(c);
      case Linked => a := ConfirmerMoves(w, c);
      case Written(full) => a := if full then Commit(c) else Conflict(c);
      case _ =>
    }
  }

  /** Following the waits from a holder of a row ends in a step that can be taken, or comes back. */
  lemma FollowWaits(w: World, walk: seq<int>, rows: seq<int>) returns (a: Action, cycle: seq<int>, crows: seq<int>)
    requires Inv(w.db) && ClientsOk(w) && Walk(w, walk, rows) && |rows| > 0 && NoDup(walk)
    ensures (Forward(a) && Enabled(w, a)) || Cycle(w, cycle, crows)
    decreases |w.clients.Keys| - |walk|
  {
    var n := |rows|;
    assert Waits(w, walk[n - 1], walk[n], rows[n - 1]);
    assert rows[n - 1] in w.clients[walk[n]].locked.Keys;
    var i, e;
    a, i, e := SeatHolderMoves(w, walk[n]);
    cycle, crows := walk, rows;
    if !(Forward(a) && Enabled(w, a)) {
      var walk', rows' := walk + [e], rows + [i];
      WalkOn(w, walk, rows, e, i);
      if e in walk {
        var m :| 0 <= m < |walk| && walk[m] == e;
        cycle, crows := walk'[m..], rows'[m..];
        CloseCycle(w, walk', rows', m);
      } else {
        WalkFits(w, walk', rows');
        a, cycle, crows := FollowWaits(w, walk', rows');
      }
    }
  }

  lemma WalkOn(w: World, walk: seq<int>, rows: seq<int>, e: int, i: int)
    requires Walk(w, walk, rows) && Waits(w, walk[|rows|], e, i)
    ensures Walk(w, walk + [e], rows + [i])
  {
    var walk', rows' := walk + [e], rows + [i];
    forall k | 0 <= k < |rows'| ensures Waits(w, walk'[k], walk'[k + 1], rows'[k]) {
      if k < |rows| { assert Waits(w, walk[k], walk[k + 1], rows[k]); }
    }
  }

  lemma CloseCycle(w: World, walk: seq<int>, rows: seq<int>, m: nat)
    requires Walk(w, walk, rows) && m < |rows| && walk[m] == walk[|rows|]
    ensures Cycle(w, walk[m..], rows[m..])
  {
    forall k | 0 <= k < |rows[m..]| ensures Waits(w, walk[m..][k], walk[m..][k + 1], rows[m..][k]) {
      assert Waits(w, walk[m + k], walk[m + k + 1], rows[m + k]);
    }
  }

  lemma WalkFits(w: World, walk: seq<int>, rows: seq<int>)
    requires Walk(w, walk, rows) && |rows| > 0 && NoDup(walk)
    ensures |walk| <= |w.clients.Keys|
  {
    forall k | 0 <= k < |walk| ensures walk[k] in w.clients.Keys {
      if k > 0 { assert Waits(w, walk[k - 1], walk[k], rows[k - 1]); }
      else { assert Waits(w, walk[0], walk[1], rows[0]); }
    }
    ElemsCard(walk);
    assert forall c :: c in Elems(walk) ==> c in w.clients.Keys;
    SubsetCard(Elems(walk), w.clients.Keys);
  }

  /** Progress: as long as any transaction is open, some transaction can take a forward step, or there is a
      deadlock, and then it is a wait-for cycle. */
  lemma MoveOrDeadlock(w0: World, run: seq<Action>, c: int) returns (a: Action, walk: seq<int>, rows: seq<int>)
    requires Initial(w0) && Runs(w0, run) && Safe(run) && At(Exec(w0, run), c)
    ensures (Forward(a) && Enabled(Exec(w0, run), a)) || Cycle(Exec(w0, run), walk, rows)
  {
    Reachable(w0, run);
    var w := Exec(w0, run);
    var b, d, i;
    a, b, d, i := AnyoneMoves(w, c);
    walk, rows := [b, d], [i];
    if !(Forward(a) && Enabled(w, a)) {
      a, walk, rows := FollowWaits(w, [b, d], [i]);
    }
  }

  /** Without UPDATEs over several seats somebody can always move. */
  lemma SomebodyCanMove(w0: World, run: seq<Action>, c: int) returns (a: Action)
    requires Initial(w0) && Runs(w0, run) && Safe(run) && At(Exec(w0, run), c)
    requires forall d :: d in Exec(w0, run).clients ==> Ordered(Exec(w0, run).clients[d].req)
    ensures Forward(a) && Enabled(Exec(w0, run), a)
  {
    var walk, rows;
    a, walk, rows := MoveOrDeadlock(w0, run, c);
    if !(Forward(a) && Enabled(Exec(w0, run), a)) {
      WaitForAcyclic(w0, run, walk, rows);
    }
  }

  // ---------------------------------------------------------------- breaking a deadlock

  /** The step that gets client c the row it waits for. */
  function Takes(w: World, c: int, i: int): Action
    requires c in w.clients
  {
    if w.clients[c].phase.Updating? then UpdateRow(c, i) else LockRow(c, i)
  }

  /** Whichever member of a cycle Postgres aborts, the one waiting for it can go on. */
  lemma VictimRestoresProgress(w0: World, run: seq<Action>, walk: seq<int>, rows: seq<int>, k: nat)
    requires Initial(w0) && Runs(w0, run) && Safe(run) && Cycle(Exec(w0, run), walk, rows) && k < |rows|
    ensures var w := Exec(w0, run);
      && Enabled(w, DeadlockVictim(walk[k + 1])) && walk[k] in w.clients
      && !Enabled(w, Takes(w, walk[k], rows[k]))
      && Enabled(Do(w, DeadlockVictim(walk[k + 1])), Takes(w, walk[k], rows[k]))
  {
    Reachable(w0, run);
    var w, n := Exec(w0, run), |rows|;
    var next := if k + 1 == n then 0 else k + 1;
    assert Waits(w, walk[k], walk[k + 1], rows[k]) && Waits(w, walk[next], walk[next + 1], rows[next]);
    assert walk[next] == walk[k + 1];
    VictimFrees(w, walk[k], walk[k + 1], rows[k], rows[next]);
  }

  lemma VictimFrees(w: World, c: int, d: int, i: int, j: int)
    requires ClientsOk(w) && LocksDisjoint(w) && Waits(w, c, d, i) && WaitsAt(w, d, j)
    ensures Enabled(w, DeadlockVictim(d)) && !Enabled(w, Takes(w, c, i))
    ensures Enabled(Do(w, DeadlockVictim(d)), Takes(w, c, i))
  {
    assert ClientOk(w.db, w.clients[d]) && ClientOk(w.db, w.clients[c]);
    var w' := Do(w, DeadlockVictim(d));
    assert w'.clients[c] == w.clients[c] && w'.db == w.db;
    forall e | e in w'.clients && e != c ensures i !in w'.clients[e].locked {
      if e != d { assert Apart(w.clients[d], w.clients[e]); }
    }
    if w.clients[c].phase.Updating? {
      assert i in w.db.seats;
    } else {
      assert ToLock(w', w.clients[c]) == ToLock(w, w.clients[c]);
    }
  }

  // ---------------------------------------------------------------- the control: the naive strategy

  /** Pairwise different session ids. */
  function Name(k: nat): Session {
    seq(k, _ => 's')
  }

  function Rival(seat: Seat, k: nat, now: Time, duration: int): Request {
    Naive([seat.id], Name(k), now, duration)
  }

  function OneSeat(seat: Seat, now: Time): World {
    World(Db(map[seat.id := seat], map[], map[]), map[], now, [])
  }

  function RivalPhase(seat: Seat, k: nat, read: nat, written: nat): Phase {
    if k < written then Done(true) else if k < read then Read(map[seat.id := seat]) else Start
  }

  function SeatAfter(seat: Seat, now: Time, duration: int, written: nat): Seat
    requires seat.status == AVAILABLE && duration > 0
  {
    if written == 0 then seat else Hold(seat, Name(written - 1), now, duration).value
  }

  /** n rivals have started, the first `read` have read, the first `written` have committed. */
  ghost predicate RaceAt(w: World, seat: Seat, now: Time, duration: int, n: nat, read: nat, written: nat)
    requires seat.status == AVAILABLE && duration > 0
  {
    && w.clock == now
    && w.db.seats == map[seat.id := SeatAfter(seat, now, duration, written)]
    && (forall c :: c in w.clients <==> 0 <= c < n)
    && (forall c :: 0 <= c < n ==>
         w.clients[c] == Client(Rival(seat, c, now, duration), RivalPhase(seat, c, read, written), 1, map[], map[]))
  }

  lemma RaceBegin(w: World, seat: Seat, now: Time, duration: int, n: nat)
    requires seat.status == AVAILABLE && duration > 0 && RaceAt(w, seat, now, duration, n, 0, 0)
    ensures Enabled(w, Begin(n, Rival(seat, n, now, duration)))
    ensures RaceAt(Do(w, Begin(n, Rival(seat, n, now, duration))), seat, now, duration, n + 1, 0, 0)
  {
  }

  lemma RaceRead(w: World, seat: Seat, now: Time, duration: int, n: nat, read: nat)
    requires seat.status == AVAILABLE && duration > 0 && RaceAt(w, seat, now, duration, n, read, 0) && read < n
    ensures Enabled(w, SelectRows(read))
    ensures RaceAt(Do(w, SelectRows(read)), seat, now, duration, n, read + 1, 0)
  {
    assert Restrict(w.db.seats, Elems([seat.id])) == map[seat.id := seat];
  }

  lemma RaceWrite(w: World, seat: Seat, now: Time, duration: int, n: nat, written: nat)
    requires seat.status == AVAILABLE && Coherent(seat) && duration > 0
    requires RaceAt(w, seat, now, duration, n, n, written) && written < n
    ensures Enabled(w, NaiveWrite(written))
    ensures RaceAt(Do(w, NaiveWrite(written)), seat, now, duration, n, n, written + 1)
  {
    Overwrites(seat, now, duration, written);
    assert Do(w, NaiveWrite(written)).db.seats == map[seat.id := SeatAfter(seat, now, duration, written + 1)];
  }

  /** The late write replaces whatever rival wrote before it. */
  lemma Overwrites(seat: Seat, now: Time, duration: int, written: nat)
    requires seat.status == AVAILABLE && Coherent(seat) && duration > 0
    ensures var t, rows := map[seat.id := SeatAfter(seat, now, duration, written)], map[seat.id := seat];
      t + NaiveRows(t, rows, Name(written), now, duration) ==
        map[seat.id := SeatAfter(seat, now, duration, written + 1)]
  {
    var held := Hold(seat, Name(written), now, duration).value;
    assert Merge(SeatAfter(seat, now, duration, written), seat, held) == held;
  }

  ghost predicate RaceRun(run: seq<Action>, seat: Seat, now: Time, duration: int, n: nat, read: nat, written: nat)
    requires seat.status == AVAILABLE && duration > 0
  {
    Runs(OneSeat(seat, now), run) && RaceAt(Exec(OneSeat(seat, now), run), seat, now, duration, n, read, written)
  }

  lemma StartOne(run: seq<Action>, seat: Seat, now: Time, duration: int, n: nat)
    requires seat.status == AVAILABLE && duration > 0 && RaceRun(run, seat, now, duration, n, 0, 0)
    ensures RaceRun(run + [Begin(n, Rival(seat, n, now, duration))], seat, now, duration, n + 1, 0, 0)
  {
    var w := OneSeat(seat, now);
    RaceBegin(Exec(w, run), seat, now, duration, n);
    RunsSnoc(w, run, Begin(n, Rival(seat, n, now, duration)));
  }

  lemma ReadOne(run: seq<Action>, seat: Seat, now: Time, duration: int, n: nat, read: nat)
    requires seat.status == AVAILABLE && duration > 0 && RaceRun(run, seat, now, duration, n, read, 0) && read < n
    ensures RaceRun(run + [SelectRows(read)], seat, now, duration, n, read + 1, 0)
  {
    var w := OneSeat(seat, now);
    RaceRead(Exec(w, run), seat, now, duration, n, read);
    RunsSnoc(w, run, SelectRows(read));
  }

  lemma WriteOne(run: seq<Action>, seat: Seat, now: Time, duration: int, n: nat, written: nat)
    requires seat.status == AVAILABLE && Coherent(seat) && duration > 0
    requires RaceRun(run, seat, now, duration, n, n, written) && written < n
    ensures RaceRun(run + [NaiveWrite(written)], seat, now, duration, n, n, written + 1)
  {
    var w := OneSeat(seat, now);
    RaceWrite(Exec(w, run), seat, now, duration, n, written);
    RunsSnoc(w, run, NaiveWrite(written));
  }

  /** n rivals start, then all of them read, then all of them write. */
  lemma RaceToTheEnd(seat: Seat, now: Time, duration: int, n: nat) returns (run: seq<Action>)
    requires seat.status == AVAILABLE && Coherent(seat) && duration > 0
    ensures RaceRun(run, seat, now, duration, n, n, n)
  {
    run := [];
    for k := 0 to n
      invariant RaceRun(run, seat, now, duration, k, 0, 0)
    {
      StartOne(run, seat, now, duration, k);
      run := run + [Begin(k, Rival(seat, k, now, duration))];
    }
    for k := 0 to n
      invariant RaceRun(run, seat, now, duration, n, k, 0)
    {
      ReadOne(run, seat, now, duration, n, k);
      run := run + [SelectRows(k)];
    }
    for k := 0 to n
      invariant RaceRun(run, seat, now, duration, n, n, k)
    {
      WriteOne(run, seat, now, duration, n, k);
      run := run + [NaiveWrite(k)];
    }
  }

  /** Entries j and k hold seat i, while the clock stays below the expiry of the first hold and nobody confirms
      or extends in between. */
  ghost predicate Overlap(tr: Trace, j: nat, k: nat, i: int, now: Time, duration: int) {
    && j < k < |tr| && HoldsSeat(tr[j].op, i) && HoldsSeat(tr[k].op, i)
    && tr[j].op.now == now && tr[j].op.duration == duration
    && forall m :: j < m <= k ==> tr[m].clock < now + duration && !tr[m].op.ConfirmOp? && !tr[m].op.ExtendOp?
  }

  lemma NoOverlap(db: Db, tr: Trace, j: nat, k: nat, i: int, now: Time, duration: int)
    requires Inv(db) && ValidTrace(db, tr)
    ensures !Overlap(tr, j, k, i, now, duration)
  {
    if Overlap(tr, j, k, i, now, duration) {
      assert forall m :: j < m < k ==> !OwnAct(tr[m].op, tr[j].op.who);
      NoOverlappingHolds(db, tr, j, k, i);
    }
  }

  /** The control oversells: for every n, n sessions with distinct ids all report success on one seat with the
      same hold window, at a clock before its end, though the row names only the last of them. No legal history
      grants even two of these holds. */
  lemma NaiveOversells(seat: Seat, n: nat, now: Time, duration: int) returns (run: seq<Action>)
    requires n >= 2 && seat.status == AVAILABLE && Coherent(seat) && duration > 0
    ensures Runs(OneSeat(seat, now), run)
    ensures var w := Exec(OneSeat(seat, now), run);
      && (forall k: nat :: k < n ==>
           k in w.clients && w.clients[k].phase == Done(true) && w.clients[k].req == Rival(seat, k, now, duration))
      && seat.id in w.db.seats && w.db.seats[seat.id].version == seat.version + 1
      && w.db.seats[seat.id].status == HELD && w.db.seats[seat.id].heldBy == Some(Name(n - 1))
      && w.db.seats[seat.id].expiresAt == Some(now + duration)
      && w.clock < now + duration
    ensures forall j: nat, k: nat :: j < k ==> Name(j) != Name(k)
    ensures forall db, tr, j, k :: Inv(db) && ValidTrace(db, tr) ==> !Overlap(tr, j, k, seat.id, now, duration)
  {
    run := RaceToTheEnd(seat, now, duration, n);
    forall j: nat, k: nat | j < k ensures Name(j) != Name(k) {
      assert |Name(j)| == j && |Name(k)| == k;
    }
    forall db, tr, j: nat, k: nat | Inv(db) && ValidTrace(db, tr) ensures !Overlap(tr, j, k, seat.id, now, duration) {
      NoOverlap(db, tr, j, k, seat.id, now, duration);
    }
  }

  /** It does worse than that. If the seat it read as free has been held and confirmed by another session meanwhile, its
      write takes the booked seat back to HELD with a version lower than the row had, and leaves booking_id as it
      is, since that column had not changed: a row no check accepts. */
  lemma NaiveUndoesBooking(seat: Seat, other: Session, until: Time, booking: int, who: Session, now: Time,
      duration: int)
    requires seat.status == AVAILABLE && Coherent(seat) && duration > 0
    ensures var booked := BookRow(HoldRow(seat, other, until), booking);
      var t := map[seat.id := booked];
      var after := (t + NaiveRows(t, map[seat.id := seat], who, now, duration))[seat.id];
      && after.status == HELD && after.heldBy == Some(who) && after.expiresAt == Some(now + duration)
      && after.version < booked.version && after.bookingId == Some(booking) && !Coherent(after)
  {
  }
}
