/** Inside a run the sweeper is visible after all: between an optimistic read and its UPDATE it moves the version. */
module SweepRace {
  import opened SeatMachine
  import opened Collections
  import opened Ledger
  import opened History
  import opened Interleaving
  import opened Refinement
  import opened Progress
  import opened Deadlock
  import opened Alone
  import opened Requests

  /** An attempt at seat i, by client 0. */
  predicate TryFor(r: Request, i: int) {
    r.Optimistic? && r.ids == [i] && r.maxAttempts >= 1
  }

  /** Client 0 has read and validated seat i. */
  ghost predicate Validated1(w: World, row: Seat, i: int, r: Request) {
    0 in w.clients && w.clients[0] == Client(r, Validated(map[i := row]), 1, map[], map[])
  }

  lemma ReadsOne(w: World, i: int, r: Request)
    requires Fresh(w, 0, r) && r.Optimistic? && r.ids == [i] && i in w.db.seats
    ensures Enabled(w, SelectRows(0)) && OnlyMoved(w, Do(w, SelectRows(0)), 0)
    ensures Do(w, SelectRows(0)).clients[0] == Client(r, Read(map[i := w.db.seats[i]]), 1, map[], map[])
  {
    assert Restrict(w.db.seats, Elems([i])) == map[i := w.db.seats[i]];
  }

  lemma ValidatesOne(w: World, i: int, r: Request)
    requires 0 in w.clients && i in w.db.seats && r.Optimistic? && r.ids == [i]
    requires w.clients[0] == Client(r, Read(map[i := w.db.seats[i]]), 1, map[], map[])
    requires Hold(w.db.seats[i], r.who, r.now, r.duration).Ok?
    ensures Enabled(w, Validate(0)) && OnlyMoved(w, Do(w, Validate(0)), 0)
    ensures Validated1(Do(w, Validate(0)), w.db.seats[i], i, r)
  {
  }

  /** What the UPDATE makes of a validated attempt: it wins with the row unchanged, and loses with the version moved. */
  lemma UpdateHits(w: World, i: int, r: Request)
    requires i in w.db.seats && Validated1(w, w.db.seats[i], i, r) && r.Optimistic? && r.ids == [i]
    requires Reclaimable(w.db.seats[i], r.now)
    ensures Enabled(w, BeginUpdate(0)) && OnlyMoved(w, Do(w, BeginUpdate(0)), 0)
    ensures Do(w, BeginUpdate(0)).clients[0] == Client(r, Updating(map[i := w.db.seats[i]], {i}), 1, map[], map[])
  {
    assert forall k :: k in Hits(w.db.seats, r, map[i := w.db.seats[i]]) <==> k == i;
    assert Hits(w.db.seats, r, map[i := w.db.seats[i]]) == {i};
  }

  lemma UpdateMisses(w: World, row: Seat, i: int, r: Request)
    requires i in w.db.seats && Validated1(w, row, i, r) && r.Optimistic? && r.ids == [i]
    requires w.db.seats[i].version != row.version
    ensures Enabled(w, BeginUpdate(0)) && OnlyMoved(w, Do(w, BeginUpdate(0)), 0)
    ensures Do(w, BeginUpdate(0)).clients[0] == Client(r, Updating(map[i := row], {}), 1, map[], map[])
  {
    assert Hits(w.db.seats, r, map[i := row]) == {};
  }

  lemma Wins(w: World, i: int, r: Request)
    requires i in w.db.seats && r.Optimistic? && r.ids == [i] && Reclaimable(w.db.seats[i], r.now)
    requires w.clients.Keys == {0}
    requires w.clients[0] == Client(r, Updating(map[i := w.db.seats[i]], {i}), 1, map[], map[])
    ensures Enabled(w, UpdateRow(0, i)) && Enabled(Do(w, UpdateRow(0, i)), EndUpdate(0))
    ensures Do(Do(w, UpdateRow(0, i)), EndUpdate(0)).clients[0].phase == Written(true)
  {
    var w1 := Do(w, UpdateRow(0, i));
    assert w1.clients[0].phase.todo == {} && w1.clients[0].writes.Keys == {i};
  }

  /** The attempt has failed, and another one starts if the budget allows it. */
  predicate Lost1(cl: Client, r: Request)
    requires r.Optimistic?
  {
    cl == if r.maxAttempts == 1 then Client(r, Done(false), 1, map[], map[]) else Client(r, Start, 2, map[], map[])
  }

  lemma Loses(w: World, row: Seat, i: int, r: Request)
    requires TryFor(r, i)
    requires 0 in w.clients && w.clients[0] == Client(r, Updating(map[i := row], {}), 1, map[], map[])
    ensures Enabled(w, EndUpdate(0)) && Enabled(Do(w, EndUpdate(0)), Conflict(0))
    ensures var w' := Do(Do(w, EndUpdate(0)), Conflict(0)); w'.db == w.db && w'.clients.Keys == w.clients.Keys
    ensures var w' := Do(Do(w, EndUpdate(0)), Conflict(0));
      && Lost1(w'.clients[0], r) && forall d :: d in w.clients && d != 0 ==> w'.clients[d] == w.clients[d]
  {
    assert w.clients[0].writes.Keys == {};
  }

  /** The sweeper, as client 1, has selected and locked these rows. */
  ghost predicate Selected1(w: World, batch: nat, now: Time, chosen: set<int>) {
    && w.clients.Keys == {0, 1}
    && w.clients[1] == Client(Sweep(batch, now), Checked, 1, Restrict(w.db.seats, chosen), map[])
  }

  lemma SweeperSees(w: World, batch: nat, now: Time)
    requires w.clients.Keys == {0} && w.clients[0].locked == map[] && now <= w.clock
    ensures Enabled(w, Begin(1, Sweep(batch, now)))
    ensures Candidates(Do(w, Begin(1, Sweep(batch, now))), 1) == Backlog(w.db.seats, now)
  {
    var w1 := Do(w, Begin(1, Sweep(batch, now)));
    assert forall k :: k in Candidates(w1, 1) <==> k in Backlog(w.db.seats, now);
  }

  lemma Sweeps(w: World, batch: nat, now: Time)
    requires w.clients.Keys == {0} && w.clients[0].locked == map[] && now <= w.clock
    ensures var a := Begin(1, Sweep(batch, now)); var b := SkipLocked(1, First(Backlog(w.db.seats, now), batch));
      && Enabled(w, a) && Enabled(Do(w, a), b)
      && Do(Do(w, a), b).db == w.db && Do(Do(w, a), b).clients[0] == w.clients[0]
      && Selected1(Do(Do(w, a), b), batch, now, First(Backlog(w.db.seats, now), batch))
  {
    SweeperSees(w, batch, now);
  }

  lemma SweepCommits(w: World, i: int, batch: nat, now: Time, chosen: set<int>)
    requires i in chosen && i in w.db.seats && Overdue(w.db.seats[i], now) && w.clients.Keys == {0, 1}
    requires w.clients[1] == Client(Sweep(batch, now), Checked, 1, Restrict(w.db.seats, chosen), map[])
    ensures Enabled(w, Write(1)) && Enabled(Do(w, Write(1)), Commit(1))
    ensures var w' := Do(Do(w, Write(1)), Commit(1));
      && w'.clients.Keys == {0, 1} && w'.clients[0] == w.clients[0] && w'.clients[1].phase == Done(true)
      && i in w'.db.seats && w'.db.seats[i].version == w.db.seats[i].version + 1
      && w'.db.seats[i].status == AVAILABLE
  {
    assert i in Restrict(w.db.seats, chosen).Keys;
    var w1 := Do(w, Write(1));
    assert i in w1.clients[1].writes;
  }

  lemma GoesOnOn(run: seq<Action>, mid: seq<Action>, run': seq<Action>, c: int)
    requires GoesOn(run, mid, c) && GoesOn(mid, run', c)
    ensures GoesOn(run, run', c)
  {
  }

  lemma On(w0: World, run: seq<Action>, a: Action, c: int) returns (run': seq<Action>)
    requires Runs(w0, run) && Safe(run) && Protocol(a) && Of(a, c) && Enabled(Exec(w0, run), a)
    ensures GoesOn(run, run', c) && Runs(w0, run') && Safe(run') && Exec(w0, run') == Do(Exec(w0, run), a)
  {
    RunsSnoc(w0, run, a);
    run' := run + [a];
  }

  lemma OnTwice(w0: World, run: seq<Action>, a: Action, b: Action, c: int) returns (run': seq<Action>)
    requires Runs(w0, run) && Safe(run) && Protocol(a) && Protocol(b) && Of(a, c) && Of(b, c)
    requires Enabled(Exec(w0, run), a) && Enabled(Do(Exec(w0, run), a), b)
    ensures GoesOn(run, run', c) && Runs(w0, run') && Safe(run') && Exec(w0, run') == Do(Do(Exec(w0, run), a), b)
  {
    var mid := On(w0, run, a, c);
    run' := On(w0, mid, b, c);
    GoesOnOn(run, mid, run', c);
  }

  lemma ReadAndValidate(w0: World, i: int, r: Request) returns (run: seq<Action>)
    requires Initial(w0) && i in w0.db.seats && TryFor(r, i) && r.now <= w0.clock
    requires Hold(w0.db.seats[i], r.who, r.now, r.duration).Ok?
    ensures Runs(w0, run) && Safe(run) && GoesOn([], run, 0)
    ensures var w := Exec(w0, run);
      w.db == w0.db && w.clock == w0.clock && w.clients.Keys == {0} && Validated1(w, w.db.seats[i], i, r)
  {
    var begun := ReadSeat(w0, i, r);
    ghost var w := Exec(w0, begun);
    ValidatesOne(w, i, r);
    run := On(w0, begun, Validate(0), 0);
    GoesOnOn([], begun, run, 0);
    MovedOn(w0, w, Exec(w0, run), 0);
  }

  lemma ReadSeat(w0: World, i: int, r: Request) returns (run: seq<Action>)
    requires Initial(w0) && i in w0.db.seats && TryFor(r, i) && r.now <= w0.clock
    ensures Runs(w0, run) && Safe(run) && GoesOn([], run, 0) && OnlyMoved(w0, Exec(w0, run), 0)
    ensures Exec(w0, run).clients[0] == Client(r, Read(map[i := w0.db.seats[i]]), 1, map[], map[])
  {
    Starts(w0, 0, r);
    ghost var w1 := Do(w0, Begin(0, r));
    ReadsOne(w1, i, r);
    run := OnTwice(w0, [], Begin(0, r), SelectRows(0), 0);
    MovedOn(w0, w1, Exec(w0, run), 0);
  }

  /** Client 0 is inside its UPDATE, with these rows to lock. */
  ghost predicate Updating1(w: World, row: Seat, i: int, r: Request, todo: set<int>) {
    0 in w.clients && w.clients[0] == Client(r, Updating(map[i := row], todo), 1, map[], map[])
  }

  lemma AloneBegins(w0: World, run: seq<Action>, i: int, r: Request) returns (run': seq<Action>)
    requires Runs(w0, run) && Safe(run) && TryFor(r, i) && i in Exec(w0, run).db.seats
    requires Exec(w0, run).clients.Keys == {0} && Validated1(Exec(w0, run), Exec(w0, run).db.seats[i], i, r)
    requires Reclaimable(Exec(w0, run).db.seats[i], r.now)
    ensures GoesOn(run, run', 0) && Runs(w0, run') && Safe(run')
    ensures var w, w' := Exec(w0, run), Exec(w0, run');
      w'.db == w.db && w'.clients.Keys == {0} && Updating1(w', w.db.seats[i], i, r, {i})
  {
    UpdateHits(Exec(w0, run), i, r);
    run' := On(w0, run, BeginUpdate(0), 0);
  }

  lemma AloneWins(w0: World, run: seq<Action>, i: int, r: Request) returns (run': seq<Action>)
    requires Runs(w0, run) && Safe(run) && TryFor(r, i) && i in Exec(w0, run).db.seats
    requires Exec(w0, run).clients.Keys == {0} && Updating1(Exec(w0, run), Exec(w0, run).db.seats[i], i, r, {i})
    requires Reclaimable(Exec(w0, run).db.seats[i], r.now)
    ensures GoesOn(run, run', 0) && Runs(w0, run') && Safe(run')
    ensures 0 in Exec(w0, run').clients && Exec(w0, run').clients[0].phase == Written(true)
  {
    Wins(Exec(w0, run), i, r);
    run' := OnTwice(w0, run, UpdateRow(0, i), EndUpdate(0), 0);
  }

  lemma AloneCommits(w0: World, run: seq<Action>) returns (run': seq<Action>)
    requires Runs(w0, run) && Safe(run) && 0 in Exec(w0, run).clients && Exec(w0, run).clients[0].phase == Written(true)
    ensures GoesOn(run, run', 0) && Runs(w0, run') && Safe(run')
    ensures 0 in Exec(w0, run').clients && Exec(w0, run').clients[0].phase == Done(true)
  {
    run' := On(w0, run, Commit(0), 0);
  }

  /** Left alone, the attempt wins. */
  lemma GoesOnAlone(w0: World, run: seq<Action>, i: int, r: Request) returns (run': seq<Action>)
    requires Runs(w0, run) && Safe(run) && TryFor(r, i) && i in Exec(w0, run).db.seats
    requires Exec(w0, run).clients.Keys == {0} && Validated1(Exec(w0, run), Exec(w0, run).db.seats[i], i, r)
    requires Reclaimable(Exec(w0, run).db.seats[i], r.now)
    ensures GoesOn(run, run', 0) && Runs(w0, run') && Safe(run')
    ensures 0 in Exec(w0, run').clients && Exec(w0, run').clients[0].phase == Done(true)
  {
    var begun := AloneBegins(w0, run, i, r);
    var updated := AloneWins(w0, begun, i, r);
    run' := AloneCommits(w0, updated);
    GoesOnOn(run, begun, updated, 0);
    GoesOnOn(run, updated, run', 0);
  }

  lemma PassSelects(w0: World, run: seq<Action>, batch: nat, now: Time, chosen: set<int>) returns (run': seq<Action>)
    requires Runs(w0, run) && Safe(run) && Exec(w0, run).clients.Keys == {0} && Exec(w0, run).clients[0].locked == map[]
    requires now <= Exec(w0, run).clock && chosen == First(Backlog(Exec(w0, run).db.seats, now), batch)
    ensures GoesOn(run, run', 1) && Runs(w0, run') && Safe(run')
    ensures var w, w' := Exec(w0, run), Exec(w0, run');
      w'.db == w.db && Selected1(w', batch, now, chosen) && w'.clients[0] == w.clients[0]
  {
    Sweeps(Exec(w0, run), batch, now);
    run' := OnTwice(w0, run, Begin(1, Sweep(batch, now)), SkipLocked(1, chosen), 1);
  }

  lemma PassCommits(w0: World, run: seq<Action>, i: int, batch: nat, now: Time, chosen: set<int>)
      returns (run': seq<Action>)
    requires Runs(w0, run) && Safe(run) && Selected1(Exec(w0, run), batch, now, chosen)
    requires i in chosen && i in Exec(w0, run).db.seats && Overdue(Exec(w0, run).db.seats[i], now)
    ensures GoesOn(run, run', 1) && Runs(w0, run') && Safe(run')
    ensures var w, w' := Exec(w0, run), Exec(w0, run');
      && w'.clients.Keys == {0, 1} && w'.clients[0] == w.clients[0] && w'.clients[1].phase == Done(true)
      && i in w'.db.seats && w'.db.seats[i].version == w.db.seats[i].version + 1
      && w'.db.seats[i].status == AVAILABLE
  {
    SweepCommits(Exec(w0, run), i, batch, now, chosen);
    run' := OnTwice(w0, run, Write(1), Commit(1), 1);
  }

  lemma SweeperPasses(w0: World, run: seq<Action>, i: int, batch: nat, now: Time, chosen: set<int>)
      returns (run': seq<Action>)
    requires Runs(w0, run) && Safe(run) && Exec(w0, run).clients.Keys == {0} && Exec(w0, run).clients[0].locked == map[]
    requires now <= Exec(w0, run).clock && chosen == First(Backlog(Exec(w0, run).db.seats, now), batch)
    requires i in chosen && i in Exec(w0, run).db.seats && Overdue(Exec(w0, run).db.seats[i], now)
    ensures GoesOn(run, run', 1) && Runs(w0, run') && Safe(run')
    ensures var w, w' := Exec(w0, run), Exec(w0, run');
      && w'.clients.Keys == {0, 1} && w'.clients[0] == w.clients[0] && w'.clients[1].phase == Done(true)
      && i in w'.db.seats && w'.db.seats[i].version == w.db.seats[i].version + 1
      && w'.db.seats[i].status == AVAILABLE
  {
    var selected := PassSelects(w0, run, batch, now, chosen);
    run' := PassCommits(w0, selected, i, batch, now, chosen);
    GoesOnOn(run, selected, run', 1);
  }

  lemma SweptBegins(w0: World, run: seq<Action>, row: Seat, i: int, r: Request) returns (run': seq<Action>)
    requires Runs(w0, run) && Safe(run) && TryFor(r, i) && i in Exec(w0, run).db.seats
    requires Validated1(Exec(w0, run), row, i, r) && Exec(w0, run).db.seats[i].version != row.version
    ensures GoesOn(run, run', 0) && Runs(w0, run') && Safe(run')
    ensures Updating1(Exec(w0, run'), row, i, r, {}) && OnlyMoved(Exec(w0, run), Exec(w0, run'), 0)
  {
    UpdateMisses(Exec(w0, run), row, i, r);
    run' := On(w0, run, BeginUpdate(0), 0);
  }

  lemma SweptLoses(w0: World, run: seq<Action>, row: Seat, i: int, r: Request) returns (run': seq<Action>)
    requires Runs(w0, run) && Safe(run) && TryFor(r, i) && Updating1(Exec(w0, run), row, i, r, {})
    ensures GoesOn(run, run', 0) && Runs(w0, run') && Safe(run')
    ensures var w, w' := Exec(w0, run), Exec(w0, run');
      && w'.db == w.db && w'.clients.Keys == w.clients.Keys && Lost1(w'.clients[0], r)
      && forall d :: d in w.clients && d != 0 ==> w'.clients[d] == w.clients[d]
  {
    Loses(Exec(w0, run), row, i, r);
    run' := OnTwice(w0, run, EndUpdate(0), Conflict(0), 0);
  }

  /** With the version moved, the attempt fails. */
  lemma GoesOnSwept(w0: World, run: seq<Action>, row: Seat, i: int, r: Request) returns (run': seq<Action>)
    requires Runs(w0, run) && Safe(run) && TryFor(r, i) && i in Exec(w0, run).db.seats
    requires Validated1(Exec(w0, run), row, i, r) && Exec(w0, run).db.seats[i].version != row.version
    ensures GoesOn(run, run', 0) && Runs(w0, run') && Safe(run')
    ensures var w, w' := Exec(w0, run), Exec(w0, run');
      && w'.db == w.db && w'.clients.Keys == w.clients.Keys && Lost1(w'.clients[0], r)
      && forall d :: d in w.clients && d != 0 ==> w'.clients[d] == w.clients[d]
  {
    var begun := SweptBegins(w0, run, row, i, r);
    run' := SweptLoses(w0, begun, row, i, r);
    GoesOnOn(run, begun, run', 0);
  }

  /** Take any seat with an overdue hold, and an attempt at it that has read and validated it. Left alone, the
      attempt wins. With one sweeper pass before its UPDATE, and nothing else different, it fails. If that was the
      last attempt of the budget, the request has failed; if not, it has lost nothing but the attempt: it can
      still succeed. */
  lemma SweepDefeatsAttempt(w0: World, i: int, r: Request, batch: nat)
      returns (start: seq<Action>, alone: seq<Action>, pass: seq<Action>, swept: seq<Action>)
    requires Initial(w0) && i in w0.db.seats && TryFor(r, i) && r.now <= w0.clock && r.duration > 0
    requires i in First(Backlog(w0.db.seats, r.now), batch)
    ensures GoesOn([], start, 0) && GoesOn(start, alone, 0) && GoesOn(start, pass, 1) && GoesOn(pass, swept, 0)
    ensures Runs(w0, alone) && Safe(alone) && Runs(w0, swept) && Safe(swept)
    ensures 0 in Exec(w0, alone).clients && Exec(w0, alone).clients[0].phase == Done(true)
    ensures 0 in Exec(w0, swept).clients
    ensures r.maxAttempts == 1 ==> Exec(w0, swept).clients[0].phase == Done(false)
    ensures r.maxAttempts > 1 ==> Exec(w0, swept).clients[0].attempt == 2 && CanSucceed(Exec(w0, swept), 0)
  {
    var chosen := First(Backlog(w0.db.seats, r.now), batch);
    assert i in Backlog(w0.db.seats, r.now);
    HoldUpdateAgrees(w0.db.seats[i], r.who, r.now, r.duration);
    start := ReadAndValidate(w0, i, r);
    alone := GoesOnAlone(w0, start, i, r);
    pass := SweeperPasses(w0, start, i, batch, r.now, chosen);
    swept := GoesOnSwept(w0, pass, w0.db.seats[i], i, r);
    if r.maxAttempts > 1 { Recovers(w0, swept, i, r); }
  }

  lemma Recovers(w0: World, run: seq<Action>, i: int, r: Request)
    requires Initial(w0) && Runs(w0, run) && Safe(run) && TryFor(r, i) && r.duration > 0
    requires var w := Exec(w0, run);
      && w.clients.Keys == {0, 1} && w.clients[1].phase == Done(true)
      && w.clients[0] == Client(r, Start, 2, map[], map[])
      && i in w.db.seats && w.db.seats[i].status == AVAILABLE
    ensures CanSucceed(Exec(w0, run), 0)
  {
    Reachable(w0, run);
    RecoversHere(Exec(w0, run), w0.db, i, r);
  }

  lemma RecoversHere(w: World, db0: Db, i: int, r: Request)
    requires WInv(w, db0) && TryFor(r, i) && r.duration > 0 && w.clients.Keys == {0, 1}
    requires w.clients[0] == Client(r, Start, 2, map[], map[]) && w.clients[1].phase == Done(true)
    requires i in w.db.seats && w.db.seats[i].status == AVAILABLE
    ensures CanSucceed(w, 0)
  {
    assert Elems([i]) == {i} && AboutToStart(w, db0, 0);
    UndisturbedSucceedsIffPossible(w, db0, 0);
  }
}
