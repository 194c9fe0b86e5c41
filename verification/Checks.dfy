/** The executable invariants (app/domain/invariants.py) over a snapshot of the seat table, and what they
    report about the states the protocol can reach. */
module Checks {
  import opened SeatMachine
  import opened Collections
  import opened Ledger
  import opened History
  import opened Interleaving
  import opened Refinement

  // ---------------------------------------------------------------- the checks

  function HowMany(seats: seq<Seat>, status: SeatStatus): nat {
    if seats == [] then 0
    else HowMany(seats[..|seats| - 1], status) + (if seats[|seats| - 1].status == status then 1 else 0)
  }

  lemma {:induction false} HowManyCounts(seats: seq<Seat>, status: SeatStatus)
    ensures HowMany(seats, status) == |(set k | 0 <= k < |seats| && seats[k].status == status)|
  {
    var here := set k | 0 <= k < |seats| && seats[k].status == status;
    if seats == [] {
      assert here == {};
    } else {
      var n := |seats| - 1;
      HowManyCounts(seats[..n], status);
      var before := set k | 0 <= k < n && seats[..n][k].status == status;
      assert before == here - {n};
      assert n in here <==> seats[n].status == status;
    }
  }

  /** I2. Every seat has one of the three statuses, so the counts add up exactly to the snapshot's size. */
  method CheckConservation(seats: seq<Seat>, total: int) returns (ok: bool, counts: map<SeatStatus, int>)
    ensures ok <==> |seats| == total
    ensures counts ==
      map[AVAILABLE := HowMany(seats, AVAILABLE), HELD := HowMany(seats, HELD), BOOKED := HowMany(seats, BOOKED)]
  {
    counts := map[AVAILABLE := 0, HELD := 0, BOOKED := 0];
    for k := 0 to |seats|
      invariant counts ==
        map[AVAILABLE := HowMany(seats[..k], AVAILABLE),
            HELD := HowMany(seats[..k], HELD), BOOKED := HowMany(seats[..k], BOOKED)]
      invariant counts[AVAILABLE] + counts[HELD] + counts[BOOKED] == k
    {
      assert seats[..k + 1][..k] == seats[..k];
      match seats[k].status {
        case AVAILABLE => counts := counts[AVAILABLE := counts[AVAILABLE] + 1];
        case HELD => counts := counts[HELD := counts[HELD] + 1];
        case BOOKED => counts := counts[BOOKED := counts[BOOKED] + 1];
      }
    }
    assert seats[..|seats|] == seats;
    ok := counts[AVAILABLE] + counts[HELD] + counts[BOOKED] == total;
  }

  ghost predicate DistinctIds(seats: seq<Seat>) {
    forall j, k :: 0 <= j < k < |seats| ==> seats[j].id != seats[k].id
  }

  /** I1, as far as a snapshot can show it: no seat has two records. */
  method CheckNoDoubleBooking(seats: seq<Seat>) returns (ok: bool)
    ensures ok <==> DistinctIds(seats)
  {
    var seen: set<int> := {};
    for k := 0 to |seats|
      invariant DistinctIds(seats[..k])
      invariant forall i :: i in seen <==> exists j :: 0 <= j < k && seats[j].id == i
    {
      if seats[k].id in seen {
        return false;
      }
      seen := seen + {seats[k].id};
    }
    assert seats[..|seats|] == seats;
    ok := true;
  }

  /** The hold columns are set exactly on HELD seats, the booking column exactly on BOOKED ones. */
  method CheckStateCoherence(seats: seq<Seat>) returns (ok: bool)
    ensures ok <==> forall k :: 0 <= k < |seats| ==> Coherent(seats[k])
    ensures ok <==> forall k :: 0 <= k < |seats| ==>
      && (seats[k].heldBy.Some? <==> seats[k].status == HELD)
      && (seats[k].expiresAt.Some? <==> seats[k].status == HELD)
      && (seats[k].bookingId.Some? <==> seats[k].status == BOOKED)
  {
    for k := 0 to |seats|
      invariant forall j :: 0 <= j < k ==> Coherent(seats[j])
    {
      var seat := seats[k];
      if seat.status == AVAILABLE {
        if seat.heldBy.Some? { return false; }
        if seat.expiresAt.Some? { return false; }
        if seat.bookingId.Some? { return false; }
      } else if seat.status == HELD {
        if seat.heldBy.None? { return false; }
        if seat.expiresAt.None? { return false; }
        if seat.bookingId.Some? { return false; }
      } else {
        if seat.bookingId.None? { return false; }
        if seat.heldBy.Some? { return false; }
        if seat.expiresAt.Some? { return false; }
      }
    }
    ok := true;
  }

  predicate Linked(seat: Seat, active: set<int>) {
    (seat.status == BOOKED <==> seat.id in active) && (seat.bookingId.Some? ==> seat.id in active)
  }

  method CheckBookingLinkage(seats: seq<Seat>, active: set<int>) returns (ok: bool)
    ensures ok <==> forall k :: 0 <= k < |seats| ==> Linked(seats[k], active)
    ensures ok <==> forall k :: 0 <= k < |seats| ==>
      && (seats[k].status == BOOKED <==> seats[k].id in active)
      && (seats[k].bookingId.Some? ==> seats[k].id in active)
  {
    for k := 0 to |seats|
      invariant forall j :: 0 <= j < k ==> Linked(seats[j], active)
    {
      var isActive := seats[k].id in active;
      if seats[k].status == BOOKED && !isActive { return false; }
      if seats[k].bookingId.Some? && !isActive { return false; }
      if isActive && seats[k].status != BOOKED { return false; }
    }
    ok := true;
  }

  // ---------------------------------------------------------------- what they report on reachable states

  /** Rows sit under their own id. */
  ghost predicate Keyed(t: Table) {
    forall i :: i in t ==> t[i].id == i
  }

  /** A listing of the seat table, in any order, each row once. */
  ghost predicate Snapshot(seats: seq<Seat>, t: Table) {
    && DistinctIds(seats)
    && (forall k :: 0 <= k < |seats| ==> seats[k].id in t && t[seats[k].id] == seats[k])
    && (forall i :: i in t ==> exists k :: 0 <= k < |seats| && seats[k].id == i)
  }

  lemma {:induction false} ReplayKeepsRows(db: Db, tr: Trace)
    requires ValidTrace(db, tr) && Keyed(db.seats)
    ensures Keyed(Replay(db, tr).seats) && Replay(db, tr).seats.Keys == db.seats.Keys
  {
    if tr != [] {
      var n := |tr| - 1;
      ValidPrefix(db, tr, n);
      ReplayKeepsRows(db, tr[..n]);
      OpVersions(Replay(db, tr[..n]), tr[n].op);
    }
  }

  function Ids(seats: seq<Seat>): seq<int> {
    seq(|seats|, k requires 0 <= k < |seats| => seats[k].id)
  }

  lemma SnapshotSize(seats: seq<Seat>, t: Table)
    requires Snapshot(seats, t)
    ensures |seats| == |t|
  {
    var ids := Ids(seats);
    assert NoDup(ids);
    ElemsCard(ids);
    forall i ensures i in t.Keys <==> i in Elems(ids) {
      if i in t {
        var k :| 0 <= k < |seats| && seats[k].id == i;
        assert ids[k] == i;
      }
    }
    assert Elems(ids) == t.Keys;
  }

  lemma SnapshotCoherent(seats: seq<Seat>, db: Db)
    requires Snapshot(seats, db.seats) && Inv(db)
    ensures forall k :: 0 <= k < |seats| ==> Coherent(seats[k])
  {
  }

  lemma SnapshotLinkage(seats: seq<Seat>, db: Db)
    requires Snapshot(seats, db.seats)
    ensures (forall k :: 0 <= k < |seats| ==> Linked(seats[k], ActiveSeats(db))) <==> LinkageHolds(db)
  {
    if forall k :: 0 <= k < |seats| ==> Linked(seats[k], ActiveSeats(db)) {
      forall i | i in db.seats
        ensures (db.seats[i].status == BOOKED <==> i in ActiveSeats(db))
        ensures (db.seats[i].bookingId.Some? ==> i in ActiveSeats(db))
      {
        var k :| 0 <= k < |seats| && seats[k].id == i;
        assert Linked(seats[k], ActiveSeats(db));
      }
    }
  }

  /** Some seat of the table belongs to a booking that was refunded. */
  ghost predicate RefundedSomewhere(db: Db) {
    exists b, i :: b in db.bookings && db.bookings[b].status == REFUNDED && i in db.bookings[b].seatIds && i in db.seats
  }

  /** Whatever interleaving led to it, every committed state passes the conservation, double-booking and
      coherence checks; it passes the linkage check exactly when no seat's booking has been refunded. */
  lemma ReachableStatesPass(w: World, run: seq<Action>, seats: seq<Seat>)
    requires Initial(w) && Runs(w, run) && Safe(run) && Keyed(w.db.seats)
    requires Snapshot(seats, Exec(w, run).db.seats)
    ensures |seats| == |w.db.seats|
    ensures DistinctIds(seats)
    ensures forall k :: 0 <= k < |seats| ==> Coherent(seats[k])
    ensures (forall k :: 0 <= k < |seats| ==> Linked(seats[k], ActiveSeats(Exec(w, run).db))) <==>
      !RefundedSomewhere(Exec(w, run).db)
  {
    RunIsReplayOfItsLog(w, run);
    var db := Exec(w, run).db;
    ReplayKeepsRows(w.db, Exec(w, run).log);
    SnapshotSize(seats, db.seats);
    SnapshotCoherent(seats, db);
    SnapshotLinkage(seats, db);
    LinkageIffNoRefund(db);
    assert |db.seats| == |db.seats.Keys| && |w.db.seats| == |w.db.seats.Keys|;
  }
}
