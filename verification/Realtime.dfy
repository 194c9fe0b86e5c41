/** The coalescing buffer of the realtime seat map (app/realtime/coalescer.py) and the client that
    discards stale versions (web/src/realtime/client.ts). */
module Realtime {
  import opened SeatMachine
  import opened Collections

  // ---------------------------------------------------------------- values

  datatype SeatState = SeatState(status: SeatStatus, expiresAt: Option<Time>, version: int)

  /** rendered_equal: what a viewer sees, not the version. */
  predicate RenderedEqual(a: SeatState, b: SeatState) {
    a.status == b.status && a.expiresAt == b.expiresAt
  }

  datatype SeatDiff = SeatDiff(seatId: int, state: SeatState)

  /** A seat on the client's map: the static place of the snapshot, and the state. */
  datatype RenderedSeat = RenderedSeat(place: string, state: SeatState)

  type SeatMap = map<int, RenderedSeat>

  // ---------------------------------------------------------------- the buffer, as a value

  /** `order` is the insertion order of the pending dictionary. */
  datatype Buffer = Buffer(last: map<int, SeatState>, pending: map<int, SeatState>, order: seq<int>, raw: nat)

  ghost predicate Valid(b: Buffer) {
    NoDup(b.order) && (forall i :: i in b.order <==> i in b.pending) && |b.order| <= b.raw
  }

  function RecordSpec(b: Buffer, seat: int, st: SeatState): Buffer {
    b.(pending := b.pending[seat := st], raw := b.raw + 1,
       order := if seat in b.pending then b.order else b.order + [seat])
  }

  predicate Sent(b: Buffer, seat: int) {
    seat in b.pending && (seat in b.last ==> !RenderedEqual(b.last[seat], b.pending[seat]))
  }

  function Diffs(b: Buffer, order: seq<int>): seq<SeatDiff> {
    if order == [] then []
    else
      var seat := order[|order| - 1];
      Diffs(b, order[..|order| - 1]) + (if Sent(b, seat) then [SeatDiff(seat, b.pending[seat])] else [])
  }

  function FlushSpec(b: Buffer): (Buffer, seq<SeatDiff>, nat) {
    (Buffer(b.last + b.pending, map[], [], 0), Diffs(b, b.order), b.raw)
  }

  /** The last states after the given pending seats have been visited. */
  ghost function Advanced(b: Buffer, order: seq<int>): map<int, SeatState> {
    if order == [] then b.last
    else
      var seat, rest := order[|order| - 1], Advanced(b, order[..|order| - 1]);
      if seat in b.pending then rest[seat := b.pending[seat]] else rest
  }

  lemma {:induction false} AdvancedFrame(b: Buffer, order: seq<int>, i: int)
    ensures i in Advanced(b, order) <==> i in b.last || (i in order && i in b.pending)
    ensures i in Advanced(b, order) ==>
      Advanced(b, order)[i] == if i in order && i in b.pending then b.pending[i] else b.last[i]
  {
    if order != [] {
      AdvancedFrame(b, order[..|order| - 1], i);
      assert i in order <==> i in order[..|order| - 1] || i == order[|order| - 1];
    }
  }

  /** What visiting one more pending seat adds. */
  lemma VisitOne(b: Buffer, order: seq<int>, k: nat)
    requires NoDup(order) && k < |order| && order[k] in b.pending
    ensures Diffs(b, order[..k + 1]) ==
      Diffs(b, order[..k]) + (if Sent(b, order[k]) then [SeatDiff(order[k], b.pending[order[k]])] else [])
    ensures Advanced(b, order[..k + 1]) == Advanced(b, order[..k])[order[k] := b.pending[order[k]]]
    ensures order[k] in Advanced(b, order[..k]) <==> order[k] in b.last
    ensures order[k] in b.last ==> Advanced(b, order[..k])[order[k]] == b.last[order[k]]
  {
    assert order[..k + 1][..k] == order[..k] && order[..k + 1][k] == order[k] && order[k] !in order[..k];
    AdvancedFrame(b, order[..k], order[k]);
  }

  lemma AdvancedAll(b: Buffer)
    requires Valid(b)
    ensures Advanced(b, b.order) == b.last + b.pending
  {
    forall i ensures i in Advanced(b, b.order) <==> i in b.last + b.pending
      ensures i in Advanced(b, b.order) ==> Advanced(b, b.order)[i] == (b.last + b.pending)[i]
    {
      AdvancedFrame(b, b.order, i);
    }
  }

  lemma {:induction false} DiffsAre(b: Buffer, order: seq<int>)
    requires NoDup(order)
    ensures forall d :: d in Diffs(b, order) <==>
      d.seatId in order && Sent(b, d.seatId) && d.state == b.pending[d.seatId]
    ensures forall j, k :: 0 <= j < k < |Diffs(b, order)| ==> Diffs(b, order)[j].seatId != Diffs(b, order)[k].seatId
  {
    if order != [] {
      var init, seat := order[..|order| - 1], order[|order| - 1];
      DiffsAre(b, init);
      assert seat !in init;
      assert forall i :: i in order <==> i in init || i == seat;
      var ds := Diffs(b, init);
      assert forall k :: 0 <= k < |ds| ==> ds[k] in ds;
      assert Sent(b, seat) ==> Diffs(b, order) == ds + [SeatDiff(seat, b.pending[seat])];
      assert !Sent(b, seat) ==> Diffs(b, order) == ds;
    }
  }

  /** A flush sends, once each, exactly the seats touched since the last one that were never flushed before or whose
      status or expiry has changed since, each in the state recorded last. */
  lemma FlushSendsChanges(b: Buffer)
    requires Valid(b)
    ensures var diffs := FlushSpec(b).1;
      && (forall d :: d in diffs <==>
           && d.seatId in b.pending && d.state == b.pending[d.seatId]
           && (d.seatId !in b.last || b.last[d.seatId].status != d.state.status
               || b.last[d.seatId].expiresAt != d.state.expiresAt))
      && (forall j, k :: 0 <= j < k < |diffs| ==> diffs[j].seatId != diffs[k].seatId)
  {
    DiffsAre(b, b.order);
  }

  // ---------------------------------------------------------------- the coalescer object

  class SectionCoalescer {
    var lastState: map<int, SeatState>
    var pending: map<int, SeatState>
    var order: seq<int>
    var rawEventCount: nat

    ghost function Value(): Buffer
      reads this
    {
      Buffer(lastState, pending, order, rawEventCount)
    }

    constructor ()
      ensures Value() == Buffer(map[], map[], [], 0) && Valid(Value())
    {
      lastState, pending, order, rawEventCount := map[], map[], [], 0;
    }

    /** Last write wins within a window. */
    method Record(seat: int, st: SeatState)
      requires Valid(Value())
      modifies this
      ensures Value() == RecordSpec(old(Value()), seat, st) && Valid(Value())
    {
      if seat !in pending {
        order := order + [seat];
      }
      pending := pending[seat := st];
      rawEventCount := rawEventCount + 1;
    }

    /** One diff per seat whose rendering changed since the last flush; lastState advances for every seat
        touched, sent or not. */
    method Flush() returns (diffs: seq<SeatDiff>, rawCount: nat)
      requires Valid(Value())
      modifies this
      ensures (Value(), diffs, rawCount) == FlushSpec(old(Value())) && Valid(Value())
    {
      diffs := [];
      ghost var before := Value();
      for k := 0 to |order|
        invariant order == before.order && pending == before.pending && rawEventCount == before.raw
        invariant diffs == Diffs(before, order[..k])
        invariant lastState == Advanced(before, order[..k])
      {
        var seat := order[k];
        VisitOne(before, order, k);
        var st := pending[seat];
        if seat !in lastState || !RenderedEqual(lastState[seat], st) {
          diffs := diffs + [SeatDiff(seat, st)];
        }
        lastState := lastState[seat := st];
      }
      assert order[..|order|] == order;
      AdvancedAll(before);
      rawCount := rawEventCount;
      pending, order, rawEventCount := map[], [], 0;
    }
  }

  // ---------------------------------------------------------------- the client

  function ApplyDiff(seats: SeatMap, d: SeatDiff): SeatMap {
    if d.seatId !in seats || d.state.version <= seats[d.seatId].state.version then seats
    else seats[d.seatId := seats[d.seatId].(state := d.state)]
  }

  function ApplyAll(seats: SeatMap, diffs: seq<SeatDiff>): SeatMap {
    if diffs == [] then seats else ApplyDiff(ApplyAll(seats, diffs[..|diffs| - 1]), diffs[|diffs| - 1])
  }

  method ApplySeatDiffs(seats: SeatMap, diffs: seq<SeatDiff>) returns (next: SeatMap)
    ensures next == ApplyAll(seats, diffs)
  {
    next := seats;
    for k := 0 to |diffs|
      invariant next == ApplyAll(seats, diffs[..k])
    {
      assert diffs[..k + 1][..k] == diffs[..k];
      next := ApplyDiff(next, diffs[k]);
    }
    assert diffs[..|diffs|] == diffs;
  }

  /** The last entry of the snapshot for seat i. */
  function EntryFor(snapshot: seq<(int, RenderedSeat)>, i: int): Option<RenderedSeat> {
    if snapshot == [] then None
    else if snapshot[|snapshot| - 1].0 == i then Some(snapshot[|snapshot| - 1].1)
    else EntryFor(snapshot[..|snapshot| - 1], i)
  }

  function Lookup(seats: SeatMap, i: int): Option<RenderedSeat> {
    if i in seats then Some(seats[i]) else None
  }

  lemma {:induction false} EntryIsLast(snapshot: seq<(int, RenderedSeat)>, i: int)
    ensures EntryFor(snapshot, i).None? <==> forall k :: 0 <= k < |snapshot| ==> snapshot[k].0 != i
    ensures forall k :: 0 <= k < |snapshot| && LastFor(snapshot, k, i) ==> EntryFor(snapshot, i) == Some(snapshot[k].1)
  {
    if snapshot != [] {
      var init := snapshot[..|snapshot| - 1];
      EntryIsLast(init, i);
      forall k | 0 <= k < |snapshot| && LastFor(snapshot, k, i)
        ensures EntryFor(snapshot, i) == Some(snapshot[k].1)
      {
        if k < |init| { assert snapshot[|init|].0 != i && init[k] == snapshot[k] && LastFor(init, k, i); }
      }
    }
  }

  /** The k-th entry is for seat i, and no later one is. */
  ghost predicate LastFor(snapshot: seq<(int, RenderedSeat)>, k: int, i: int)
    requires 0 <= k < |snapshot|
  {
    snapshot[k].0 == i && forall j :: k < j < |snapshot| ==> snapshot[j].0 != i
  }

  /** Exactly the seats of the snapshot; a repeated id keeps its last entry. */
  method BuildSeatMap(snapshot: seq<(int, RenderedSeat)>) returns (seats: SeatMap)
    ensures forall i :: Lookup(seats, i) == EntryFor(snapshot, i)
    ensures forall i :: i in seats <==> exists k :: 0 <= k < |snapshot| && snapshot[k].0 == i
    ensures forall i, k :: 0 <= k < |snapshot| && LastFor(snapshot, k, i) ==> i in seats && seats[i] == snapshot[k].1
  {
    seats := map[];
    for n := 0 to |snapshot|
      invariant forall i :: Lookup(seats, i) == EntryFor(snapshot[..n], i)
    {
      assert snapshot[..n + 1][..n] == snapshot[..n];
      seats := seats[snapshot[n].0 := snapshot[n].1];
    }
    assert snapshot[..|snapshot|] == snapshot;
    forall i ensures i in seats <==> exists k :: 0 <= k < |snapshot| && snapshot[k].0 == i
      ensures forall k :: 0 <= k < |snapshot| && LastFor(snapshot, k, i) ==> i in seats && seats[i] == snapshot[k].1
    {
      EntryIsLast(snapshot, i);
      assert Lookup(seats, i) == EntryFor(snapshot, i);
    }
  }

  /** Versions on the client never go backwards and the set of seats never changes, whatever arrives. */
  lemma {:induction false} ClientNeverRegresses(seats: SeatMap, diffs: seq<SeatDiff>, i: int)
    ensures i in ApplyAll(seats, diffs) <==> i in seats
    ensures i in seats ==> seats[i].state.version <= ApplyAll(seats, diffs)[i].state.version
    ensures i in seats ==> seats[i].place == ApplyAll(seats, diffs)[i].place
  {
    if diffs != [] {
      ClientNeverRegresses(seats, diffs[..|diffs| - 1], i);
    }
  }

  // ---------------------------------------------------------------- what one flush does to one seat

  /** The state a client ends up with when it receives st. */
  function Newer(current: SeatState, st: SeatState): SeatState {
    if st.version <= current.version then current else st
  }

  lemma FlushSnoc(b: Buffer, init: seq<int>, seat: int, seats: SeatMap)
    ensures var before := ApplyAll(seats, Diffs(b, init));
      ApplyAll(seats, Diffs(b, init + [seat])) ==
        if Sent(b, seat) then ApplyDiff(before, SeatDiff(seat, b.pending[seat])) else before
  {
    var ds := Diffs(b, init);
    assert (init + [seat])[..|init|] == init;
    if Sent(b, seat) {
      var all := ds + [SeatDiff(seat, b.pending[seat])];
      assert Diffs(b, init + [seat]) == all && all[..|all| - 1] == ds;
    } else {
      assert ds + [] == ds;
    }
  }

  lemma {:induction false} FlushOneSeat(b: Buffer, order: seq<int>, seats: SeatMap, i: int)
    requires NoDup(order) && i in seats
    ensures i in ApplyAll(seats, Diffs(b, order))
    ensures ApplyAll(seats, Diffs(b, order))[i] ==
      if i in order && Sent(b, i) then seats[i].(state := Newer(seats[i].state, b.pending[i])) else seats[i]
  {
    if order != [] {
      var init, seat := order[..|order| - 1], order[|order| - 1];
      FlushOneSeat(b, init, seats, i);
      assert order == init + [seat];
      FlushSnoc(b, init, seat, seats);
      assert i in order <==> i in init || i == seat;
    }
  }

  // ---------------------------------------------------------------- coalesced against naive fanout

  datatype Ev = Recorded(seat: int, st: SeatState) | Flushed

  /** The buffer, the client fed by its flushes, a client fed every raw update, the number of raw updates the
      flushes reported, and the number of diffs they sent. */
  datatype World = World(buf: Buffer, client: SeatMap, naive: SeatMap, reported: nat, sent: nat)

  function Next(w: World, ev: Ev): World {
    match ev
    case Recorded(seat, st) => w.(buf := RecordSpec(w.buf, seat, st), naive := ApplyDiff(w.naive, SeatDiff(seat, st)))
    case Flushed =>
      var (buf, diffs, raw) := FlushSpec(w.buf);
      w.(buf := buf, client := ApplyAll(w.client, diffs), reported := w.reported + raw, sent := w.sent + |diffs|)
  }

  function Run(w: World, evs: seq<Ev>): World {
    if evs == [] then w else Next(Run(w, evs[..|evs| - 1]), evs[|evs| - 1])
  }

  /** The last state recorded for a seat, or what the client joined with. */
  function Latest(w: World, i: int): SeatState
    requires i in w.client
  {
    if i in w.buf.pending then w.buf.pending[i] else if i in w.buf.last then w.buf.last[i] else w.client[i].state
  }

  /** The update follows the last one for its seat in version order (or repeats it). */
  predicate Follows(w: World, ev: Ev) {
    ev.Recorded? && ev.seat in w.client ==>
      var l := Latest(w, ev.seat);
      l.version < ev.st.version || (l.version == ev.st.version && RenderedEqual(l, ev.st))
  }

  ghost predicate InOrder(w: World, evs: seq<Ev>) {
    forall k :: 0 <= k < |evs| ==> Follows(Run(w, evs[..k]), evs[k])
  }

  ghost predicate SeatInSync(w: World, i: int)
    requires i in w.client && i in w.naive
  {
    var c := w.client[i].state;
    && (i in w.buf.last ==> RenderedEqual(c, w.buf.last[i]) && c.version <= w.buf.last[i].version)
    && (i in w.buf.pending ==> c.version < w.buf.pending[i].version || RenderedEqual(c, w.buf.pending[i]))
    && (i in w.buf.pending ==> c.version <= w.buf.pending[i].version)
    && RenderedEqual(w.naive[i].state, Latest(w, i)) && w.naive[i].state.version <= Latest(w, i).version
  }

  ghost predicate InSync(w: World) {
    && Valid(w.buf)
    && (forall i :: i in w.client <==> i in w.naive)
    && (forall i :: i in w.client ==> SeatInSync(w, i))
  }

  /** A client joins at a flush boundary showing the coalescer's last state. */
  ghost predicate Joined(w: World) {
    && Valid(w.buf) && w.buf.pending == map[] && w.naive == w.client
    && (forall i :: i in w.client && i in w.buf.last ==>
         RenderedEqual(w.client[i].state, w.buf.last[i]) && w.client[i].state.version <= w.buf.last[i].version)
  }

  lemma RecordKeepsSync(w: World, seat: int, st: SeatState)
    requires InSync(w) && Follows(w, Recorded(seat, st))
    ensures InSync(Next(w, Recorded(seat, st)))
  {
    var w' := Next(w, Recorded(seat, st));
    forall i | i in w'.client ensures i in w'.naive && SeatInSync(w', i) {
      assert SeatInSync(w, i);
    }
    RecordKeepsValid(w.buf, seat, st);
  }

  lemma RecordKeepsValid(b: Buffer, seat: int, st: SeatState)
    requires Valid(b)
    ensures Valid(RecordSpec(b, seat, st))
  {
  }

  lemma FlushSyncs(w: World)
    requires InSync(w)
    ensures InSync(Next(w, Flushed))
    ensures forall i :: i in w.client ==>
      i in Next(w, Flushed).client && RenderedEqual(Next(w, Flushed).client[i].state, Latest(w, i))
  {
    var w' := Next(w, Flushed);
    forall i ensures i in w'.client <==> i in w.client {
      ClientNeverRegresses(w.client, Diffs(w.buf, w.buf.order), i);
    }
    forall i | i in w.client
      ensures i in w'.client && RenderedEqual(w'.client[i].state, Latest(w, i))
      ensures SeatInSync(w', i)
    {
      assert SeatInSync(w, i);
      FlushOneSeat(w.buf, w.buf.order, w.client, i);
    }
  }

  lemma {:induction false} SyncAlways(w: World, evs: seq<Ev>)
    requires Joined(w) && InOrder(w, evs)
    ensures InSync(Run(w, evs))
  {
    if evs != [] {
      var n := |evs| - 1;
      assert InOrder(w, evs[..n]) by {
        assert forall k :: 0 <= k < n ==> evs[..n][..k] == evs[..k] && evs[..n][k] == evs[k];
      }
      SyncAlways(w, evs[..n]);
      match evs[n]
      case Recorded(seat, st) => RecordKeepsSync(Run(w, evs[..n]), seat, st);
      case Flushed => FlushSyncs(Run(w, evs[..n]));
    }
  }

  /** Coalescing agrees with naive fanout: if each seat's updates arrive in version order, then after every
      flush of every sequence the client renders each of its seats exactly as a client fed every raw update
      does, which is the last state recorded for that seat. */
  lemma CoalescedEqualsNaive(w: World, evs: seq<Ev>, i: int)
    requires Joined(w) && InOrder(w, evs) && evs != [] && evs[|evs| - 1].Flushed? && i in Run(w, evs).client
    ensures var end := Run(w, evs);
      && i in end.naive
      && end.client[i].state.status == end.naive[i].state.status == Latest(end, i).status
      && end.client[i].state.expiresAt == end.naive[i].state.expiresAt == Latest(end, i).expiresAt
      && end.client[i].state.version <= Latest(end, i).version
  {
    SyncAlways(w, evs);
    assert SeatInSync(Run(w, evs), i);
  }

  // ---------------------------------------------------------------- with no assumption on the order

  /** The states recorded for seat i, in order of arrival. */
  function Window(evs: seq<Ev>, i: int): seq<SeatState> {
    if evs == [] then []
    else
      var ev := evs[|evs| - 1];
      Window(evs[..|evs| - 1], i) + (if ev.Recorded? && ev.seat == i then [ev.st] else [])
  }

  /** What a client that takes every update ends up with. */
  function Top(start: SeatState, us: seq<SeatState>): SeatState {
    if us == [] then start else Newer(Top(start, us[..|us| - 1]), us[|us| - 1])
  }

  /** us[k] is newer than the start and than everything before it. */
  ghost predicate Leads(us: seq<SeatState>, k: nat, start: SeatState) {
    k < |us| && start.version < us[k].version && forall j :: 0 <= j < k ==> us[j].version < us[k].version
  }

  /** It is the first update with the highest version, or the start if none is newer. */
  lemma {:induction false} TopIsHighest(start: SeatState, us: seq<SeatState>)
    ensures start.version <= Top(start, us).version && forall k :: 0 <= k < |us| ==>
      us[k].version <= Top(start, us).version
    ensures Top(start, us) == start || exists k: nat :: Leads(us, k, start) && us[k] == Top(start, us)
  {
    if us != [] {
      var n := |us| - 1;
      var init := us[..n];
      TopIsHighest(start, init);
      if us[n].version > Top(start, init).version {
        assert Leads(us, n, start) && us[n] == Top(start, us);
      } else if Top(start, init) != start {
        var k: nat :| Leads(init, k, start) && init[k] == Top(start, init);
        assert Leads(us, k, start) && us[k] == Top(start, us);
      }
    }
  }

  ghost predicate OnlyRecords(evs: seq<Ev>) {
    forall k :: 0 <= k < |evs| ==> evs[k].Recorded?
  }

  /** What a window of recorded updates leaves behind before it is flushed. */
  ghost predicate Gathered(w: World, end: World, us: seq<SeatState>, i: int)
    requires i in w.naive
  {
    && Valid(end.buf) && end.client == w.client && end.buf.last == w.buf.last
    && (i in end.buf.pending <==> us != []) && (us != [] ==> end.buf.pending[i] == us[|us| - 1])
    && i in end.naive && end.naive[i].state == Top(w.naive[i].state, us)
  }

  lemma GatherOne(w: World, mid: World, us: seq<SeatState>, i: int, seat: int, st: SeatState)
    requires i in w.naive && Gathered(w, mid, us, i)
    ensures Gathered(w, Next(mid, Recorded(seat, st)), us + (if seat == i then [st] else []), i)
  {
    RecordKeepsValid(mid.buf, seat, st);
    if seat == i { assert (us + [st])[..|us|] == us; } else { assert us + [] == us; }
  }

  lemma {:induction false} WindowRun(w: World, evs: seq<Ev>, i: int)
    requires OnlyRecords(evs) && Valid(w.buf) && w.buf.pending == map[] && i in w.naive
    ensures Gathered(w, Run(w, evs), Window(evs, i), i)
  {
    if evs != [] {
      var n := |evs| - 1;
      WindowRun(w, evs[..n], i);
      GatherOne(w, Run(w, evs[..n]), Window(evs[..n], i), i, evs[n].seat, evs[n].st);
    }
  }

  /** The flush of a window in which p was the last update for the seat reaches the client: it looks different
      from what was last flushed, and is newer than what the client has. */
  predicate Reaches(b: Buffer, i: int, p: SeatState, c: SeatState) {
    (i in b.last ==> !RenderedEqual(b.last[i], p)) && c.version < p.version
  }

  /** After any window, in whatever order its updates arrived and whatever went before, the client agrees with
      naive fanout exactly when the update that reaches it, or else what it already had, looks like the
      highest version recorded. */
  lemma WindowAgreesIff(w: World, evs: seq<Ev>, i: int)
    requires OnlyRecords(evs) && Valid(w.buf) && w.buf.pending == map[] && i in w.client && i in w.naive
    ensures var end, us := Run(w, evs + [Flushed]), Window(evs, i);
      var c, top := w.client[i].state, Top(w.naive[i].state, us);
      && i in end.client && i in end.naive && end.naive[i].state == top
      && (us != [] && Reaches(w.buf, i, us[|us| - 1], c) ==> end.client[i].state == us[|us| - 1])
      && (RenderedEqual(end.client[i].state, end.naive[i].state) <==>
           if us != [] && Reaches(w.buf, i, us[|us| - 1], c)
           then RenderedEqual(us[|us| - 1], top) else RenderedEqual(c, top))
  {
    WindowRun(w, evs, i);
    RunSnoc(w, evs, Flushed);
    var mid := Run(w, evs);
    FlushOneSeat(mid.buf, mid.buf.order, mid.client, i);
  }

  /** Client and naive client show the seat alike, and the coalescer has last flushed what the client shows. */
  predicate SeatAgrees(w: World, i: int) {
    && i in w.client && i in w.naive && RenderedEqual(w.client[i].state, w.naive[i].state)
    && (i in w.buf.last ==> RenderedEqual(w.client[i].state, w.buf.last[i]))
  }

  /** The condition on a window, read off the recorded updates: its last one is newer than what the client has
      and looks like the highest version recorded, or is not newer and the client already looks like it. */
  predicate Faithful(c: SeatState, n: SeatState, us: seq<SeatState>) {
    us == [] ||
    (if c.version < us[|us| - 1].version then RenderedEqual(us[|us| - 1], Top(n, us)) else RenderedEqual(c, Top(n, us)))
  }

  /** A seat in agreement at the start of a window is in agreement after its flush if and only if the window is
      faithful for it. Nothing is assumed about the order of arrival. */
  lemma AgreesIffFaithful(w: World, evs: seq<Ev>, i: int)
    requires OnlyRecords(evs) && Valid(w.buf) && w.buf.pending == map[] && SeatAgrees(w, i)
    ensures var end := Run(w, evs + [Flushed]);
      && i in end.client && i in end.naive
      && (RenderedEqual(end.client[i].state, end.naive[i].state) <==>
           Faithful(w.client[i].state, w.naive[i].state, Window(evs, i)))
  {
    WindowAgreesIff(w, evs, i);
  }

  /** The order assumption is needed: record() keeps the last update by arrival. An older update arriving in
      the same window replaces the newer one, which makes the window unfaithful, and the client then shows the
      seat HELD while the naive client, and the database, show it BOOKED. */
  lemma OutOfOrderDisagrees(place: string) returns (w: World, evs: seq<Ev>)
    ensures Joined(w) && OnlyRecords(evs) && SeatAgrees(w, 1)
    ensures !Faithful(w.client[1].state, w.naive[1].state, Window(evs, 1))
    ensures var end := Run(w, evs + [Flushed]);
      && 1 in end.client && 1 in end.naive
      && end.client[1].state.status == HELD && end.naive[1].state.status == BOOKED
      && end.naive[1].state.version > end.client[1].state.version
  {
    var free, held, booked := SeatState(AVAILABLE, None, 1), SeatState(HELD, Some(9), 2), SeatState(BOOKED, None, 3);
    var seats := map[1 := RenderedSeat(place, free)];
    w := World(Buffer(map[], map[], [], 0), seats, seats, 0, 0);
    evs := [Recorded(1, booked), Recorded(1, held)];
    TwoUpdates(free, booked, held);
    WindowAgreesIff(w, evs, 1);
  }

  lemma TwoUpdates(start: SeatState, a: SeatState, b: SeatState)
    ensures var evs := [Recorded(1, a), Recorded(1, b)]; Window(evs, 1) == [a, b]
    ensures Top(start, [a, b]) == Newer(Newer(start, a), b)
  {
    var evs := [Recorded(1, a), Recorded(1, b)];
    assert evs[..1] == [Recorded(1, a)] && evs[..1][..0] == [];
    assert Window(evs[..1], 1) == [] + [a];
    assert [a, b][..1] == [a] && [a][..0] == [];
    assert Top(start, [a]) == Newer(start, a);
  }

  lemma RunSnoc(w: World, evs: seq<Ev>, ev: Ev)
    ensures Run(w, evs + [ev]) == Next(Run(w, evs), ev)
  {
    assert (evs + [ev])[..|evs|] == evs;
  }

  // ---------------------------------------------------------------- accounting

  function Records(evs: seq<Ev>): nat {
    if evs == [] then 0 else Records(evs[..|evs| - 1]) + (if evs[|evs| - 1].Recorded? then 1 else 0)
  }

  /** Every raw update is counted by exactly one flush, or is still pending. */
  lemma {:induction false} RawUpdatesConserved(w: World, evs: seq<Ev>)
    ensures Run(w, evs).reported + Run(w, evs).buf.raw == w.reported + w.buf.raw + Records(evs)
  {
    if evs != [] {
      RawUpdatesConserved(w, evs[..|evs| - 1]);
    }
  }

  lemma {:induction false} AtMostOnePerSeat(b: Buffer, order: seq<int>)
    ensures |Diffs(b, order)| <= |order|
  {
    if order != [] {
      AtMostOnePerSeat(b, order[..|order| - 1]);
    }
  }

  /** Coalescing compresses: over every sequence the flushes send no more diffs than the raw updates they report. */
  lemma {:induction false} FlushesCompress(w: World, evs: seq<Ev>)
    requires Valid(w.buf) && w.sent <= w.reported
    ensures Valid(Run(w, evs).buf) && Run(w, evs).sent <= Run(w, evs).reported
  {
    if evs != [] {
      var n := |evs| - 1;
      FlushesCompress(w, evs[..n]);
      var mid := Run(w, evs[..n]);
      if evs[n].Recorded? {
        RecordKeepsValid(mid.buf, evs[n].seat, evs[n].st);
      } else {
        AtMostOnePerSeat(mid.buf, mid.buf.order);
      }
    }
  }
}
