/** The Redis mirror of active holds (app/infra/hold_cache.py) and the two-look reconciler that repairs it
    from Postgres (workers/reconciler.py). */
module Reconciler {
  import opened SeatMachine
  import opened Collections

  // ---------------------------------------------------------------- the two stores

  /** A seat row with its updated_at. Times are in microseconds. */
  datatype Row = Row(seat: Seat, updatedAt: Time)

  type Postgres = map<int, Row>

  /** A mirror key: the session it names, and when Redis drops it. */
  datatype MirrorKey = MirrorKey(session: Session, deadline: Time)

  type Mirror = map<int, MirrorKey>

  const SECOND: int := 1_000_000

  /** max(1, int(seconds until the hold expires)) */
  function Ttl(expiresAt: Time, now: Time): (seconds: int)
    ensures seconds >= 1
    ensures expiresAt - now >= SECOND ==> expiresAt - SECOND < now + seconds * SECOND <= expiresAt
    ensures expiresAt - now < SECOND ==> seconds == 1
  {
    var left := (expiresAt - now) / SECOND;
    if left < 1 then 1 else left
  }

  function SetKey(m: Mirror, seat: int, who: Session, expiresAt: Time, now: Time): Mirror {
    m[seat := MirrorKey(who, now + Ttl(expiresAt, now) * SECOND)]
  }

  predicate IsHeld(pg: Postgres, i: int) {
    i in pg && pg[i].seat.status == HELD
  }

  ghost predicate RowsCoherent(pg: Postgres) {
    forall i :: i in pg && pg[i].seat.status == HELD ==> pg[i].seat.heldBy.Some? && pg[i].seat.expiresAt.Some?
  }

  // ---------------------------------------------------------------- reading through the mirror

  predicate LazilyAvailable(pg: Postgres, i: int, now: Time) {
    i in pg && Reclaimable(pg[i].seat, now)
  }

  /** check_seat_available: a mirror hit means "held" without asking Postgres. */
  function CheckAvailable(m: Mirror, pg: Postgres, i: int, now: Time): bool {
    if i in m then false
    else if i !in pg then false
    else if pg[i].seat.status == AVAILABLE then true
    else pg[i].seat.status == HELD && pg[i].seat.expiresAt.Some? && pg[i].seat.expiresAt.value <= now
  }

  /** However the mirror drifts, the read errs only towards "unavailable"; it equals Postgres's own answer
      exactly when no key covers an available seat. */
  lemma CheckErrsTowardsUnavailable(m: Mirror, pg: Postgres, i: int, now: Time)
    ensures CheckAvailable(m, pg, i, now) ==> LazilyAvailable(pg, i, now)
    ensures CheckAvailable(m, pg, i, now) == LazilyAvailable(pg, i, now) <==> !(i in m && LazilyAvailable(pg, i, now))
  {
  }

  // ---------------------------------------------------------------- divergence

  datatype Kind = KeyMissing | KeyStale | WrongSession

  /** How the mirror differs from Postgres on seat i, if it does. */
  function Divergence(pg: Postgres, m: Mirror, i: int): Option<Kind> {
    if IsHeld(pg, i) && i !in m then Some(KeyMissing)
    else if !IsHeld(pg, i) && i in m then Some(KeyStale)
    else if IsHeld(pg, i) && Some(m[i].session) != pg[i].seat.heldBy then Some(WrongSession)
    else None
  }

  /** By keys: there is a key exactly if Postgres has the seat HELD, and it names the holder. */
  ghost predicate Agrees(pg: Postgres, m: Mirror, i: int) {
    && (i in m <==> i in pg && pg[i].seat.status == HELD)
    && (i in m ==> Some(m[i].session) == pg[i].seat.heldBy)
  }

  lemma NoneMeansAgrees(pg: Postgres, m: Mirror, i: int)
    ensures Divergence(pg, m, i).None? <==> Agrees(pg, m, i)
  {
  }

  predicate Recent(pg: Postgres, i: int, now: Time, grace: int) {
    i in pg && 0 <= now - pg[i].updatedAt < grace
  }

  predicate Suspect(pg: Postgres, m: Mirror, i: int, now: Time, grace: int) {
    Divergence(pg, m, i).Some? && !Recent(pg, i, now, grace)
  }

  datatype Candidate = Candidate(seat: int, kind: Kind)

  predicate StillDivergent(c: Candidate, pg: Postgres, m: Mirror) {
    match c.kind
    case KeyMissing => IsHeld(pg, c.seat) && c.seat !in m
    case KeyStale => !IsHeld(pg, c.seat) && c.seat in m
    case WrongSession => IsHeld(pg, c.seat) && c.seat in m && Some(m[c.seat].session) != pg[c.seat].seat.heldBy
  }

  function Repair(c: Candidate, pg: Postgres, m: Mirror, now: Time): Mirror {
    if c.kind == KeyStale then m - {c.seat}
    else if c.seat in pg && pg[c.seat].seat.heldBy.Some? && pg[c.seat].seat.expiresAt.Some?
    then SetKey(m, c.seat, pg[c.seat].seat.heldBy.value, pg[c.seat].seat.expiresAt.value, now)
    else m
  }

  /** ReconcileResult, one pair of counters per kind. */
  datatype Tally = Tally(missing: nat, stale: nat, wrong: nat, transientMissing: nat, transientStale: nat,
      transientWrong: nat)

  function Divergences(t: Tally): nat { t.missing + t.stale + t.wrong }

  function Transients(t: Tally): nat { t.transientMissing + t.transientStale + t.transientWrong }

  function CountOne(t: Tally, kind: Kind, divergent: bool): Tally {
    match kind
    case KeyMissing =>
      if divergent then t.(missing := t.missing + 1) else t.(transientMissing := t.transientMissing + 1)
    case KeyStale => if divergent then t.(stale := t.stale + 1) else t.(transientStale := t.transientStale + 1)
    case WrongSession => if divergent then t.(wrong := t.wrong + 1) else t.(transientWrong := t.transientWrong + 1)
  }

  // ---------------------------------------------------------------- the pass

  /** What others do meanwhile: `rows(k)` is Postgres at the second look at the k-th candidate, and
      `drift(k, m)` what the mirror m has become by then. */
  datatype Others = Others(rows: nat -> Postgres, drift: (nat, Mirror) -> Mirror)

  /** The mirror and the counters after the second look at the first n candidates. */
  function SecondLook(cs: seq<Candidate>, n: nat, m: Mirror, others: Others, now: Time): (Mirror, Tally)
    requires n <= |cs|
  {
    if n == 0 then (m, Tally(0, 0, 0, 0, 0, 0))
    else
      var (before, t) := SecondLook(cs, n - 1, m, others, now);
      var c, pg, seen := cs[n - 1], others.rows(n - 1), others.drift(n - 1, before);
      var divergent := StillDivergent(c, pg, seen);
      (if divergent then Repair(c, pg, seen, now) else seen, CountOne(t, c.kind, divergent))
  }

  class HoldMirror {
    var keys: Mirror

    /** Appends the suspects of one kind, in any order. */
    method Collect(ids: set<int>, kind: Kind, pg: Postgres, now: Time, grace: int, found: seq<Candidate>)
        returns (out: seq<Candidate>)
      requires forall i :: i in ids ==> Divergence(pg, keys, i) == Some(kind)
      requires NoDup(found) && forall c :: c in found ==> c.seat !in ids
      ensures NoDup(out)
      ensures forall c :: c in out <==>
        c in found || (c.seat in ids && c.kind == kind && !Recent(pg, c.seat, now, grace))
    {
      out := found;
      var left := ids;
      while left != {}
        invariant left <= ids && NoDup(out)
        invariant forall c :: c in out <==>
          c in found || (c.seat in ids && c.seat !in left && c.kind == kind && !Recent(pg, c.seat, now, grace))
        decreases left
      {
        var i: int := Min(left);
        if !Recent(pg, i, now, grace) {
          out := out + [Candidate(i, kind)];
        }
        left := left - {i};
      }
    }

    /** reconcile_once: candidates from a first look, then a second look at each, counting and repairing. */
    method ReconcileOnce(pg: Postgres, now: Time, grace: int, others: Others)
        returns (cs: seq<Candidate>, result: Tally)
      modifies this
      ensures NoDup(cs)
      ensures forall c :: c in cs <==>
        Divergence(pg, old(keys), c.seat) == Some(c.kind) && !Recent(pg, c.seat, now, grace)
      ensures (keys, result) == SecondLook(cs, |cs|, old(keys), others, now)
    {
      var held := set i | i in pg && pg[i].seat.status == HELD;
      cs := Collect(held - keys.Keys, KeyMissing, pg, now, grace, []);
      cs := Collect(keys.Keys - held, KeyStale, pg, now, grace, cs);
      var wrong := set i | i in held && i in keys && Some(keys[i].session) != pg[i].seat.heldBy;
      cs := Collect(wrong, WrongSession, pg, now, grace, cs);
      result := Tally(0, 0, 0, 0, 0, 0);
      ghost var first := keys;
      for k := 0 to |cs|
        invariant (keys, result) == SecondLook(cs, k, first, others, now)
      {
        var c, row := cs[k], others.rows(k);
        keys := others.drift(k, keys);
        var divergent := StillDivergent(c, row, keys);
        if divergent {
          keys := Repair(c, row, keys, now);
        }
        result := CountOne(result, c.kind, divergent);
      }
    }
  }

  // ---------------------------------------------------------------- whatever the others do

  /** Every candidate ends in exactly one counter. */
  lemma {:induction false} EveryCandidateCounted(cs: seq<Candidate>, n: nat, m: Mirror, others: Others, now: Time)
    requires n <= |cs|
    ensures Divergences(SecondLook(cs, n, m, others, now).1) + Transients(SecondLook(cs, n, m, others, now).1) == n
  {
    if n > 0 { EveryCandidateCounted(cs, n - 1, m, others, now); }
  }

  function OfKind(cs: seq<Candidate>, kind: Kind): nat {
    if cs == [] then 0
    else OfKind(cs[..|cs| - 1], kind) + (if cs[|cs| - 1].kind == kind then 1 else 0)
  }

  /** Each kind has its own pair of counters. */
  lemma {:induction false} CountedByKind(cs: seq<Candidate>, n: nat, m: Mirror, others: Others, now: Time)
    requires n <= |cs|
    ensures var t := SecondLook(cs, n, m, others, now).1;
      && t.missing + t.transientMissing == OfKind(cs[..n], KeyMissing)
      && t.stale + t.transientStale == OfKind(cs[..n], KeyStale)
      && t.wrong + t.transientWrong == OfKind(cs[..n], WrongSession)
  {
    if n > 0 {
      CountedByKind(cs, n - 1, m, others, now);
      assert cs[..n][..n - 1] == cs[..n - 1];
    }
  }

  /** A repair makes the key agree with the row it was re-read from, and leaves every other key alone. A key
      it sets lapses within the last second of the hold, never after it, if a full second is left. */
  lemma RepairAgrees(c: Candidate, pg: Postgres, m: Mirror, now: Time)
    requires StillDivergent(c, pg, m) && RowsCoherent(pg)
    ensures Divergence(pg, Repair(c, pg, m, now), c.seat).None? && Agrees(pg, Repair(c, pg, m, now), c.seat)
    ensures forall i :: i != c.seat ==> SameKey(m, Repair(c, pg, m, now), i)
    ensures c.kind != KeyStale && pg[c.seat].seat.expiresAt.value - now >= SECOND ==>
      c.seat in Repair(c, pg, m, now)
      && pg[c.seat].seat.expiresAt.value - SECOND <
         Repair(c, pg, m, now)[c.seat].deadline <= pg[c.seat].seat.expiresAt.value
  {
  }

  /** The second look, whatever others have done since the first: a candidate that differs in the same way as before
      is counted as a divergence and repaired; one that agrees by now, or differs in another way, is counted as
      transient and left alone; and no other key is touched. */
  lemma SecondLookDecides(cs: seq<Candidate>, n: nat, m: Mirror, others: Others, now: Time)
    requires n < |cs| && RowsCoherent(others.rows(n))
    ensures var (before, t), (after, t') := SecondLook(cs, n, m, others, now), SecondLook(cs, n + 1, m, others, now);
      var c, pg, seen := cs[n], others.rows(n), others.drift(n, before);
      && (forall i :: i != c.seat ==> SameKey(seen, after, i))
      && (Agrees(pg, seen, c.seat) || Divergence(pg, seen, c.seat) != Some(c.kind) ==>
           after == seen && Divergences(t') == Divergences(t) && Transients(t') == Transients(t) + 1)
      && (Divergence(pg, seen, c.seat) == Some(c.kind) ==>
           Agrees(pg, after, c.seat) && Divergences(t') == Divergences(t) + 1 && Transients(t') == Transients(t))
  {
    var before := SecondLook(cs, n, m, others, now).0;
    var c, pg, seen := cs[n], others.rows(n), others.drift(n, before);
    if StillDivergent(c, pg, seen) { RepairAgrees(c, pg, seen, now); }
  }

  // ---------------------------------------------------------------- with nobody else at work

  function Quiet(pg: Postgres): Others {
    Others(_ => pg, (_, m) => m)
  }

  lemma {:induction false} QuietPass(cs: seq<Candidate>, n: nat, m: Mirror, pg: Postgres, now: Time)
    requires n <= |cs| && RowsCoherent(pg)
    requires forall j, k :: 0 <= j < k < |cs| ==> cs[j].seat != cs[k].seat
    requires forall k :: 0 <= k < |cs| ==> Divergence(pg, m, cs[k].seat) == Some(cs[k].kind)
    ensures var (m', t) := SecondLook(cs, n, m, Quiet(pg), now);
      && Divergences(t) == n && Transients(t) == 0
      && (forall k :: 0 <= k < n ==> Divergence(pg, m', cs[k].seat).None?)
      && (forall i :: (forall k :: 0 <= k < n ==> cs[k].seat != i) ==> SameKey(m, m', i))
  {
    if n > 0 {
      QuietPass(cs, n - 1, m, pg, now);
      var before := SecondLook(cs, n - 1, m, Quiet(pg), now).0;
      var c := cs[n - 1];
      assert SameKey(m, before, c.seat);
      assert StillDivergent(c, pg, before);
      RepairAgrees(c, pg, before, now);
      EveryCandidateCounted(cs, n, m, Quiet(pg), now);
      var after := SecondLook(cs, n, m, Quiet(pg), now).0;
      assert after == Repair(c, pg, before, now);
      forall i | forall k :: 0 <= k < n ==> cs[k].seat != i ensures SameKey(m, after, i) {
        assert SameKey(m, before, i) && c.seat != i;
      }
    }
  }

  /** The candidates a pass may work on: each suspect once, with its kind. */
  ghost predicate CandidatesOf(cs: seq<Candidate>, pg: Postgres, m: Mirror, now: Time, grace: int) {
    NoDup(cs) && forall c :: c in cs <==> Divergence(pg, m, c.seat) == Some(c.kind) && !Recent(pg, c.seat, now, grace)
  }

  lemma CandidatesDistinct(cs: seq<Candidate>, pg: Postgres, m: Mirror, now: Time, grace: int)
    requires CandidatesOf(cs, pg, m, now, grace)
    ensures forall k :: 0 <= k < |cs| ==>
      Divergence(pg, m, cs[k].seat) == Some(cs[k].kind) && !Recent(pg, cs[k].seat, now, grace)
    ensures forall j, k :: 0 <= j < k < |cs| ==> cs[j].seat != cs[k].seat
  {
    forall k | 0 <= k < |cs|
      ensures Divergence(pg, m, cs[k].seat) == Some(cs[k].kind) && !Recent(pg, cs[k].seat, now, grace)
    {
      assert cs[k] in cs;
    }
  }

  lemma SuspectListed(cs: seq<Candidate>, pg: Postgres, m: Mirror, now: Time, grace: int, i: int) returns (k: nat)
    requires CandidatesOf(cs, pg, m, now, grace) && Suspect(pg, m, i, now, grace)
    ensures k < |cs| && cs[k].seat == i
  {
    var c := Candidate(i, Divergence(pg, m, i).value);
    assert c in cs;
    k :| 0 <= k < |cs| && cs[k] == c;
  }

  lemma NoSuspectNoCandidate(cs: seq<Candidate>, pg: Postgres, m: Mirror, now: Time, grace: int)
    requires CandidatesOf(cs, pg, m, now, grace)
    requires forall i :: !Recent(pg, i, now, grace) ==> Divergence(pg, m, i).None?
    ensures cs == []
  {
    var seat := if cs == [] then 0 else cs[0].seat;
    CandidatesDistinct(cs, pg, m, now, grace);
    assert Recent(pg, seat, now, grace) || Divergence(pg, m, seat).None?;
  }

  ghost predicate SameKey(m: Mirror, m': Mirror, i: int) {
    (i in m' <==> i in m) && (i in m ==> m'[i] == m[i])
  }

  lemma QuietPassAgrees(cs: seq<Candidate>, m: Mirror, pg: Postgres, now: Time, grace: int)
    requires RowsCoherent(pg) && CandidatesOf(cs, pg, m, now, grace)
    ensures var (m', t) := SecondLook(cs, |cs|, m, Quiet(pg), now);
      && Divergences(t) == |cs| && Transients(t) == 0
      && (forall i :: !Recent(pg, i, now, grace) ==> Divergence(pg, m', i).None?)
      && (forall i :: Recent(pg, i, now, grace) ==> SameKey(m, m', i))
  {
    CandidatesDistinct(cs, pg, m, now, grace);
    QuietPass(cs, |cs|, m, pg, now);
    var m' := SecondLook(cs, |cs|, m, Quiet(pg), now).0;
    forall i | !Recent(pg, i, now, grace) ensures Divergence(pg, m', i).None? {
      if Suspect(pg, m, i, now, grace) {
        var k := SuspectListed(cs, pg, m, now, grace, i);
      } else {
        assert SameKey(m, m', i);
      }
    }
    assert forall i :: Recent(pg, i, now, grace) ==> SameKey(m, m', i);
  }

  /** Undisturbed, one pass repairs everything outside the grace window and nothing else: afterwards a seat not
      changed recently has a key exactly if it is HELD, and the key names its holder; all candidates were
      divergences, and a second pass finds no candidate at all. */
  lemma QuietPassRepairsAll(cs: seq<Candidate>, m: Mirror, pg: Postgres, now: Time, grace: int)
    requires RowsCoherent(pg) && CandidatesOf(cs, pg, m, now, grace)
    ensures var (m', t) := SecondLook(cs, |cs|, m, Quiet(pg), now);
      && Divergences(t) == |cs| && Transients(t) == 0
      && (forall i :: !(i in pg && pg[i].updatedAt <= now < pg[i].updatedAt + grace) ==>
           && (i in m' <==> i in pg && pg[i].seat.status == HELD)
           && (i in m' ==> Some(m'[i].session) == pg[i].seat.heldBy))
      && (forall i :: i in pg && pg[i].updatedAt <= now < pg[i].updatedAt + grace ==> SameKey(m, m', i))
      && (forall cs' :: CandidatesOf(cs', pg, m', now, grace) ==> cs' == [])
  {
    QuietPassAgrees(cs, m, pg, now, grace);
    var m' := SecondLook(cs, |cs|, m, Quiet(pg), now).0;
    forall i ensures Recent(pg, i, now, grace) <==> i in pg && pg[i].updatedAt <= now < pg[i].updatedAt + grace
      ensures Recent(pg, i, now, grace) || Agrees(pg, m', i)
    {
      NoneMeansAgrees(pg, m', i);
    }
    forall cs' | CandidatesOf(cs', pg, m', now, grace) ensures cs' == [] {
      NoSuspectNoCandidate(cs', pg, m', now, grace);
    }
  }
}
