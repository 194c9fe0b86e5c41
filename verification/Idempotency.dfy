/** Idempotency keys: requests begin, execute and complete in one commit, crash anywhere, are reaped and
    reclaimed (app/infra/idempotency.py, workers/idempotency_reaper.py, app/api/routes/bookings.py). */
module Idempotency {
  import opened SeatMachine

  // ---------------------------------------------------------------- tables and requests

  /** Primary key of idempotency_keys. */
  datatype Key = Key(user: int, key: string)

  /** A 201 carries the booking it created; every other response does not. */
  datatype Response = Created(bid: int, body: string) | Reply(code: int, body: string)

  datatype KeyStatus = IN_PROGRESS | COMPLETED | FAILED

  datatype KeyRow = KeyRow(fingerprint: string, status: KeyStatus, response: Option<Response>, createdAt: Time)

  datatype Answer = Fresh(resp: Response) | Replay(resp: Response) | Mismatch | Busy

  /** Inserted: the INSERT found the key taken. Reclaiming: the row was seen FAILED. Working: the caller was
      told New and is executing. */
  datatype Phase = Inserted | Reclaiming | Working | Answered(a: Answer) | Crashed

  datatype Req = Req(key: Key, fingerprint: string, phase: Phase)

  /** What happened, in commit order. */
  datatype Fact =
    | Born(key: Key, bid: int)
    | Stored(key: Key, resp: Response)
    | Reaped(key: Key)
    | Reclaimed(key: Key)

  /** `carriers` maps each booking to the (user_id, idempotency_key) its row holds now. */
  datatype Sys = Sys(rows: map<Key, KeyRow>, carriers: map<int, Key>, reqs: map<int, Req>, facts: seq<Fact>)

  /** What the business logic of a request decides: create a booking, confirm one (which puts this request's
      key on it), or reject cleanly. */
  datatype Work = CreateBooking(bid: int, resp: Response) | ConfirmTo(bid: int, resp: Response) | Reject(resp: Response)

  datatype Step =
    | Insert(r: int, key: Key, fingerprint: string, now: Time)
    | Look(r: int)
    | Reclaim(r: int, now: Time)
    | Execute(r: int, work: Work)
    | Crash(r: int)
    | Reap(key: Key, now: Time, timeout: int, rebuilt: Response)

  // ---------------------------------------------------------------- the steps

  predicate Carried(s: Sys, k: Key) {
    exists b :: b in s.carriers && s.carriers[b] == k
  }

  /** The unique index on bookings(user_id, idempotency_key) would let booking `bid` hold key k. */
  predicate IndexAccepts(s: Sys, bid: int, k: Key) {
    forall b :: b in s.carriers && b != bid ==> s.carriers[b] != k
  }

  predicate InPhase(s: Sys, r: int, p: Phase) {
    r in s.reqs && s.reqs[r].phase == p
  }

  predicate Live(p: Phase) {
    !p.Answered? && !p.Crashed?
  }

  predicate Enabled(s: Sys, a: Step) {
    match a
    case Insert(r, _, _, _) => r !in s.reqs
    case Look(r) => InPhase(s, r, Inserted) && s.reqs[r].key in s.rows
    case Reclaim(r, _) => InPhase(s, r, Reclaiming) && s.reqs[r].key in s.rows
    case Execute(r, work) =>
      && InPhase(s, r, Working) && s.reqs[r].key in s.rows
      && (work.CreateBooking? ==> work.bid !in s.carriers && work.resp.Created? && work.resp.bid == work.bid)
      && (!work.CreateBooking? ==> work.resp.Reply?)
      && (work.ConfirmTo? && work.bid in s.carriers ==> s.carriers[work.bid].user == s.reqs[r].key.user)
    case Crash(r) => r in s.reqs && Live(s.reqs[r].phase)
    case Reap(k, now, timeout, rebuilt) =>
      k in s.rows && s.rows[k].status == IN_PROGRESS && s.rows[k].createdAt <= now - timeout && rebuilt.Reply?
  }

  function SetPhase(s: Sys, r: int, p: Phase): Sys
    requires r in s.reqs
  {
    s.(reqs := s.reqs[r := s.reqs[r].(phase := p)])
  }

  /** begin_idempotent_request after its INSERT hit the primary key. */
  function LookPhase(row: KeyRow, fingerprint: string): Phase {
    if row.fingerprint != fingerprint then Answered(Mismatch)
    else if row.status == IN_PROGRESS then Answered(Busy)
    else if row.status == FAILED then Reclaiming
    else Answered(Replay(if row.response.Some? then row.response.value else Reply(500, "{}")))
  }

  function Do(s: Sys, a: Step): Sys
    requires Enabled(s, a)
  {
    match a
    case Insert(r, k, f, now) =>
      if k in s.rows then s.(reqs := s.reqs[r := Req(k, f, Inserted)])
      else s.(rows := s.rows[k := KeyRow(f, IN_PROGRESS, None, now)], reqs := s.reqs[r := Req(k, f, Working)])
    case Look(r) => SetPhase(s, r, LookPhase(s.rows[s.reqs[r].key], s.reqs[r].fingerprint))
    case Reclaim(r, now) =>
      var k := s.reqs[r].key;
      if s.rows[k].status == FAILED
      then SetPhase(s.(rows := s.rows[k := s.rows[k].(status := IN_PROGRESS, createdAt := now)],
                          facts := s.facts + [Reclaimed(k)]), r, Working)
      else SetPhase(s, r, Answered(Busy))
    case Execute(r, work) =>
      // One transaction: the booking write, then the completion marker, which is not guarded on status.
      var k := s.reqs[r].key;
      if !work.Reject? && !IndexAccepts(s, work.bid, k) then SetPhase(s, r, Crashed)
      else
        var done := s.(rows := s.rows[k := s.rows[k].(status := COMPLETED, response := Some(work.resp))],
                       carriers := if work.Reject? then s.carriers else s.carriers[work.bid := k],
                       facts := s.facts + (if work.CreateBooking? then [Born(k, work.bid)] else []) +
                                [Stored(k, work.resp)]);
        SetPhase(done, r, Answered(Fresh(work.resp)))
    case Crash(r) => SetPhase(s, r, Crashed)
    case Reap(k, _, _, rebuilt) =>
      if Carried(s, k)
      then s.(rows := s.rows[k := s.rows[k].(status := COMPLETED, response := Some(rebuilt))],
              facts := s.facts + [Stored(k, rebuilt)])
      else s.(rows := s.rows[k := s.rows[k].(status := FAILED)], facts := s.facts + [Reaped(k)])
  }

  function Exec(s: Sys, run: seq<Step>): Sys {
    if run == [] then s
    else
      var s' := Exec(s, run[..|run| - 1]);
      if Enabled(s', run[|run| - 1]) then Do(s', run[|run| - 1]) else s'
  }

  ghost predicate Runs(s: Sys, run: seq<Step>) {
    forall n :: 0 <= n < |run| ==> Enabled(Exec(s, run[..n]), run[n])
  }

  ghost predicate Initial(s: Sys) {
    s == Sys(map[], map[], map[], [])
  }

  lemma RunsPrefix(s: Sys, run: seq<Step>, n: nat)
    requires Runs(s, run) && n <= |run|
    ensures Runs(s, run[..n])
  {
    assert forall k :: 0 <= k < n ==> run[..n][..k] == run[..k] && run[..n][k] == run[k];
  }

  lemma ExecNext(s: Sys, run: seq<Step>, n: nat)
    requires Runs(s, run) && n < |run|
    ensures Exec(s, run[..n + 1]) == Do(Exec(s, run[..n]), run[n])
  {
    assert run[..n + 1][..n] == run[..n];
  }

  // ---------------------------------------------------------------- whatever the reaper does

  function Tally(s: Sys, f: Fact): nat {
    multiset(s.facts)[f]
  }

  /** Bookings, rows and facts about one key agree. */
  ghost predicate RowOk(s: Sys, k: Key) {
    && (Carried(s, k) ==> k in s.rows && s.rows[k].status == COMPLETED)
    && (k in s.rows && s.rows[k].status == COMPLETED ==>
         s.rows[k].response.Some? && Stored(k, s.rows[k].response.value) in s.facts)
    && (forall f :: f in s.facts && f.key == k ==> k in s.rows)
    && (forall f :: f in s.facts && f.key == k && f.Stored? ==> s.rows[k].status == COMPLETED)
  }

  predicate IsFailed(s: Sys, k: Key) {
    k in s.rows && s.rows[k].status == FAILED
  }

  /** A row is reclaimed at most once for each time it was reaped. */
  ghost predicate ReclaimsBounded(s: Sys, k: Key) {
    Tally(s, Reclaimed(k)) + (if IsFailed(s, k) then 1 else 0) <= Tally(s, Reaped(k))
  }

  predicate Tells(f: Fact, k: Key, bid: int) {
    f.Stored? && f.key == k && f.resp.Created? && f.resp.bid == bid
  }

  /** Whoever created a booking was told so. */
  ghost predicate BornOk(s: Sys, k: Key) {
    forall b :: Born(k, b) in s.facts ==> exists f :: f in s.facts && Tells(f, k, b)
  }

  ghost predicate KeyOk(s: Sys, k: Key) {
    RowOk(s, k) && ReclaimsBounded(s, k) && BornOk(s, k)
  }

  ghost predicate ReqOk(s: Sys, r: int)
    requires r in s.reqs
  {
    var q := s.reqs[r];
    && q.key in s.rows
    && (q.phase.Answered? && (q.phase.a.Fresh? || q.phase.a.Replay?) ==> Stored(q.key, q.phase.a.resp) in s.facts)
  }

  ghost predicate AnyInv(s: Sys) {
    && (forall k :: KeyOk(s, k))
    && (forall r :: r in s.reqs ==> ReqOk(s, r))
    && OneCarrier(s)
  }

  ghost predicate OneCarrier(s: Sys) {
    forall b, c :: b in s.carriers && c in s.carriers && s.carriers[b] == s.carriers[c] ==> b == c
  }

  lemma TallySnoc(facts: seq<Fact>, more: seq<Fact>, f: Fact)
    ensures multiset(facts + more)[f] == multiset(facts)[f] + multiset(more)[f]
  {
  }

  function NewFacts(s: Sys, a: Step): seq<Fact>
    requires Enabled(s, a)
  {
    match a
    case Reclaim(r, _) => if s.rows[s.reqs[r].key].status == FAILED then [Reclaimed(s.reqs[r].key)] else []
    case Execute(r, work) =>
      if !work.Reject? && !IndexAccepts(s, work.bid, s.reqs[r].key) then []
      else (if work.CreateBooking? then [Born(s.reqs[r].key, work.bid)] else []) + [Stored(s.reqs[r].key, work.resp)]
    case Reap(k, _, _, rebuilt) => if Carried(s, k) then [Stored(k, rebuilt)] else [Reaped(k)]
    case _ => []
  }

  lemma FactsGrow(s: Sys, a: Step)
    requires Enabled(s, a)
    ensures Do(s, a).facts == s.facts + NewFacts(s, a)
    ensures forall f :: f in Do(s, a).facts <==> f in s.facts || f in NewFacts(s, a)
    ensures forall f :: Tally(Do(s, a), f) == Tally(s, f) + multiset(NewFacts(s, a))[f]
  {
    assert Do(s, a).facts == s.facts + NewFacts(s, a);
    forall f ensures Tally(Do(s, a), f) == Tally(s, f) + multiset(NewFacts(s, a))[f] {
      TallySnoc(s.facts, NewFacts(s, a), f);
    }
  }

  predicate ReapsToFailed(s: Sys, a: Step, k: Key) {
    a.Reap? && a.key == k && !Carried(s, k)
  }

  predicate WinsReclaim(s: Sys, a: Step, k: Key) {
    a.Reclaim? && a.r in s.reqs && s.reqs[a.r].key == k && IsFailed(s, k)
  }

  lemma NewTallies(s: Sys, a: Step, k: Key)
    requires Enabled(s, a)
    ensures multiset(NewFacts(s, a))[Reaped(k)] == if ReapsToFailed(s, a, k) then 1 else 0
    ensures multiset(NewFacts(s, a))[Reclaimed(k)] == if WinsReclaim(s, a, k) then 1 else 0
  {
    if a.Execute? {
      var born := if a.work.CreateBooking? then [Born(s.reqs[a.r].key, a.work.bid)] else [];
      TallySnoc(born, [Stored(s.reqs[a.r].key, a.work.resp)], Reaped(k));
      TallySnoc(born, [Stored(s.reqs[a.r].key, a.work.resp)], Reclaimed(k));
    }
  }

  lemma FailedAfter(s: Sys, a: Step, k: Key)
    requires Enabled(s, a)
    ensures IsFailed(Do(s, a), k) ==> IsFailed(s, k) || ReapsToFailed(s, a, k)
    ensures WinsReclaim(s, a, k) ==> !IsFailed(Do(s, a), k)
    ensures ReapsToFailed(s, a, k) ==> !IsFailed(s, k)
  {
  }

  lemma StepKeepsBound(s: Sys, a: Step, k: Key)
    requires ReclaimsBounded(s, k) && Enabled(s, a)
    ensures ReclaimsBounded(Do(s, a), k)
  {
    FactsGrow(s, a);
    NewTallies(s, a, k);
    FailedAfter(s, a, k);
  }

  lemma CarriedAfter(s: Sys, a: Step, k: Key)
    requires Enabled(s, a) && Carried(Do(s, a), k)
    ensures Carried(s, k) || (a.Execute? && !a.work.Reject? && k == s.reqs[a.r].key && IndexAccepts(s, a.work.bid, k))
  {
    var b :| b in Do(s, a).carriers && Do(s, a).carriers[b] == k;
    if b in s.carriers && s.carriers[b] == k { assert Carried(s, k); }
  }

  lemma StepKeepsRow(s: Sys, a: Step, k: Key)
    requires RowOk(s, k) && Enabled(s, a)
    ensures RowOk(Do(s, a), k)
  {
    FactsGrow(s, a);
    if Carried(Do(s, a), k) { CarriedAfter(s, a, k); }
    match a
    case Execute(r, work) => ExecuteKeepsRow(s, r, work, k);
    case Reap(_, _, _, _) =>
    case Reclaim(_, _) =>
    case _ => assert Do(s, a).facts == s.facts;
  }

  lemma ExecuteKeepsRow(s: Sys, r: int, work: Work, k: Key)
    requires RowOk(s, k) && Enabled(s, Execute(r, work))
    requires Carried(Do(s, Execute(r, work)), k) ==>
      Carried(s, k) || (k == s.reqs[r].key && (work.Reject? || IndexAccepts(s, work.bid, k)))
    ensures RowOk(Do(s, Execute(r, work)), k)
  {
    var s', key := Do(s, Execute(r, work)), s.reqs[r].key;
    FactsGrow(s, Execute(r, work));
    if work.Reject? || IndexAccepts(s, work.bid, key) {
      assert s'.rows == s.rows[key := s.rows[key].(status := COMPLETED, response := Some(work.resp))];
      assert Stored(key, work.resp) in NewFacts(s, Execute(r, work));
    }
  }

  lemma StepKeepsBorn(s: Sys, a: Step, k: Key)
    requires BornOk(s, k) && Enabled(s, a)
    ensures BornOk(Do(s, a), k)
  {
    FactsGrow(s, a);
    forall b | Born(k, b) in Do(s, a).facts ensures exists f :: f in Do(s, a).facts && Tells(f, k, b) {
      if Born(k, b) in s.facts {
        var f :| f in s.facts && Tells(f, k, b);
        assert f in Do(s, a).facts;
      } else {
        assert Stored(k, a.work.resp) in NewFacts(s, a);
        assert Tells(Stored(k, a.work.resp), k, b);
      }
    }
  }

  lemma StepKeepsReqs(s: Sys, a: Step, r: int)
    requires Enabled(s, a) && r in Do(s, a).reqs && (r in s.reqs ==> ReqOk(s, r) && RowOk(s, s.reqs[r].key))
    ensures ReqOk(Do(s, a), r)
  {
    FactsGrow(s, a);
  }

  lemma StepKeepsIndex(s: Sys, a: Step)
    requires AnyInv(s) && Enabled(s, a)
    ensures OneCarrier(Do(s, a))
  {
  }

  lemma StepKeepsAnyInv(s: Sys, a: Step)
    requires AnyInv(s) && Enabled(s, a)
    ensures AnyInv(Do(s, a))
  {
    forall k ensures KeyOk(Do(s, a), k) {
      assert KeyOk(s, k);
      StepKeepsRow(s, a, k);
      StepKeepsBound(s, a, k);
      StepKeepsBorn(s, a, k);
    }
    forall r | r in Do(s, a).reqs ensures ReqOk(Do(s, a), r) {
      if r in s.reqs { assert KeyOk(s, s.reqs[r].key); }
      StepKeepsReqs(s, a, r);
    }
    StepKeepsIndex(s, a);
  }

  lemma {:induction false} AnyInvAlways(s: Sys, run: seq<Step>)
    requires Initial(s) && Runs(s, run)
    ensures AnyInv(Exec(s, run))
  {
    if run != [] {
      var n := |run| - 1;
      RunsPrefix(s, run, n);
      AnyInvAlways(s, run[..n]);
      StepKeepsAnyInv(Exec(s, run[..n]), run[n]);
    }
  }

  /** Whatever the reaper takes, even requests that are slow but alive: at most one committed booking carries
      any (user, key) at a time; one that carries it means the row is COMPLETED; FAILED means none does;
      and each reaping is followed by at most one won reclaim. */
  lemma SafeUnderAnyReaper(s: Sys, run: seq<Step>, k: Key)
    requires Initial(s) && Runs(s, run)
    ensures var end := Exec(s, run);
      && (forall b, c :: b in end.carriers && c in end.carriers && end.carriers[b] == end.carriers[c] ==> b == c)
      && (Carried(end, k) ==> k in end.rows && end.rows[k].status == COMPLETED)
      && (k in end.rows && end.rows[k].status != COMPLETED ==> !Carried(end, k))
      && Tally(end, Reclaimed(k)) + (if IsFailed(end, k) then 1 else 0) <= Tally(end, Reaped(k))
  {
    AnyInvAlways(s, run);
    assert KeyOk(Exec(s, run), k);
  }

  predicate IsCompleted(s: Sys, k: Key) {
    k in s.rows && s.rows[k].status == COMPLETED
  }

  lemma CompletedStays(s: Sys, a: Step, k: Key)
    requires Enabled(s, a) && IsCompleted(s, k)
    ensures IsCompleted(Do(s, a), k)
  {
  }

  lemma CompletedNext(s: Sys, run: seq<Step>, k: Key, n: nat)
    requires n < |run| && IsCompleted(Exec(s, run[..n]), k)
    ensures IsCompleted(Exec(s, run[..n + 1]), k)
  {
    assert run[..n + 1][..n] == run[..n];
    if Enabled(Exec(s, run[..n]), run[n]) { CompletedStays(Exec(s, run[..n]), run[n], k); }
  }

  /** COMPLETED is absorbing as a status. */
  lemma {:induction false} CompletedAbsorbing(s: Sys, run: seq<Step>, k: Key, j: nat, n: nat)
    requires j <= n <= |run| && IsCompleted(Exec(s, run[..j]), k)
    ensures IsCompleted(Exec(s, run[..n]), k)
  {
    if j < n {
      CompletedAbsorbing(s, run, k, j, n - 1);
      CompletedNext(s, run, k, n - 1);
    }
  }

  /** The reaper's recovery branch is never taken: a row it finds IN_PROGRESS belongs to no booking, because
      the booking and the completion marker share one commit. */
  lemma RecoveryNeverNeeded(s: Sys, run: seq<Step>, a: Step)
    requires Initial(s) && Runs(s, run) && a.Reap? && Enabled(Exec(s, run), a)
    ensures Do(Exec(s, run), a).rows[a.key].status == FAILED
  {
    AnyInvAlways(s, run);
    assert KeyOk(Exec(s, run), a.key);
  }

  // ---------------------------------------------------------------- fingerprints

  /** Only a request whose payload is the one the row was inserted for gets past the row, and exactly the others
      are answered Mismatch. */
  ghost predicate PrintOk(s: Sys, q: Req) {
    && q.key in s.rows
    && (q.phase.Working? || q.phase.Reclaiming? ==> q.fingerprint == s.rows[q.key].fingerprint)
    && (q.phase.Answered? ==> (q.phase.a.Mismatch? <==> q.fingerprint != s.rows[q.key].fingerprint))
  }

  lemma StepKeepsPrint(s: Sys, a: Step, k: Key)
    requires Enabled(s, a) && k in s.rows
    ensures k in Do(s, a).rows && Do(s, a).rows[k].fingerprint == s.rows[k].fingerprint
  {
  }

  lemma StepKeepsPrints(s: Sys, a: Step, r: int)
    requires Enabled(s, a) && r in Do(s, a).reqs && (r in s.reqs ==> PrintOk(s, s.reqs[r]))
    ensures PrintOk(Do(s, a), Do(s, a).reqs[r])
  {
    if r in s.reqs { StepKeepsPrint(s, a, s.reqs[r].key); }
  }

  /** Over every run, with any crashes and any reaping: whoever executes under a key, is about to reclaim it, or was
      given a fresh response, a stored one or a conflict to wait out, sent the payload the key was first used
      with; and an answered request was told that the key belongs to another payload exactly when it does. */
  lemma {:induction false} FingerprintDecides(s: Sys, run: seq<Step>, r: int)
    requires Initial(s) && Runs(s, run) && r in Exec(s, run).reqs
    ensures var end := Exec(s, run); var q := end.reqs[r];
      && q.key in end.rows
      && (q.phase.Working? || q.phase.Reclaiming? ==> q.fingerprint == end.rows[q.key].fingerprint)
      && (q.phase.Answered? ==>
           (q.phase.a.Fresh? || q.phase.a.Replay? || q.phase.a.Busy? <==>
             q.fingerprint == end.rows[q.key].fingerprint))
      && (q.phase.Answered? ==> (q.phase.a == Mismatch <==> q.fingerprint != end.rows[q.key].fingerprint))
  {
    if run != [] {
      var n := |run| - 1;
      RunsPrefix(s, run, n);
      if r in Exec(s, run[..n]).reqs { FingerprintDecides(s, run[..n], r); }
      StepKeepsPrints(Exec(s, run[..n]), run[n], r);
    }
  }

  /** The payload a key stands for never changes. */
  lemma {:induction false} FingerprintStays(s: Sys, run: seq<Step>, k: Key, j: nat, n: nat)
    requires j <= n <= |run| && k in Exec(s, run[..j]).rows
    ensures k in Exec(s, run[..n]).rows
    ensures Exec(s, run[..n]).rows[k].fingerprint == Exec(s, run[..j]).rows[k].fingerprint
  {
    if j < n {
      FingerprintStays(s, run, k, j, n - 1);
      var mid := Exec(s, run[..n - 1]);
      assert run[..n][..n - 1] == run[..n - 1];
      if Enabled(mid, run[n - 1]) { StepKeepsPrint(mid, run[n - 1], k); }
    }
  }

  // ---------------------------------------------------------------- a request on its own

  /** The first request under a key: it executes, and its commit stores its response for the payload it sent. Until
      then it may be reaped, but not before the timeout has passed since it began. */
  lemma FirstRequestIsServed(s: Sys, r: int, k: Key, f: string, now: Time, work: Work)
    requires r !in s.reqs && k !in s.rows && (work.Reject? || IndexAccepts(s, work.bid, k))
    requires Enabled(Do(s, Insert(r, k, f, now)), Execute(r, work))
    ensures var s1 := Do(s, Insert(r, k, f, now)); var s2 := Do(s1, Execute(r, work));
      && InPhase(s1, r, Working) && k in s1.rows && s1.rows[k] == KeyRow(f, IN_PROGRESS, None, now)
      && (forall later, timeout, rebuilt ::
           Enabled(s1, Reap(k, later, timeout, rebuilt)) <==> rebuilt.Reply? && now + timeout <= later)
      && InPhase(s2, r, Answered(Fresh(work.resp))) && k in s2.rows
      && s2.rows[k] == KeyRow(f, COMPLETED, Some(work.resp), now)
      && s2.carriers == (if work.Reject? then s.carriers else s.carriers[work.bid := k])
      && forall later, timeout, rebuilt :: !Enabled(s2, Reap(k, later, timeout, rebuilt))
  {
  }

  /** A request under a key already used. Another payload is a mismatch; with the same one, the request waits out
      an execution in progress, gets the stored response of a completed one, and retries a failed one in its
      place, with a new start for the reaper's timeout. It changes nothing else. */
  lemma RepeatedRequestIsAnswered(s: Sys, r: int, k: Key, f: string, now: Time)
    requires r !in s.reqs && k in s.rows
    ensures var row := s.rows[k]; var s1 := Do(s, Insert(r, k, f, now));
      && Enabled(s1, Look(r))
      && var s2 := Do(s1, Look(r));
         && s2 == s.(reqs := s.reqs[r := s2.reqs[r]]) && s2.reqs[r].key == k && s2.reqs[r].fingerprint == f
         && if f != row.fingerprint then InPhase(s2, r, Answered(Mismatch))
            else match row.status
              case IN_PROGRESS => InPhase(s2, r, Answered(Busy))
              case COMPLETED => row.response.Some? ==> InPhase(s2, r, Answered(Replay(row.response.value)))
              case FAILED =>
                && Enabled(s2, Reclaim(r, now))
                && var s3 := Do(s2, Reclaim(r, now));
                   && InPhase(s3, r, Working) && s3.carriers == s.carriers
                   && s3.rows == s.rows[k := KeyRow(f, IN_PROGRESS, row.response, now)]
  {
  }

  // ---------------------------------------------------------------- when only dead requests are reaped

  /** The reaper's timeout is long enough: nobody is still executing under the key it takes. */
  ghost predicate OnlyDeadReaped(s: Sys, run: seq<Step>) {
    forall n :: 0 <= n < |run| ==> DeadReap(Exec(s, run[..n]), run[n])
  }

  predicate IsWorking(s: Sys, r: int, k: Key) {
    r in s.reqs && s.reqs[r].phase == Working && s.reqs[r].key == k
  }

  /** Exactly while the row is IN_PROGRESS may a request execute under the key, and then only one. */
  ghost predicate OneWorker(s: Sys, k: Key) {
    && (forall r :: IsWorking(s, r, k) ==> k in s.rows && s.rows[k].status == IN_PROGRESS)
    && (forall q, r :: IsWorking(s, q, k) && IsWorking(s, r, k) ==> q == r)
  }

  /** At most one booking was created and one response stored under the key, and none unless COMPLETED. */
  ghost predicate SingleEffect(s: Sys, k: Key) {
    && (forall f :: f in s.facts && f.key == k && (f.Born? || f.Stored?) ==>
         k in s.rows && s.rows[k].status == COMPLETED)
    && (forall f, g :: f in s.facts && g in s.facts && f.key == k && g.key == k && f.Stored? && g.Stored? ==> f == g)
    && (forall f, g :: f in s.facts && g in s.facts && f.key == k && g.key == k && f.Born? && g.Born? ==> f == g)
  }

  ghost predicate ReclaimsExact(s: Sys, k: Key) {
    Tally(s, Reclaimed(k)) + (if IsFailed(s, k) then 1 else 0) == Tally(s, Reaped(k))
  }

  ghost predicate StrictInv(s: Sys, k: Key) {
    OneWorker(s, k) && SingleEffect(s, k) && ReclaimsExact(s, k) && RowOk(s, k)
  }

  ghost predicate DeadReap(s: Sys, a: Step) {
    a.Reap? ==> forall r :: !IsWorking(s, r, a.key)
  }

  lemma StepKeepsWorker(s: Sys, a: Step, k: Key)
    requires OneWorker(s, k) && Enabled(s, a) && DeadReap(s, a)
    ensures OneWorker(Do(s, a), k)
  {
    var s' := Do(s, a);
    if a.Execute? { assert s.reqs[a.r].key == k ==> IsWorking(s, a.r, k); }
    forall r | IsWorking(s', r, k)
      ensures IsWorking(s, r, k) || (a.Insert? && a.r == r && k !in s.rows) ||
        (a.Reclaim? && a.r == r && IsFailed(s, k))
    {
    }
    forall r | IsWorking(s', r, k) ensures k in s'.rows && s'.rows[k].status == IN_PROGRESS {
      assert IsWorking(s, r, k) ==> k in s.rows && s.rows[k].status == IN_PROGRESS;
    }
  }

  /** Nothing stored under k so far, and one execution under it. */
  lemma FirstExecution(s: Sys, r: int, work: Work, k: Key)
    requires Enabled(s, Execute(r, work)) && s.reqs[r].key == k
    requires forall f :: f in s.facts && f.key == k ==> !f.Born? && !f.Stored?
    ensures SingleEffect(Do(s, Execute(r, work)), k)
  {
    FactsGrow(s, Execute(r, work));
  }

  lemma OtherExecution(s: Sys, r: int, work: Work, k: Key)
    requires SingleEffect(s, k) && Enabled(s, Execute(r, work)) && s.reqs[r].key != k
    ensures SingleEffect(Do(s, Execute(r, work)), k)
  {
    FactsGrow(s, Execute(r, work));
    assert forall f :: f in NewFacts(s, Execute(r, work)) ==> f.key != k;
  }

  lemma ExecuteKeepsSingle(s: Sys, r: int, work: Work, k: Key)
    requires OneWorker(s, k) && SingleEffect(s, k) && Enabled(s, Execute(r, work))
    ensures SingleEffect(Do(s, Execute(r, work)), k)
  {
    if s.reqs[r].key == k {
      assert IsWorking(s, r, k);
      FirstExecution(s, r, work, k);
    } else {
      OtherExecution(s, r, work, k);
    }
  }

  lemma ReapKeepsSingle(s: Sys, a: Step, k: Key)
    requires SingleEffect(s, k) && Enabled(s, a) && a.Reap?
    ensures SingleEffect(Do(s, a), k)
  {
    FactsGrow(s, a);
    assert a.key == k ==> forall f :: f in s.facts && f.key == k ==> !f.Born? && !f.Stored?;
  }

  lemma StepKeepsSingle(s: Sys, a: Step, k: Key)
    requires OneWorker(s, k) && SingleEffect(s, k) && Enabled(s, a)
    ensures SingleEffect(Do(s, a), k)
  {
    match a
    case Execute(r, work) => ExecuteKeepsSingle(s, r, work, k);
    case Reap(_, _, _, _) => ReapKeepsSingle(s, a, k);
    case _ =>
      FactsGrow(s, a);
      assert forall f :: f in NewFacts(s, a) ==> !f.Born? && !f.Stored?;
  }

  lemma FailedExactly(s: Sys, a: Step, k: Key)
    requires OneWorker(s, k) && Enabled(s, a)
    ensures IsFailed(Do(s, a), k) <==> (IsFailed(s, k) && !WinsReclaim(s, a, k)) || ReapsToFailed(s, a, k)
    ensures !(IsFailed(s, k) && ReapsToFailed(s, a, k))
  {
    if a.Execute? && s.reqs[a.r].key == k { assert IsWorking(s, a.r, k); }
  }

  lemma StepKeepsExact(s: Sys, a: Step, k: Key)
    requires OneWorker(s, k) && ReclaimsExact(s, k) && Enabled(s, a)
    ensures ReclaimsExact(Do(s, a), k)
  {
    FailedExactly(s, a, k);
    FactsGrow(s, a);
    NewTallies(s, a, k);
    assert WinsReclaim(s, a, k) ==> IsFailed(s, k) && !ReapsToFailed(s, a, k);
  }

  lemma {:induction false} StrictInvAlways(s: Sys, run: seq<Step>, k: Key)
    requires Initial(s) && Runs(s, run) && OnlyDeadReaped(s, run)
    ensures StrictInv(Exec(s, run), k)
  {
    if run == [] {
      assert multiset(s.facts) == multiset{};
    } else {
      var n := |run| - 1;
      RunsPrefix(s, run, n);
      assert OnlyDeadReaped(s, run[..n]) by {
        assert forall m :: 0 <= m < n ==> run[..n][..m] == run[..m] && run[..n][m] == run[m];
      }
      StrictInvAlways(s, run[..n], k);
      var mid, a := Exec(s, run[..n]), run[n];
      assert DeadReap(mid, a);
      StepKeepsWorker(mid, a, k);
      StepKeepsSingle(mid, a, k);
      StepKeepsExact(mid, a, k);
      StepKeepsRow(mid, a, k);
    }
  }

  /** Idempotency: if only dead requests are reaped, then over every run with any crashes each (user, key)
      creates at most one booking, exactly one retry wins each FAILED row, and all requests that were
      answered with a response under the key were answered with the same one. */
  lemma SameKeySameAnswer(s: Sys, run: seq<Step>, k: Key)
    requires Initial(s) && Runs(s, run) && OnlyDeadReaped(s, run)
    ensures var end := Exec(s, run);
      && (forall b, c :: Born(k, b) in end.facts && Born(k, c) in end.facts ==> b == c)
      && (forall q, r :: q in end.reqs && r in end.reqs && GotResponse(end.reqs[q], k) && GotResponse(end.reqs[r], k)
           ==> end.reqs[q].phase.a.resp == end.reqs[r].phase.a.resp)
      && Tally(end, Reclaimed(k)) + (if IsFailed(end, k) then 1 else 0) == Tally(end, Reaped(k))
  {
    StrictInvAlways(s, run, k);
    AnyInvAlways(s, run);
    var end := Exec(s, run);
    forall q, r | q in end.reqs && r in end.reqs && GotResponse(end.reqs[q], k) && GotResponse(end.reqs[r], k)
      ensures end.reqs[q].phase.a.resp == end.reqs[r].phase.a.resp
    {
      assert ReqOk(end, q) && ReqOk(end, r);
    }
  }

  predicate GotResponse(q: Req, k: Key) {
    q.key == k && q.phase.Answered? && (q.phase.a.Fresh? || q.phase.a.Replay?)
  }

  // ---------------------------------------------------------------- when a live request is reaped

  /** The step commits an execution under key k. */
  predicate CommitsUnder(s: Sys, a: Step, k: Key) {
    a.Execute? && Enabled(s, a) && s.reqs[a.r].key == k && (a.work.Reject? || IndexAccepts(s, a.work.bid, k))
  }

  /** What the caller could check on the key row before it writes the completion marker, and does not: nobody
      else has completed the request, or with the very same response. */
  predicate MarkerGuard(s: Sys, a: Step, k: Key) {
    a.Execute? && k in s.rows && (s.rows[k].status != COMPLETED || s.rows[k].response == Some(a.work.resp))
  }

  ghost predicate OneResponse(s: Sys, k: Key) {
    forall q, r :: Stored(k, q) in s.facts && Stored(k, r) in s.facts ==> q == r
  }

  /** One response means one booking, and only behind a COMPLETED row. */
  lemma OneResponseIsSingle(s: Sys, k: Key)
    requires KeyOk(s, k)
    ensures SingleEffect(s, k) <==> OneResponse(s, k)
  {
    forall b | Born(k, b) in s.facts ensures k in s.rows && s.rows[k].status == COMPLETED {
      var f :| f in s.facts && Tells(f, k, b);
    }
    if OneResponse(s, k) {
      forall b, c | Born(k, b) in s.facts && Born(k, c) in s.facts ensures b == c {
        var f :| f in s.facts && Tells(f, k, b);
        var g :| g in s.facts && Tells(g, k, c);
        assert f == Stored(k, f.resp) && g == Stored(k, g.resp);
      }
      assert forall f, g :: f in s.facts && g in s.facts && f.key == k && g.key == k && f.Born? && g.Born? ==>
        f == Born(k, f.bid) && g == Born(k, g.bid);
      assert forall f, g :: f in s.facts && g in s.facts && f.key == k && g.key == k && f.Stored? && g.Stored? ==>
        f == Stored(k, f.resp) && g == Stored(k, g.resp);
    }
  }

  lemma NewResponses(s: Sys, a: Step, k: Key)
    requires RowOk(s, k) && Enabled(s, a)
    ensures forall q :: Stored(k, q) in NewFacts(s, a) <==> CommitsUnder(s, a, k) && q == a.work.resp
  {
    if CommitsUnder(s, a, k) { assert Stored(k, a.work.resp) in NewFacts(s, a); }
  }

  lemma CommitMeetsGuard(s: Sys, a: Step, k: Key)
    requires RowOk(s, k) && OneResponse(s, k) && CommitsUnder(s, a, k)
    ensures MarkerGuard(s, a, k) <==> forall q :: Stored(k, q) in s.facts ==> q == a.work.resp
  {
    if s.rows[k].status == COMPLETED { assert Stored(k, s.rows[k].response.value) in s.facts; }
  }

  /** One step keeps to one response exactly when it is no commit under the key or meets the guard. */
  lemma MarkerStep(s: Sys, a: Step, k: Key)
    requires RowOk(s, k) && Enabled(s, a)
    ensures OneResponse(Do(s, a), k) <==> OneResponse(s, k) && (CommitsUnder(s, a, k) ==> MarkerGuard(s, a, k))
  {
    FactsGrow(s, a);
    NewResponses(s, a, k);
    var s' := Do(s, a);
    assert forall q :: Stored(k, q) in s'.facts <==>
      Stored(k, q) in s.facts || (CommitsUnder(s, a, k) && q == a.work.resp);
    if OneResponse(s, k) && CommitsUnder(s, a, k) {
      CommitMeetsGuard(s, a, k);
      assert Stored(k, a.work.resp) in s'.facts;
    }
  }

  ghost predicate GuardMet(s: Sys, run: seq<Step>, k: Key, n: nat)
    requires n < |run|
  {
    CommitsUnder(Exec(s, run[..n]), run[n], k) ==> MarkerGuard(Exec(s, run[..n]), run[n], k)
  }

  /** The completion marker is not guarded on status. Over every run, whatever is reaped, a key has a single
      effect, one booking at most and one response, exactly when every commit under it would have passed such
      a guard. */
  lemma {:induction false} MarkerSafeIff(s: Sys, run: seq<Step>, k: Key)
    requires Initial(s) && Runs(s, run)
    ensures SingleEffect(Exec(s, run), k) <==> forall n: nat :: n < |run| ==> GuardMet(s, run, k, n)
  {
    OneResponseAlways(s, run, k);
    if run != [] {
      var m := |run| - 1;
      RunsPrefix(s, run, m);
      MarkerSafeIff(s, run[..m], k);
      OneResponseAlways(s, run[..m], k);
      MarkerStep(Exec(s, run[..m]), run[m], k);
      GuardsSplit(s, run, k);
    }
  }

  lemma OneResponseAlways(s: Sys, run: seq<Step>, k: Key)
    requires Initial(s) && Runs(s, run)
    ensures RowOk(Exec(s, run), k) && (SingleEffect(Exec(s, run), k) <==> OneResponse(Exec(s, run), k))
  {
    AnyInvAlways(s, run);
    assert KeyOk(Exec(s, run), k);
    OneResponseIsSingle(Exec(s, run), k);
  }

  lemma GuardsSplit(s: Sys, run: seq<Step>, k: Key)
    requires run != []
    ensures var m := |run| - 1;
      (forall n: nat :: n < |run| ==> GuardMet(s, run, k, n)) <==>
      (forall n: nat :: n < m ==> GuardMet(s, run[..m], k, n)) && GuardMet(s, run, k, m)
  {
    var m := |run| - 1;
    forall n: nat | n < m ensures GuardMet(s, run[..m], k, n) <==> GuardMet(s, run, k, n) {
      assert run[..m][..n] == run[..n] && run[..m][n] == run[n];
    }
  }

  lemma RunsSnoc(s: Sys, run: seq<Step>, a: Step)
    requires Runs(s, run) && Enabled(Exec(s, run), a)
    ensures Runs(s, run + [a])
    ensures Exec(s, run + [a]) == Do(Exec(s, run), a)
  {
    var run' := run + [a];
    assert run'[..|run|] == run;
    assert forall k :: 0 <= k < |run| ==> run'[..k] == run[..k] && run'[k] == run[k];
  }

  lemma RunOne(s: Sys, run: seq<Step>, a: Step, after: Sys) returns (run': seq<Step>)
    requires Runs(s, run) && Enabled(Exec(s, run), a) && Do(Exec(s, run), a) == after
    ensures run' == run + [a] && Runs(s, run') && Exec(s, run') == after
  {
    RunsSnoc(s, run, a);
    run' := run + [a];
  }

  const K := Key(1, "k")
  const OTHER := Key(1, "confirm")
  const FIRST := Created(10, "")
  const SECOND := Created(11, "")
  const OK := Reply(200, "")
  const SLOW := Req(K, "f", Working)
  const FAILED_ROW := KeyRow("f", FAILED, None, 0)

  /** Request 1 has begun and was reaped while still executing. */
  function SlowReaped(): Sys {
    Sys(map[K := FAILED_ROW], map[], map[1 := SLOW], [Reaped(K)])
  }

  /** Request 2 has reclaimed the key and is executing too. */
  function RetryWorking(): Sys {
    Sys(map[K := KeyRow("f", IN_PROGRESS, None, 61)], map[], map[1 := SLOW, 2 := SLOW], [Reaped(K), Reclaimed(K)])
  }

  /** Request 2 created booking 10; request 3 confirmed it, which took the first key off the booking. */
  function KeyMoved(): Sys {
    Sys(map[K := KeyRow("f", COMPLETED, Some(FIRST), 61), OTHER := KeyRow("g", COMPLETED, Some(OK), 62)],
        map[10 := OTHER],
        map[1 := SLOW, 2 := Req(K, "f", Answered(Fresh(FIRST))), 3 := Req(OTHER, "g", Answered(Fresh(OK)))],
        [Reaped(K), Reclaimed(K), Born(K, 10), Stored(K, FIRST), Stored(OTHER, OK)])
  }

  lemma ReachSlowReaped(s: Sys) returns (run: seq<Step>)
    requires Initial(s)
    ensures Runs(s, run) && Exec(s, run) == SlowReaped()
    ensures |run| > 1 && !DeadReap(Exec(s, run[..1]), run[1])
  {
    var a := Insert(1, K, "f", 0);
    run := RunOne(s, [], a, Sys(map[K := FAILED_ROW.(status := IN_PROGRESS)], map[], map[1 := SLOW], []));
    assert IsWorking(Exec(s, run), 1, K);
    var first := run;
    run := RunOne(s, run, Reap(K, 60, 60, OK), SlowReaped());
    assert run[..1] == first;
  }

  /** Request 2 found the key taken, then saw it FAILED. */
  function RetryAt(p: Phase): Sys {
    SlowReaped().(reqs := map[1 := SLOW, 2 := Req(K, "f", p)])
  }

  lemma RetrySteps()
    ensures Do(SlowReaped(), Insert(2, K, "f", 61)) == RetryAt(Inserted)
    ensures Enabled(RetryAt(Inserted), Look(2)) && Do(RetryAt(Inserted), Look(2)) == RetryAt(Reclaiming)
  {
  }

  lemma RetryWins()
    ensures Enabled(RetryAt(Reclaiming), Reclaim(2, 61)) && Do(RetryAt(Reclaiming), Reclaim(2, 61)) == RetryWorking()
  {
    assert Do(RetryAt(Reclaiming), Reclaim(2, 61)).facts == RetryWorking().facts;
  }

  lemma ReachRetryWorking(s: Sys, run0: seq<Step>) returns (run: seq<Step>)
    requires Runs(s, run0) && Exec(s, run0) == SlowReaped()
    ensures run0 <= run && Runs(s, run) && Exec(s, run) == RetryWorking()
  {
    RetrySteps();
    run := RunOne(s, run0, Insert(2, K, "f", 61), RetryAt(Inserted));
    run := RunOne(s, run, Look(2), RetryAt(Reclaiming));
    RetryWins();
    run := RunOne(s, run, Reclaim(2, 61), RetryWorking());
  }

  function BookingTen(): Sys {
    Sys(map[K := KeyRow("f", COMPLETED, Some(FIRST), 61)], map[10 := K],
        map[1 := SLOW, 2 := Req(K, "f", Answered(Fresh(FIRST)))],
        [Reaped(K), Reclaimed(K), Born(K, 10), Stored(K, FIRST)])
  }

  function Confirming(): Sys {
    BookingTen().(rows := map[K := KeyRow("f", COMPLETED, Some(FIRST), 61),
                              OTHER := KeyRow("g", IN_PROGRESS, None, 62)],
                  reqs := map[1 := SLOW, 2 := Req(K, "f", Answered(Fresh(FIRST))), 3 := Req(OTHER, "g", Working)])
  }

  lemma CreateTen()
    ensures var a := Execute(2, CreateBooking(10, FIRST));
      Enabled(RetryWorking(), a) && Do(RetryWorking(), a) == BookingTen()
  {
    var after := Do(RetryWorking(), Execute(2, CreateBooking(10, FIRST)));
    assert after.facts == BookingTen().facts;
    assert after.reqs == BookingTen().reqs;
  }

  lemma ConfirmTen()
    ensures var a := Execute(3, ConfirmTo(10, OK)); Enabled(Confirming(), a) && Do(Confirming(), a) == KeyMoved()
  {
    var after := Do(Confirming(), Execute(3, ConfirmTo(10, OK)));
    assert after.facts == KeyMoved().facts;
    assert after.reqs == KeyMoved().reqs;
    assert after.rows == KeyMoved().rows;
  }

  /** Two bookings were created under K, and requests 1 and 2 were answered differently. */
  ghost predicate Broken(end: Sys) {
    && Born(K, 10) in end.facts && Born(K, 11) in end.facts
    && 1 in end.reqs && 2 in end.reqs && GotResponse(end.reqs[1], K) && GotResponse(end.reqs[2], K)
    && end.reqs[1].phase.a.resp != end.reqs[2].phase.a.resp
  }

  lemma CreateEleven()
    ensures var a := Execute(1, CreateBooking(11, SECOND)); Enabled(KeyMoved(), a) && Broken(Do(KeyMoved(), a))
  {
    var after := Do(KeyMoved(), Execute(1, CreateBooking(11, SECOND)));
    assert after.facts == KeyMoved().facts + [Born(K, 11), Stored(K, SECOND)];
    assert after.facts[2] == Born(K, 10) && after.facts[5] == Born(K, 11);
  }

  lemma ReachKeyMoved(s: Sys, run0: seq<Step>) returns (run: seq<Step>)
    requires Runs(s, run0) && Exec(s, run0) == RetryWorking()
    ensures run0 <= run && Runs(s, run) && Exec(s, run) == KeyMoved()
  {
    CreateTen();
    run := RunOne(s, run0, Execute(2, CreateBooking(10, FIRST)), BookingTen());
    run := RunOne(s, run, Insert(3, OTHER, "g", 62), Confirming());
    ConfirmTen();
    run := RunOne(s, run, Execute(3, ConfirmTo(10, OK)), KeyMoved());
  }

  /** Reaping a slow but live request breaks idempotency: here two bookings are created under one key, and
      the two requests get different responses, although neither unique constraint was violated. */
  lemma LiveReapBreaksIdempotency(s: Sys) returns (run: seq<Step>)
    requires Initial(s)
    ensures Runs(s, run) && !OnlyDeadReaped(s, run)
    ensures Broken(Exec(s, run))
  {
    var start := ReachSlowReaped(s);
    var mid := ReachRetryWorking(s, start);
    mid := ReachKeyMoved(s, mid);
    run := ReachBroken(s, mid);
    StillNotDead(s, start, run);
  }

  lemma ReachBroken(s: Sys, run0: seq<Step>) returns (run: seq<Step>)
    requires Runs(s, run0) && Exec(s, run0) == KeyMoved()
    ensures run0 <= run && Runs(s, run) && Broken(Exec(s, run))
  {
    var a := Execute(1, CreateBooking(11, SECOND));
    CreateEleven();
    run := RunOne(s, run0, a, Do(KeyMoved(), a));
  }

  lemma StillNotDead(s: Sys, start: seq<Step>, run: seq<Step>)
    requires start <= run && |start| > 1 && !DeadReap(Exec(s, start[..1]), start[1])
    ensures !OnlyDeadReaped(s, run)
  {
    assert run[..1] == start[..1] && run[1] == start[1];
    assert !DeadReap(Exec(s, run[..1]), run[1]);
  }
}
