/** Leased claims with bounded attempts and exponential backoff: the one machine behind the
    transactional outbox and the local receipt queue, which differ in three constants. Times are
    seconds. */
module Leases {
  import opened Options

  datatype Status = Pending | Processing | Delivered | FailedRetryable | FailedTerminal

  datatype Row = Row(key: nat, payload: nat, status: Status, attempts: nat, availableAt: int, lockedUntil: Option<int>)

  /** Lease length, longest backoff, and the exponent the backoff stops growing at. */
  datatype Policy = Policy(lease: nat, longest: nat, exponent: nat)

  const OUTBOX := Policy(120, 3600, 10)
  const LOCAL_QUEUE := Policy(180, 300, 8)
  const MAX_ATTEMPTS: nat := 10

  function Power2(n: nat): (p: nat)
    ensures p > 0
  {
    if n == 0 then 1 else 2 * Power2(n - 1)
  }

  function Min(a: nat, b: nat): nat { if a <= b then a else b }

  function Backoff(policy: Policy, attempts: nat): nat {
    Min(policy.longest, Power2(Min(attempts, policy.exponent)))
  }

  predicate Eligible(row: Row, now: int) {
    || ((row.status == Pending || row.status == FailedRetryable) && row.availableAt <= now)
    || (row.status == Processing && row.lockedUntil.Some? && row.lockedUntil.value < now)
  }

  function ClaimRow(policy: Policy, row: Row, now: int): Row {
    row.(status := Processing, attempts := row.attempts + 1, lockedUntil := Some(now + policy.lease))
  }

  function DeliverRow(row: Row): Row {
    if row.status == Processing then row.(status := Delivered, lockedUntil := None) else row
  }

  /** `claimed` is the attempt number the worker was given, `row.attempts` the one in the table. */
  function FailRow(policy: Policy, row: Row, claimed: nat, now: int): Row {
    if row.status == Processing then
      row.(status := if claimed >= MAX_ATTEMPTS then FailedTerminal else FailedRetryable,
           lockedUntil := None, availableAt := now + Backoff(policy, row.attempts))
    else row
  }

  // ----- one row, many workers -----

  type WorkerId = nat

  datatype Lease = Lease(attempt: nat, until: int)

  /** A row, the clock, the leases workers believe they hold, and how often the row was claimed:
      in all, and while its previous lease had run out. */
  datatype System = System(row: Row, now: int, leases: map<WorkerId, Lease>, claims: nat, reclaims: nat)

  datatype Step =
    | Claim(w: WorkerId, at: int)
    | Deliver(w: WorkerId, at: int)
    | Fail(w: WorkerId, at: int)

  function Next(policy: Policy, s: System, step: Step): System {
    if step.at < s.now then s
    else
      match step
      case Claim(w, at) =>
        if Eligible(s.row, at) then
          System(ClaimRow(policy, s.row, at), at, s.leases[w := Lease(s.row.attempts + 1, at + policy.lease)],
                 s.claims + 1, s.reclaims + if s.row.status == Processing then 1 else 0)
        else s.(now := at)
      case Deliver(w, at) =>
        if w in s.leases then s.(row := DeliverRow(s.row), now := at, leases := s.leases - {w}) else s.(now := at)
      case Fail(w, at) =>
        if w in s.leases
        then s.(row := FailRow(policy, s.row, s.leases[w].attempt, at), now := at, leases := s.leases - {w})
        else s.(now := at)
  }

  function Run(policy: Policy, s: System, steps: seq<Step>): System
    decreases |steps|
  {
    if steps == [] then s else Run(policy, Next(policy, s, steps[0]), steps[1..])
  }

  function New(key: nat, payload: nat, now: int): System {
    System(Row(key, payload, Pending, 0, now, None), now, map[], 0, 0)
  }

  /** A worker may still write: its lease has not run out. */
  predicate Live(s: System, w: WorkerId, at: int) { w in s.leases && at <= s.leases[w].until }

  /** A worker that writes at all writes within its own lease. */
  predicate Punctual(s: System, step: Step) {
    !step.Claim? && step.at >= s.now && step.w in s.leases ==> Live(s, step.w, step.at)
  }

  ghost predicate AllPunctual(policy: Policy, s: System, steps: seq<Step>)
    decreases |steps|
  {
    steps != [] ==> Punctual(s, steps[0]) && AllPunctual(policy, Next(policy, s, steps[0]), steps[1..])
  }

  /** A live lease is the one the row records. */
  ghost predicate LeasesOk(s: System) {
    forall w :: Live(s, w, s.now) ==>
      s.row.status == Processing && s.row.lockedUntil == Some(s.leases[w].until) && s.row.attempts == s.leases[w].attempt
  }

  ghost predicate OneLiveLease(s: System) {
    forall v, w :: Live(s, v, s.now) && Live(s, w, s.now) ==> v == w
  }

  ghost predicate CountsOk(s: System) {
    && s.row.attempts == s.claims
    && s.reclaims <= s.claims
    && (s.row.status == Pending ==> s.row.attempts == 0)
    && (s.row.status == FailedRetryable ==> s.row.attempts < MAX_ATTEMPTS)
    && s.claims <= MAX_ATTEMPTS + s.reclaims
    && (s.row.status == Processing ==> s.row.lockedUntil.Some?)
  }

  ghost predicate Ok(s: System) { LeasesOk(s) && OneLiveLease(s) && CountsOk(s) }

  lemma OkStep(policy: Policy, s: System, step: Step)
    requires Ok(s) && Punctual(s, step)
    ensures Ok(Next(policy, s, step))
  {
    var t := Next(policy, s, step);
    if step.at >= s.now {
      assert forall v :: Live(s, v, step.at) ==> Live(s, v, s.now);
      assert forall v :: Live(t, v, t.now) && !(step.Claim? && v == step.w) ==> Live(s, v, step.at);
      if step.Claim? && Eligible(s.row, step.at) {
        assert forall v :: !Live(s, v, step.at);
      } else if !step.Claim? && step.w in s.leases {
        assert Live(s, step.w, step.at);
        assert forall v :: Live(s, v, step.at) ==> v == step.w;
        assert forall v :: !Live(t, v, t.now);
      }
    }
  }

  /** As long as workers write only within their leases, at most one of them holds a live lease,
      the attempts column counts the claims, and there are at most ten of them besides those that
      took over a lease that had run out. */
  lemma {:induction false} LeasesAreExclusive(policy: Policy, s: System, steps: seq<Step>)
    requires Ok(s) && AllPunctual(policy, s, steps)
    ensures Ok(Run(policy, s, steps))
    decreases |steps|
  {
    if steps != [] {
      OkStep(policy, s, steps[0]);
      LeasesAreExclusive(policy, Next(policy, s, steps[0]), steps[1..]);
    }
  }

  /** So it is for a new row. */
  lemma NewRowsAreExclusive(policy: Policy, key: nat, payload: nat, start: int, steps: seq<Step>)
    requires AllPunctual(policy, New(key, payload, start), steps)
    ensures Ok(Run(policy, New(key, payload, start), steps))
  {
    LeasesAreExclusive(policy, New(key, payload, start), steps);
  }

  predicate Finished(row: Row) { row.status == Delivered || row.status == FailedTerminal }

  /** A delivered or finally failed row is never touched again, late writes included: no mark acts on
      it and no claim takes it. */
  lemma {:induction false} FinishedForever(policy: Policy, s: System, steps: seq<Step>)
    requires Finished(s.row)
    ensures Run(policy, s, steps).row == s.row
    decreases |steps|
  {
    if steps != [] {
      FinishedForever(policy, Next(policy, s, steps[0]), steps[1..]);
    }
  }

  // ----- late writes -----

  /** The row has failed, and every live lease ends before it can be claimed again. */
  ghost predicate Waiting(s: System) {
    s.row.status == FailedRetryable && forall w :: Live(s, w, s.now) ==> s.leases[w].until < s.row.availableAt
  }

  /** At most one lease is live, and no claim can change that. */
  ghost predicate Exclusive(s: System) { OneLiveLease(s) && (LeasesOk(s) || Finished(s.row) || Waiting(s)) }

  lemma ExclusiveStep(policy: Policy, s: System, step: Step)
    requires Exclusive(s) && Punctual(s, step)
    ensures Exclusive(Next(policy, s, step))
    ensures CountsOk(s) ==> CountsOk(Next(policy, s, step))
  {
    var t := Next(policy, s, step);
    if step.at >= s.now {
      assert forall v :: Live(s, v, step.at) ==> Live(s, v, s.now);
      assert forall v :: Live(t, v, t.now) && !(step.Claim? && v == step.w) ==> Live(s, v, step.at);
      if step.Claim? && Eligible(s.row, step.at) {
        assert forall v :: !Live(s, v, step.at);
      } else if !step.Claim? && step.w in s.leases {
        assert Live(s, step.w, step.at);
        assert forall v :: Live(s, v, step.at) ==> v == step.w;
        assert forall v :: !Live(t, v, t.now);
      }
    }
  }

  lemma {:induction false} ExclusiveRun(policy: Policy, s: System, steps: seq<Step>)
    requires Exclusive(s) && AllPunctual(policy, s, steps)
    ensures Exclusive(Run(policy, s, steps))
    ensures CountsOk(s) ==> CountsOk(Run(policy, s, steps))
    decreases |steps|
  {
    hide Exclusive, CountsOk;
    if steps != [] {
      ExclusiveStep(policy, s, steps[0]);
      ExclusiveRun(policy, Next(policy, s, steps[0]), steps[1..]);
    }
  }

  /** A worker reports after its own lease ran out. */
  predicate LateWrite(s: System, step: Step) {
    !step.Claim? && step.at >= s.now && step.w in s.leases && !Live(s, step.w, step.at)
  }

  /** The late report frees the row for another claim while somebody still works on it. */
  ghost predicate FreesHeldRow(policy: Policy, s: System, step: Step)
    requires !step.Claim? && step.w in s.leases
  {
    && step.Fail? && s.leases[step.w].attempt < MAX_ATTEMPTS
    && exists v :: Live(s, v, step.at) && s.leases[v].until >= step.at + Backoff(policy, s.row.attempts)
  }

  /** The late report of an earlier attempt revives a row whose tenth attempt is under way. */
  predicate RevivesRow(s: System, step: Step)
    requires !step.Claim? && step.w in s.leases
  {
    && step.Fail? && s.leases[step.w].attempt < MAX_ATTEMPTS
    && s.row.status == Processing && s.row.attempts >= MAX_ATTEMPTS
  }

  lemma FreshWorker(leases: map<WorkerId, Lease>) returns (w: WorkerId)
    ensures w !in leases
  {
    w := Above(leases.Keys);
  }

  lemma {:induction false} Above(ids: set<WorkerId>) returns (w: WorkerId)
    ensures forall id :: id in ids ==> id < w
    decreases ids
  {
    w := 0;
    if ids != {} {
      var id :| id in ids;
      var rest := Above(ids - {id});
      w := if id < rest then rest else id + 1;
      assert forall x :: x in ids ==> x == id || x in ids - {id};
    }
  }

  lemma LateWriteKeeps(policy: Policy, s: System, step: Step)
    requires LeasesOk(s) && OneLiveLease(s) && LateWrite(s, step)
    ensures FreesHeldRow(policy, s, step) || Exclusive(Next(policy, s, step))
  {
    var t := Next(policy, s, step);
    assert forall v :: Live(s, v, step.at) ==> Live(s, v, s.now);
    assert forall v :: Live(t, v, t.now) <==> Live(s, v, step.at);
  }

  lemma FreedRowClaimed(policy: Policy, s: System, step: Step) returns (steps: seq<Step>)
    requires LeasesOk(s) && LateWrite(s, step) && FreesHeldRow(policy, s, step)
    ensures
      var t := Next(policy, s, step);
      AllPunctual(policy, t, steps) && !OneLiveLease(Run(policy, t, steps))
  {
    var t := Next(policy, s, step);
    var v :| Live(s, v, step.at) && s.leases[v].until >= step.at + Backoff(policy, s.row.attempts);
    assert Live(s, v, s.now) && v != step.w;
    var u := FreshWorker(t.leases);
    steps := [Claim(u, t.row.availableAt)];
    var end := Next(policy, t, steps[0]);
    assert steps[1..] == [];
    assert Run(policy, t, steps) == Run(policy, end, steps[1..]) == end;
    assert Live(end, u, end.now) && Live(end, v, end.now);
  }

  /** After a late write two workers can come to hold live leases, though all write in time from
      then on, exactly if the write is a failure report of an attempt before the tenth and another
      lease is still live when the backoff it starts has passed. */
  lemma LateWriteIff(policy: Policy, s: System, step: Step)
    requires LeasesOk(s) && OneLiveLease(s) && LateWrite(s, step)
    ensures
      var t := Next(policy, s, step);
      (exists steps :: AllPunctual(policy, t, steps) && !OneLiveLease(Run(policy, t, steps))) <==> FreesHeldRow(policy, s, step)
  {
    var t := Next(policy, s, step);
    if FreesHeldRow(policy, s, step) {
      var steps := FreedRowClaimed(policy, s, step);
    } else {
      LateWriteKeeps(policy, s, step);
      forall steps | AllPunctual(policy, t, steps)
        ensures OneLiveLease(Run(policy, t, steps))
      {
        ExclusiveRun(policy, t, steps);
      }
    }
  }

  lemma LateWriteCounts(policy: Policy, s: System, step: Step)
    requires CountsOk(s) && LateWrite(s, step)
    ensures CountsOk(Next(policy, s, step)) <==> !RevivesRow(s, step)
  {
  }

  ghost predicate StaysInOrder(policy: Policy, t: System, steps: seq<Step>) {
    AllPunctual(policy, t, steps) ==> OneLiveLease(Run(policy, t, steps)) && CountsOk(Run(policy, t, steps))
  }

  /** Whatever follows a late write in time keeps one live lease and the ten-claim bound exactly if
      the write neither frees a held row nor revives one in its tenth attempt. */
  lemma LateWriteHarmlessIff(policy: Policy, s: System, step: Step)
    requires Ok(s) && LateWrite(s, step)
    ensures (forall steps :: StaysInOrder(policy, Next(policy, s, step), steps)) <==>
            !FreesHeldRow(policy, s, step) && !RevivesRow(s, step)
  {
    var t := Next(policy, s, step);
    LateWriteCounts(policy, s, step);
    if FreesHeldRow(policy, s, step) {
      var steps := FreedRowClaimed(policy, s, step);
      assert !StaysInOrder(policy, t, steps);
    } else if RevivesRow(s, step) {
      var none: seq<Step> := [];
      assert AllPunctual(policy, t, none) && Run(policy, t, none) == t;
      assert !StaysInOrder(policy, t, none);
    } else {
      LateWriteKeeps(policy, s, step);
      forall steps
        ensures StaysInOrder(policy, t, steps)
      {
        if AllPunctual(policy, t, steps) {
          ExclusiveRun(policy, t, steps);
        }
      }
    }
  }

  /** A revived row is claimed an eleventh time once its backoff has passed, without any lease having
      run out again. */
  lemma EleventhClaim(policy: Policy, s: System, step: Step, u: WorkerId)
    requires LateWrite(s, step) && RevivesRow(s, step)
    ensures
      var t := Next(policy, s, step);
      var end := Next(policy, t, Claim(u, t.row.availableAt));
      end.row.status == Processing && end.row.attempts > MAX_ATTEMPTS && end.claims == s.claims + 1 && end.reclaims == s.reclaims
  {
  }

  lemma {:induction false} RunAppend(policy: Policy, s: System, steps: seq<Step>, more: seq<Step>)
    ensures Run(policy, s, steps + more) == Run(policy, Run(policy, s, steps), more)
    decreases |steps|
  {
    if steps == [] {
      assert steps + more == more;
    } else {
      assert (steps + more)[1..] == steps[1..] + more;
      RunAppend(policy, Next(policy, s, steps[0]), steps[1..], more);
    }
  }

  lemma RunTwo(policy: Policy, s: System, a: Step, b: Step)
    ensures Run(policy, s, [a, b]) == Next(policy, Next(policy, s, a), b)
  {
    hide Next;
    assert [a, b][1..] == [b] && [b][1..] == [];
    assert Run(policy, Next(policy, s, a), [b]) == Run(policy, Next(policy, Next(policy, s, a), b), []);
  }

  /** A new row can have failed any number of times below ten. */
  lemma {:induction false} FailedTimes(policy: Policy, n: nat) returns (steps: seq<Step>)
    requires 0 < n < MAX_ATTEMPTS
    ensures
      var s := Run(policy, New(0, 0, 0), steps);
      s.row.status == FailedRetryable && s.row.attempts == n && s.leases == map[] && s.row.availableAt >= s.now
  {
    var before, s := [], New(0, 0, 0);
    if n > 1 {
      before := FailedTimes(policy, n - 1);
      s := Run(policy, New(0, 0, 0), before);
    }
    var more := [Claim(0, s.row.availableAt), Fail(0, s.row.availableAt)];
    steps := before + more;
    RunAppend(policy, New(0, 0, 0), before, more);
    RunTwo(policy, s, more[0], more[1]);
    var held := Next(policy, s, more[0]);
    assert held.leases - {0} == map[];
  }

  /** The run that shows it: the ninth attempt outlives its lease, so does the tenth, and then the
      ninth reports its failure. */
  lemma {:induction false} TenthAttemptRevived(policy: Policy) returns (steps: seq<Step>, late: Step)
    ensures
      var s := Run(policy, New(0, 0, 0), steps);
      LateWrite(s, late) && RevivesRow(s, late) && forall v :: !Live(s, v, late.at)
  {
    var before := FailedTimes(policy, 8);
    var s := Run(policy, New(0, 0, 0), before);
    var first := s.row.availableAt;
    var second := first + policy.lease + 1;
    var more := [Claim(9, first), Claim(10, second)];
    steps := before + more;
    late := Fail(9, second + policy.lease + 1);
    RunAppend(policy, New(0, 0, 0), before, more);
    RunTwo(policy, s, more[0], more[1]);
  }

  /** How such a write ends in two live leases: worker 1 outlives its lease, worker 2 takes over,
      worker 1 reports its failure, and worker 3 claims while worker 2 is still at work. */
  lemma {:induction false} LateWriteDoubleLease()
    ensures
      var s := Run(LOCAL_QUEUE, New(0, 0, 0), [Claim(1, 0), Claim(2, 181), Fail(1, 182), Claim(3, 186)]);
      Live(s, 2, s.now) && Live(s, 3, s.now)
  {
    var s0 := New(0, 0, 0);
    var s1 := Next(LOCAL_QUEUE, s0, Claim(1, 0));
    var s2 := Next(LOCAL_QUEUE, s1, Claim(2, 181));
    var s3 := Next(LOCAL_QUEUE, s2, Fail(1, 182));
    var s4 := Next(LOCAL_QUEUE, s3, Claim(3, 186));
    assert Power2(2) == 4;
    assert s3.row.availableAt == 186;
    var steps := [Claim(1, 0), Claim(2, 181), Fail(1, 182), Claim(3, 186)];
    assert steps[1..][1..][1..][1..] == [];
    assert Run(LOCAL_QUEUE, s3, steps[1..][1..][1..]) == Run(LOCAL_QUEUE, s4, steps[1..][1..][1..][1..]);
    assert Run(LOCAL_QUEUE, s1, steps[1..]) == Run(LOCAL_QUEUE, s2, steps[1..][1..]) == Run(LOCAL_QUEUE, s3, steps[1..][1..][1..]);
  }

  /** The constants: an outbox row is leased for two minutes, a local queue row for three. */
  lemma LeaseLengths(row: Row, now: int, at: int)
    ensures Eligible(ClaimRow(OUTBOX, row, now), at) <==> at > now + 120
    ensures Eligible(ClaimRow(LOCAL_QUEUE, row, now), at) <==> at > now + 180
  {
  }

  /** A failure of attempt `n` delays the next claim by 2^n seconds, an outbox row's up to 1024 and a
      local queue row's up to 256; the tenth attempt's is for good. */
  lemma FailureDelays(row: Row, n: nat, now: int)
    requires row.status == Processing && row.attempts == n
    ensures
      var outbox, local := FailRow(OUTBOX, row, n, now), FailRow(LOCAL_QUEUE, row, n, now);
      && outbox.availableAt == now + Power2(if n < 10 then n else 10)
      && local.availableAt == now + Power2(if n < 8 then n else 8)
      && outbox.status == local.status == (if n < 10 then FailedRetryable else FailedTerminal)
      && outbox.lockedUntil == local.lockedUntil == None && outbox.attempts == local.attempts == n
  {
    Powers();
    if n <= 10 {
      PowersGrow(n, 10);
    }
    if n <= 8 {
      PowersGrow(n, 8);
    }
    assert Power2(10) == 2 * Power2(9);
  }

  lemma {:induction false} PowersGrow(a: nat, b: nat)
    requires a <= b
    ensures Power2(a) <= Power2(b)
    decreases b - a
  {
    if a < b {
      PowersGrow(a + 1, b);
    }
  }

  // ----- a row that always fails, without crashes -----

  /** One try: the row is claimed at one time and fails at a later one. */
  datatype Try = Try(claimed: int, failed: int)

  function AfterTry(policy: Policy, row: Row, t: Try): Row {
    var taken := ClaimRow(policy, row, t.claimed);
    FailRow(policy, taken, taken.attempts, t.failed)
  }

  ghost predicate Tries(policy: Policy, row: Row, tries: seq<Try>)
    decreases |tries|
  {
    tries != [] ==>
      && row.status != Processing && Eligible(row, tries[0].claimed) && tries[0].claimed <= tries[0].failed
      && Tries(policy, AfterTry(policy, row, tries[0]), tries[1..])
  }

  function AfterTries(policy: Policy, row: Row, tries: seq<Try>): Row
    decreases |tries|
  {
    if tries == [] then row else AfterTries(policy, AfterTry(policy, row, tries[0]), tries[1..])
  }

  /** The backoffs after attempts `from` to `end - 1`. */
  function TotalBackoff(policy: Policy, from: nat, end: nat): nat
    decreases end - from
  {
    if from >= end then 0 else Backoff(policy, from) + TotalBackoff(policy, from + 1, end)
  }

  lemma {:induction false} TriesFrom(policy: Policy, row: Row, tries: seq<Try>)
    requires Tries(policy, row, tries)
    requires row.status == Pending || row.status == FailedRetryable || row.status == FailedTerminal
    requires row.attempts <= MAX_ATTEMPTS && (row.status == FailedTerminal <==> row.attempts == MAX_ATTEMPTS)
    ensures row.attempts + |tries| <= MAX_ATTEMPTS
    ensures AfterTries(policy, row, tries).attempts == row.attempts + |tries|
    ensures AfterTries(policy, row, tries).status == FailedTerminal <==> row.attempts + |tries| == MAX_ATTEMPTS
    ensures forall i :: 0 <= i < |tries| ==>
              tries[i].claimed >= row.availableAt + TotalBackoff(policy, row.attempts + 1, row.attempts + 1 + i)
    decreases |tries|
  {
    if tries != [] {
      var next := AfterTry(policy, row, tries[0]);
      TriesFrom(policy, next, tries[1..]);
      forall i | 0 <= i < |tries|
        ensures tries[i].claimed >= row.availableAt + TotalBackoff(policy, row.attempts + 1, row.attempts + 1 + i)
      {
        if i > 0 {
          assert tries[i] == tries[1..][i - 1];
        }
      }
    }
  }

  /** A new row that always fails is claimed ten times and no more, and the i-th claim comes no
      sooner after the first than the backoffs in between. */
  lemma AlwaysFailing(policy: Policy, key: nat, payload: nat, start: int, tries: seq<Try>)
    requires Tries(policy, New(key, payload, start).row, tries)
    ensures |tries| <= MAX_ATTEMPTS
    ensures AfterTries(policy, New(key, payload, start).row, tries).status == FailedTerminal <==> |tries| == MAX_ATTEMPTS
    ensures forall i :: 0 < i < |tries| ==> tries[i].claimed >= tries[0].claimed + TotalBackoff(policy, 1, 1 + i)
  {
    var row := New(key, payload, start).row;
    TriesFrom(policy, row, tries);
    if tries != [] {
      var next := AfterTry(policy, row, tries[0]);
      TriesFrom(policy, next, tries[1..]);
      forall i | 0 < i < |tries|
        ensures tries[i].claimed >= tries[0].claimed + TotalBackoff(policy, 1, 1 + i)
      {
        assert tries[i] == tries[1..][i - 1];
      }
    }
  }

  /** Until it is terminal, a failed row becomes eligible again: the tenth claim does happen. */
  lemma FailedBecomesEligible(policy: Policy, row: Row, tries: seq<Try>, key: nat, payload: nat, start: int)
    requires row == AfterTries(policy, New(key, payload, start).row, tries)
    requires Tries(policy, New(key, payload, start).row, tries) && |tries| < MAX_ATTEMPTS
    ensures forall now :: now >= row.availableAt ==> Eligible(row, now)
    ensures forall now :: Eligible(row, now) ==> !Eligible(ClaimRow(policy, row, now), now + policy.lease)
  {
    AlwaysFailing(policy, key, payload, start, tries);
    StatusAfter(policy, New(key, payload, start).row, tries);
  }

  lemma {:induction false} StatusAfter(policy: Policy, row: Row, tries: seq<Try>)
    requires Tries(policy, row, tries)
    ensures tries != [] ==> AfterTries(policy, row, tries).status in {FailedRetryable, FailedTerminal}
    decreases |tries|
  {
    if tries != [] {
      StatusAfter(policy, AfterTry(policy, row, tries[0]), tries[1..]);
    }
  }

  /** The tenth claim of an always-failing outbox row comes at least 1022 seconds after the first,
      that of a local queue row at least 766. */
  lemma TenthClaim(tries: seq<Try>, key: nat, payload: nat, start: int)
    requires |tries| == 10
    ensures Tries(OUTBOX, New(key, payload, start).row, tries) ==> tries[9].claimed - tries[0].claimed >= 1022
    ensures Tries(LOCAL_QUEUE, New(key, payload, start).row, tries) ==> tries[9].claimed - tries[0].claimed >= 766
  {
    BackoffSums();
    if Tries(OUTBOX, New(key, payload, start).row, tries) {
      AlwaysFailing(OUTBOX, key, payload, start, tries);
    }
    if Tries(LOCAL_QUEUE, New(key, payload, start).row, tries) {
      AlwaysFailing(LOCAL_QUEUE, key, payload, start, tries);
    }
  }

  lemma BackoffSums()
    ensures TotalBackoff(OUTBOX, 1, 10) == 1022
    ensures TotalBackoff(LOCAL_QUEUE, 1, 10) == 766
  {
    Powers();
    SumFrom(OUTBOX);
    SumFrom(LOCAL_QUEUE);
  }

  lemma Powers()
    ensures Power2(1) == 2 && Power2(2) == 4 && Power2(3) == 8 && Power2(4) == 16 && Power2(5) == 32
    ensures Power2(6) == 64 && Power2(7) == 128 && Power2(8) == 256 && Power2(9) == 512
  {
    assert Power2(3) == 8;
    assert Power2(6) == 64;
  }

  lemma SumFrom(policy: Policy)
    ensures TotalBackoff(policy, 1, 10) ==
            Backoff(policy, 1) + Backoff(policy, 2) + Backoff(policy, 3) + Backoff(policy, 4) + Backoff(policy, 5)
            + Backoff(policy, 6) + Backoff(policy, 7) + Backoff(policy, 8) + Backoff(policy, 9)
  {
    assert TotalBackoff(policy, 8, 10) == Backoff(policy, 8) + Backoff(policy, 9);
    assert TotalBackoff(policy, 6, 10) == Backoff(policy, 6) + Backoff(policy, 7) + TotalBackoff(policy, 8, 10);
    assert TotalBackoff(policy, 4, 10) == Backoff(policy, 4) + Backoff(policy, 5) + TotalBackoff(policy, 6, 10);
    assert TotalBackoff(policy, 2, 10) == Backoff(policy, 2) + Backoff(policy, 3) + TotalBackoff(policy, 4, 10);
  }

  // ----- the table -----

  /** Of the first `scanned` rows, the first `limit` eligible ones were claimed, in order, and no
      other row was touched. */
  ghost predicate IsBatch(policy: Policy, before: seq<Row>, rows: seq<Row>, claimed: seq<nat>, scanned: nat, limit: nat, now: int) {
    && |rows| == |before| && |claimed| <= limit
    && (forall k :: 0 <= k < |claimed| ==> claimed[k] < scanned && claimed[k] < |rows| && Eligible(before[claimed[k]], now))
    && (forall k, m :: 0 <= k < m < |claimed| ==> claimed[k] < claimed[m])
    && (forall i :: 0 <= i < |rows| ==> rows[i] == if i in claimed then ClaimRow(policy, before[i], now) else before[i])
    && (forall i :: 0 <= i < scanned && i < |rows| && Eligible(before[i], now) && i !in claimed ==>
          |claimed| == limit && forall k :: 0 <= k < limit ==> claimed[k] < i)
  }

  lemma BatchStep(policy: Policy, before: seq<Row>, rows: seq<Row>, claimed: seq<nat>, i: nat, limit: nat, now: int)
    requires IsBatch(policy, before, rows, claimed, i, limit, now) && i < |rows|
    ensures
      if |claimed| < limit && Eligible(rows[i], now)
      then IsBatch(policy, before, rows[i := ClaimRow(policy, rows[i], now)], claimed + [i], i + 1, limit, now)
      else IsBatch(policy, before, rows, claimed, i + 1, limit, now)
  {
    hide Eligible;
    assert i !in claimed;
    if |claimed| < limit && Eligible(rows[i], now) {
      var rows', claimed' := rows[i := ClaimRow(policy, rows[i], now)], claimed + [i];
      forall j | 0 <= j < |rows|
        ensures j in claimed' <==> j in claimed || j == i
        ensures rows'[j] == if j in claimed' then ClaimRow(policy, before[j], now) else before[j]
      {
      }
    }
  }

  /** The rows of one table in `created_at` order. */
  class LeaseTable {
    const policy: Policy
    var rows: seq<Row>

    constructor (policy: Policy)
      ensures this.policy == policy && rows == []
    {
      this.policy := policy;
      rows := [];
    }

    /** Enqueueing a key again only replaces its payload: it neither duplicates the message nor
        revives, releases or reschedules it. */
    method Enqueue(key: nat, payload: nat, now: int) returns (index: nat)
      requires forall i, j :: 0 <= i < j < |rows| ==> rows[i].key != rows[j].key
      modifies this
      ensures forall i, j :: 0 <= i < j < |rows| ==> rows[i].key != rows[j].key
      ensures index < |rows| && rows[index].key == key && rows[index].payload == payload
      ensures index < |old(rows)| ==> rows == old(rows)[index := old(rows)[index].(payload := payload)]
      ensures index >= |old(rows)| ==> rows == old(rows) + [Row(key, payload, Pending, 0, now, None)]
    {
      index := 0;
      while index < |rows|
        invariant 0 <= index <= |rows| && rows == old(rows)
        invariant forall i :: 0 <= i < index ==> rows[i].key != key
      {
        if rows[index].key == key {
          rows := rows[index := rows[index].(payload := payload)];
          return;
        }
        index := index + 1;
      }
      rows := rows + [Row(key, payload, Pending, 0, now, None)];
    }

    /** Claims the first `limit` eligible rows in creation order, and touches no other. */
    method ClaimBatch(limit: nat, now: int) returns (claimed: seq<nat>)
      modifies this
      ensures IsBatch(policy, old(rows), rows, claimed, |rows|, limit, now)
    {
      claimed := [];
      var i := 0;
      while i < |rows|
        invariant 0 <= i <= |rows|
        invariant IsBatch(policy, old(rows), rows, claimed, i, limit, now)
      {
        BatchStep(policy, old(rows), rows, claimed, i, limit, now);
        hide IsBatch, Eligible;
        if |claimed| < limit && Eligible(rows[i], now) {
          rows := rows[i := rows[i].(status := Processing, attempts := rows[i].attempts + 1, lockedUntil := Some(now + policy.lease))];
          claimed := claimed + [i];
        }
        i := i + 1;
      }
    }

    method MarkDelivered(i: nat)
      requires i < |rows|
      modifies this
      ensures rows == old(rows)[i := DeliverRow(old(rows)[i])]
      ensures old(rows)[i].status == Processing ==> rows[i] == old(rows)[i].(status := Delivered, lockedUntil := None)
      ensures old(rows)[i].status != Processing ==> rows == old(rows)
    {
      if rows[i].status == Processing {
        rows := rows[i := rows[i].(status := Delivered, lockedUntil := None)];
      }
    }

    method MarkFailed(i: nat, claimedAttempts: nat, now: int)
      requires i < |rows|
      modifies this
      ensures rows == old(rows)[i := FailRow(policy, old(rows)[i], claimedAttempts, now)]
      ensures old(rows)[i].status == Processing ==>
                && rows[i].status == (if claimedAttempts >= 10 then FailedTerminal else FailedRetryable)
                && rows[i].lockedUntil == None && rows[i].attempts == old(rows)[i].attempts
      ensures old(rows)[i].status != Processing ==> rows == old(rows)
    {
      var terminal := claimedAttempts >= MAX_ATTEMPTS;
      if rows[i].status == Processing {
        var wait := Backoff(policy, rows[i].attempts);
        rows := rows[i := rows[i].(status := if terminal then FailedTerminal else FailedRetryable,
                                   lockedUntil := None, availableAt := now + wait)];
      }
    }
  }
}
