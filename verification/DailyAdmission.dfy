/** The daily receipt limits of one organization under concurrent filing transactions. Each counts the
    day's receipts between taking its advisory locks and inserting its own; the locks are named after
    the service's date, the receipts dated by the database's. */
module DailyAdmission {
  type SiteId = nat
  type ReceiptId = nat
  type CallId = nat
  type Day = nat

  /** A manual invoice counts for the others but is itself inserted without locks or limits. */
  datatype Filed = Filed(site: SiteId, day: Day, manual: bool)

  datatype Phase = Waiting | Locked | SiteCounted(sites: nat) | Counted(sites: nat, organizations: nat)

  /** A filing transaction: `lockDay` names its locks, `day` is its CURRENT_DATE. */
  datatype Call = Call(receipt: ReceiptId, site: SiteId, lockDay: Day, day: Day, siteLimit: nat, organizationLimit: nat, phase: Phase)

  datatype State = State(receipts: map<ReceiptId, Filed>, calls: map<CallId, Call>)

  datatype Action =
    | Begin(c: CallId, receipt: ReceiptId, site: SiteId, lockDay: Day, day: Day, siteLimit: nat, organizationLimit: nat)
    | TakeLocks(c: CallId)
    | CountSite(c: CallId)
    | CountOrganization(c: CallId)
    | File(c: CallId)
    | Abort(c: CallId)
    | Manual(receipt: ReceiptId, site: SiteId, day: Day)
    | Delete(receipt: ReceiptId)

  /** What a limit is about: one site, or the whole organization. */
  datatype Scope = Site(site: SiteId) | Organization

  predicate Covers(scope: Scope, site: SiteId) { scope.Site? ==> scope.site == site }

  function Since(receipts: map<ReceiptId, Filed>, scope: Scope, day: Day): set<ReceiptId> {
    set r | r in receipts && Covers(scope, receipts[r].site) && receipts[r].day >= day
  }

  /** The receipts of a day that a limit is meant to bound. */
  function OnDay(receipts: map<ReceiptId, Filed>, scope: Scope, day: Day): set<ReceiptId> {
    set r | r in receipts && Covers(scope, receipts[r].site) && receipts[r].day == day && !receipts[r].manual
  }

  predicate Holds(call: Call, lockDay: Day) { !call.phase.Waiting? && call.lockDay == lockDay }

  /** The organization's lock of that name is taken. The site's lock, taken after it, is then free. */
  predicate LockTaken(calls: map<CallId, Call>, lockDay: Day) { exists c :: c in calls && Holds(calls[c], lockDay) }

  function SetPhase(s: State, c: CallId, phase: Phase): State
    requires c in s.calls
  {
    s.(calls := s.calls[c := s.calls[c].(phase := phase)])
  }

  function End(s: State, c: CallId): State { s.(calls := s.calls - {c}) }

  predicate Admitted(call: Call) {
    call.phase.Counted? && call.phase.sites < call.siteLimit && call.phase.organizations < call.organizationLimit
  }

  function FileStep(s: State, c: CallId): State
    requires c in s.calls
  {
    var call := s.calls[c];
    if Admitted(call) && call.receipt !in s.receipts
    then End(s.(receipts := s.receipts[call.receipt := Filed(call.site, call.day, false)]), c)
    else if call.phase.Counted? then End(s, c)
    else s
  }

  function Next(s: State, a: Action): State {
    match a
    case Begin(c, receipt, site, lockDay, day, siteLimit, organizationLimit) =>
      if c in s.calls then s
      else s.(calls := s.calls[c := Call(receipt, site, lockDay, day, siteLimit, organizationLimit, Waiting)])
    case TakeLocks(c) =>
      if c in s.calls && s.calls[c].phase.Waiting? && !LockTaken(s.calls, s.calls[c].lockDay) then SetPhase(s, c, Locked) else s
    case CountSite(c) =>
      if c in s.calls && s.calls[c].phase.Locked?
      then SetPhase(s, c, SiteCounted(|Since(s.receipts, Site(s.calls[c].site), s.calls[c].day)|)) else s
    case CountOrganization(c) =>
      if c in s.calls && s.calls[c].phase.SiteCounted?
      then SetPhase(s, c, Counted(s.calls[c].phase.sites, |Since(s.receipts, Organization, s.calls[c].day)|)) else s
    case File(c) => if c in s.calls then FileStep(s, c) else s
    case Abort(c) => End(s, c)
    case Manual(receipt, site, day) =>
      if receipt in s.receipts then s else s.(receipts := s.receipts[receipt := Filed(site, day, true)])
    case Delete(receipt) => s.(receipts := s.receipts - {receipt})
  }

  function Run(s: State, actions: seq<Action>): State
    decreases |actions|
  {
    if actions == [] then s else Run(Next(s, actions[0]), actions[1..])
  }

  // ----- the bound -----

  function Limit(call: Call, scope: Scope): nat { if scope.Site? then call.siteLimit else call.organizationLimit }

  /** The call has read, for this scope, a count below `limit`. */
  predicate SawRoom(call: Call, scope: Scope, limit: nat) {
    match scope
    case Site(_) => (call.phase.SiteCounted? || call.phase.Counted?) && call.phase.sites < limit
    case Organization => call.phase.Counted? && call.phase.organizations < limit
  }

  predicate Concerns(call: Call, scope: Scope, day: Day) { Covers(scope, call.site) && call.day == day }

  function Pending(calls: map<CallId, Call>, scope: Scope, day: Day, limit: nat): set<CallId> {
    set c | c in calls && Concerns(calls[c], scope, day) && SawRoom(calls[c], scope, limit)
  }

  /** How many receipts a day can get under a limit when its calls use so many lock names. */
  function Bound(limit: nat, locks: nat): nat {
    if limit == 0 || locks == 0 then 0 else limit + locks - 1
  }

  ghost predicate LocksExclusive(calls: map<CallId, Call>) {
    forall b, c :: b in calls && c in calls && Holds(calls[b], calls[b].lockDay) && Holds(calls[c], calls[b].lockDay) ==> b == c
  }

  ghost predicate CallsOk(calls: map<CallId, Call>, scope: Scope, day: Day, limit: nat, locks: set<Day>) {
    forall c :: c in calls && Concerns(calls[c], scope, day) ==> calls[c].lockDay in locks && Limit(calls[c], scope) <= limit
  }

  ghost predicate Inv(s: State, scope: Scope, day: Day, limit: nat, locks: set<Day>) {
    && LocksExclusive(s.calls)
    && CallsOk(s.calls, scope, day, limit, locks)
    && |OnDay(s.receipts, scope, day)| + |Pending(s.calls, scope, day, limit)| <= Bound(limit, |locks|)
  }

  /** The calls that concern `scope` and `day` take locks named in `locks` and are given at most `limit`. */
  predicate Within(a: Action, scope: Scope, day: Day, limit: nat, locks: set<Day>) {
    a.Begin? && Covers(scope, a.site) && a.day == day ==>
      a.lockDay in locks && (if scope.Site? then a.siteLimit else a.organizationLimit) <= limit
  }

  ghost predicate AllWithin(actions: seq<Action>, scope: Scope, day: Day, limit: nat, locks: set<Day>) {
    forall a :: a in actions ==> Within(a, scope, day, limit, locks)
  }

  lemma {:induction false} Smaller<T>(a: set<T>, b: set<T>)
    requires a <= b
    ensures |a| <= |b|
  {
    assert b == a + (b - a);
  }

  /** Exclusive lock names bound the number of calls that hold them. */
  lemma {:induction false} OnePerLock(calls: map<CallId, Call>, holding: set<CallId>, locks: set<Day>)
    requires LocksExclusive(calls)
    requires forall c :: c in holding ==> c in calls && !calls[c].phase.Waiting? && calls[c].lockDay in locks
    ensures |holding| <= |locks|
    decreases |holding|
  {
    if holding != {} {
      var c :| c in holding;
      OnePerLock(calls, holding - {c}, locks - {calls[c].lockDay});
    }
  }

  lemma PendingHold(s: State, scope: Scope, day: Day, limit: nat, locks: set<Day>)
    requires LocksExclusive(s.calls) && CallsOk(s.calls, scope, day, limit, locks)
    ensures |Pending(s.calls, scope, day, limit)| <= |locks|
    ensures limit == 0 ==> Pending(s.calls, scope, day, limit) == {}
  {
    OnePerLock(s.calls, Pending(s.calls, scope, day, limit), locks);
  }

  /** A count that a call reads covers the day's receipts. */
  lemma CountCovers(receipts: map<ReceiptId, Filed>, scope: Scope, day: Day)
    ensures |OnDay(receipts, scope, day)| <= |Since(receipts, scope, day)|
  {
    Smaller(OnDay(receipts, scope, day), Since(receipts, scope, day));
  }

  lemma BeginInv(s: State, a: Action, scope: Scope, day: Day, limit: nat, locks: set<Day>)
    requires Inv(s, scope, day, limit, locks) && Within(a, scope, day, limit, locks) && (a.Begin? || a.TakeLocks?)
    ensures Inv(Next(s, a), scope, day, limit, locks)
  {
    hide OnDay, Since, FileStep;
    var t := Next(s, a);
    assert Pending(t.calls, scope, day, limit) == Pending(s.calls, scope, day, limit);
  }

  /** Calls may read counts, one at a time, as long as what a call reads covers the day's receipts. */
  lemma ReadInv(s: State, c: CallId, phase: Phase, scope: Scope, day: Day, limit: nat, locks: set<Day>)
    requires Inv(s, scope, day, limit, locks) && c in s.calls && !s.calls[c].phase.Waiting? && !phase.Waiting?
    requires
      var read := s.calls[c].(phase := phase);
      Concerns(read, scope, day) && SawRoom(read, scope, limit) && !SawRoom(s.calls[c], scope, limit) ==>
        |OnDay(s.receipts, scope, day)| < limit
    ensures Inv(SetPhase(s, c, phase), scope, day, limit, locks)
  {
    var t := SetPhase(s, c, phase);
    var before, after := Pending(s.calls, scope, day, limit), Pending(t.calls, scope, day, limit);
    PendingHold(t, scope, day, limit, locks);
    if c in after && c !in before {
      assert locks != {};
    } else {
      assert after <= before;
      Smaller(after, before);
    }
  }

  lemma CountInv(s: State, a: Action, scope: Scope, day: Day, limit: nat, locks: set<Day>)
    requires Inv(s, scope, day, limit, locks) && (a.CountSite? || a.CountOrganization?)
    ensures Inv(Next(s, a), scope, day, limit, locks)
  {
    CountCovers(s.receipts, scope, day);
    if a.c in s.calls && Next(s, a) != s {
      ReadInv(s, a.c, Next(s, a).calls[a.c].phase, scope, day, limit, locks);
    }
  }

  lemma EndInv(s: State, c: CallId, scope: Scope, day: Day, limit: nat, locks: set<Day>)
    requires Inv(s, scope, day, limit, locks)
    ensures Inv(End(s, c), scope, day, limit, locks)
  {
    Smaller(Pending(End(s, c).calls, scope, day, limit), Pending(s.calls, scope, day, limit));
  }

  lemma OneMore(receipts: map<ReceiptId, Filed>, call: Call, scope: Scope, day: Day)
    requires call.receipt !in receipts
    ensures
      var after := OnDay(receipts[call.receipt := Filed(call.site, call.day, false)], scope, day);
      after == OnDay(receipts, scope, day) + if Concerns(call, scope, day) then {call.receipt} else {}
  {
  }

  lemma Ended(calls: map<CallId, Call>, c: CallId, scope: Scope, day: Day, limit: nat)
    ensures Pending(calls - {c}, scope, day, limit) == Pending(calls, scope, day, limit) - {c}
  {
  }

  /** A call that files was pending, and no longer is. */
  lemma FileInv(s: State, c: CallId, scope: Scope, day: Day, limit: nat, locks: set<Day>)
    requires Inv(s, scope, day, limit, locks) && c in s.calls
    ensures Inv(FileStep(s, c), scope, day, limit, locks)
  {
    var call := s.calls[c];
    EndInv(s, c, scope, day, limit, locks);
    if Admitted(call) && call.receipt !in s.receipts {
      Ended(s.calls, c, scope, day, limit);
      OneMore(s.receipts, call, scope, day);
      assert Concerns(call, scope, day) ==> c in Pending(s.calls, scope, day, limit);
      assert call.receipt !in OnDay(s.receipts, scope, day);
      hide OnDay, Pending, LocksExclusive, CallsOk;
    }
  }

  lemma ReceiptInv(s: State, a: Action, scope: Scope, day: Day, limit: nat, locks: set<Day>)
    requires Inv(s, scope, day, limit, locks) && (a.Manual? || a.Delete?)
    ensures Inv(Next(s, a), scope, day, limit, locks)
  {
    Smaller(OnDay(Next(s, a).receipts, scope, day), OnDay(s.receipts, scope, day));
  }

  lemma NextInv(s: State, a: Action, scope: Scope, day: Day, limit: nat, locks: set<Day>)
    requires Inv(s, scope, day, limit, locks) && Within(a, scope, day, limit, locks)
    ensures Inv(Next(s, a), scope, day, limit, locks)
  {
    hide Inv, FileStep, LockTaken, Since;
    match a
    case Begin(_, _, _, _, _, _, _) => BeginInv(s, a, scope, day, limit, locks);
    case TakeLocks(_) => BeginInv(s, a, scope, day, limit, locks);
    case CountSite(_) => CountInv(s, a, scope, day, limit, locks);
    case CountOrganization(_) => CountInv(s, a, scope, day, limit, locks);
    case File(c) =>
      if c in s.calls {
        FileInv(s, c, scope, day, limit, locks);
      }
    case Abort(c) => EndInv(s, c, scope, day, limit, locks);
    case Manual(_, _, _) => ReceiptInv(s, a, scope, day, limit, locks);
    case Delete(_) => ReceiptInv(s, a, scope, day, limit, locks);
  }

  lemma {:induction false} RunInv(s: State, actions: seq<Action>, scope: Scope, day: Day, limit: nat, locks: set<Day>)
    requires Inv(s, scope, day, limit, locks) && AllWithin(actions, scope, day, limit, locks)
    ensures Inv(Run(s, actions), scope, day, limit, locks)
    decreases |actions|
  {
    hide Inv, Next, Within;
    if actions != [] {
      NextInv(s, actions[0], scope, day, limit, locks);
      RunInv(Next(s, actions[0]), actions[1..], scope, day, limit, locks);
    }
  }

  const NEW: State := State(map[], map[])

  /** In every run a day gets at most one receipt more than its limit for every lock name, beyond the
      first, that its transactions use. */
  lemma DailyBound(actions: seq<Action>, scope: Scope, day: Day, limit: nat, locks: set<Day>)
    requires AllWithin(actions, scope, day, limit, locks)
    ensures |OnDay(Run(NEW, actions).receipts, scope, day)| <= Bound(limit, |locks|)
  {
    RunInv(NEW, actions, scope, day, limit, locks);
  }

  // ----- the bound is reached -----

  lemma {:induction false} RunConcat(s: State, first: seq<Action>, second: seq<Action>)
    ensures Run(s, first + second) == Run(Run(s, first), second)
    decreases |first|
  {
    hide Next;
    if first == [] {
      assert first + second == second;
    } else {
      assert (first + second)[1..] == first[1..] + second;
      RunConcat(Next(s, first[0]), first[1..], second);
    }
  }

  /** A call up to the point where only its insert is left. */
  function UpToFile(c: CallId, receipt: ReceiptId, site: SiteId, lockDay: Day, day: Day, limit: nat): seq<Action> {
    [Begin(c, receipt, site, lockDay, day, limit, limit), TakeLocks(c), CountSite(c), CountOrganization(c)]
  }

  /** All receipts are of one site and one day. */
  predicate SameDay(receipts: map<ReceiptId, Filed>, site: SiteId, day: Day) {
    forall r :: r in receipts ==> receipts[r] == Filed(site, day, false)
  }

  lemma SameDayCounts(receipts: map<ReceiptId, Filed>, scope: Scope, site: SiteId, day: Day)
    requires SameDay(receipts, site, day) && Covers(scope, site)
    ensures Since(receipts, scope, day) == OnDay(receipts, scope, day) == receipts.Keys
  {
  }

  lemma {:induction false} CallCounts(receipts: map<ReceiptId, Filed>, calls: map<CallId, Call>, c: CallId, receipt: ReceiptId,
                                      site: SiteId, lockDay: Day, day: Day, limit: nat)
    requires c !in calls && !LockTaken(calls, lockDay) && SameDay(receipts, site, day)
    ensures Run(State(receipts, calls), UpToFile(c, receipt, site, lockDay, day, limit)) ==
            State(receipts, calls[c := Call(receipt, site, lockDay, day, limit, limit, Counted(|receipts|, |receipts|))])
  {
    SameDayCounts(receipts, Site(site), site, day);
    SameDayCounts(receipts, Organization, site, day);
    var s := State(receipts, calls);
    var call := Call(receipt, site, lockDay, day, limit, limit, Waiting);
    var begin, lock, count, more := Begin(c, receipt, site, lockDay, day, limit, limit), TakeLocks(c), CountSite(c), CountOrganization(c);
    var s1 := State(receipts, calls[c := call]);
    var s2, s3 := SetPhase(s1, c, Locked), SetPhase(s1, c, SiteCounted(|receipts|));
    assert Next(s, begin) == s1;
    assert !LockTaken(s1.calls, lockDay);
    assert Next(s1, lock) == s2;
    assert Next(s2, count) == s3;
    FourSteps(s, begin, lock, count, more);
  }

  lemma FourSteps(s: State, a: Action, b: Action, c: Action, d: Action)
    ensures Run(s, [a, b, c, d]) == Next(Next(Next(Next(s, a), b), c), d)
  {
    hide Next;
    assert [a, b, c, d][1..] == [b, c, d] && [b, c, d][1..] == [c, d] && [c, d][1..] == [d];
    assert Run(Next(Next(Next(s, a), b), c), [d]) == Next(Next(Next(Next(s, a), b), c), d);
    assert Run(Next(Next(s, a), b), [c, d]) == Run(Next(Next(Next(s, a), b), c), [d]);
    assert Run(Next(s, a), [b, c, d]) == Run(Next(Next(s, a), b), [c, d]);
  }

  function Filled(n: nat, site: SiteId, day: Day): (receipts: map<ReceiptId, Filed>)
    ensures SameDay(receipts, site, day) && |receipts| == n && forall r :: r in receipts ==> r < n
  {
    if n == 0 then map[] else Filled(n - 1, site, day)[n - 1 := Filed(site, day, false)]
  }

  lemma WithinConcat(first: seq<Action>, second: seq<Action>, scope: Scope, day: Day, limit: nat, locks: set<Day>)
    requires AllWithin(first, scope, day, limit, locks) && AllWithin(second, scope, day, limit, locks)
    ensures AllWithin(first + second, scope, day, limit, locks)
  {
  }

  lemma StepsWithin(c: CallId, receipt: ReceiptId, site: SiteId, lockDay: Day, scope: Scope, day: Day, limit: nat, locks: set<Day>)
    requires lockDay in locks
    ensures AllWithin(UpToFile(c, receipt, site, lockDay, day, limit), scope, day, limit, locks)
    ensures AllWithin([File(c)], scope, day, limit, locks)
  {
  }

  /** One call after the other fills the day to `n`. */
  lemma {:induction false} Fill(n: nat, scope: Scope, site: SiteId, day: Day, limit: nat, locks: set<Day>) returns (actions: seq<Action>)
    requires locks != {} && n < limit && Covers(scope, site)
    ensures AllWithin(actions, scope, day, limit, locks)
    ensures Run(NEW, actions) == State(Filled(n, site, day), map[])
  {
    hide Run, Next, UpToFile, Within, AllWithin, SameDay, LockTaken;
    if n == 0 {
      actions := [];
      Nothing(NEW, scope, day, limit, locks);
    } else {
      var before := Fill(n - 1, scope, site, day, limit, locks);
      var k :| k in locks;
      var receipts := Filled(n - 1, site, day);
      var steps := UpToFile(0, n - 1, site, k, day, limit);
      NobodyHolds(k);
      CallCounts(receipts, map[], 0, n - 1, site, k, day, limit);
      RunConcat(NEW, before, steps);
      actions := before + steps + [File(0)];
      RunConcat(NEW, before + steps, [File(0)]);
      FileNext(receipts, map[], 0, n - 1, site, k, day, limit, n - 1);
      StepsWithin(0, n - 1, site, k, scope, day, limit, locks);
      WithinConcat(before, steps, scope, day, limit, locks);
      WithinConcat(before + steps, [File(0)], scope, day, limit, locks);
    }
  }

  lemma Nothing(s: State, scope: Scope, day: Day, limit: nat, locks: set<Day>)
    ensures Run(s, []) == s && AllWithin([], scope, day, limit, locks)
  {
  }

  lemma NobodyHolds(lockDay: Day)
    ensures !LockTaken(map[], lockDay)
  {
  }

  lemma FileNext(receipts: map<ReceiptId, Filed>, calls: map<CallId, Call>, c: CallId, receipt: ReceiptId,
                 site: SiteId, lockDay: Day, day: Day, limit: nat, seen: nat)
    requires c !in calls && receipt !in receipts && seen < limit
    ensures Run(State(receipts, calls[c := Call(receipt, site, lockDay, day, limit, limit, Counted(seen, seen))]), [File(c)]) ==
            State(receipts[receipt := Filed(site, day, false)], calls)
  {
    var call := Call(receipt, site, lockDay, day, limit, limit, Counted(seen, seen));
    var s := State(receipts, calls[c := call]);
    assert calls[c := call] - {c} == calls;
    assert [File(c)][1..] == [];
    assert Run(s, [File(c)]) == Next(s, File(c));
  }

  /** One call for each lock name, all having read the same count. */
  function Ready(names: set<Day>, site: SiteId, day: Day, limit: nat, seen: nat): map<CallId, Call> {
    map k | k in names :: Call(limit + k, site, k, day, limit, limit, Counted(seen, seen))
  }

  lemma ReadyMore(names: set<Day>, k: Day, site: SiteId, day: Day, limit: nat, seen: nat)
    requires k !in names
    ensures
      var ready := Ready(names, site, day, limit, seen);
      && k !in ready && !LockTaken(ready, k)
      && Ready(names + {k}, site, day, limit, seen) == ready[k := Call(limit + k, site, k, day, limit, limit, Counted(seen, seen))]
  {
  }

  lemma {:induction false} AllCount(receipts: map<ReceiptId, Filed>, done: set<Day>, left: set<Day>,
                                    scope: Scope, site: SiteId, day: Day, limit: nat, locks: set<Day>) returns (actions: seq<Action>)
    requires SameDay(receipts, site, day) && done !! left && left <= locks
    ensures AllWithin(actions, scope, day, limit, locks)
    ensures Run(State(receipts, Ready(done, site, day, limit, |receipts|)), actions) ==
            State(receipts, Ready(done + left, site, day, limit, |receipts|))
    decreases |left|
  {
    hide Run, Next, UpToFile, Within, AllWithin, SameDay, LockTaken, Ready;
    var start := State(receipts, Ready(done, site, day, limit, |receipts|));
    if left == {} {
      actions := [];
      Nothing(start, scope, day, limit, locks);
      assert done + left == done;
    } else {
      var k :| k in left;
      var steps := UpToFile(k, limit + k, site, k, day, limit);
      ReadyMore(done, k, site, day, limit, |receipts|);
      CallCounts(receipts, start.calls, k, limit + k, site, k, day, limit);
      var more := AllCount(receipts, done + {k}, left - {k}, scope, site, day, limit, locks);
      assert done + {k} + (left - {k}) == done + left;
      actions := steps + more;
      RunConcat(start, steps, more);
      StepsWithin(k, limit + k, site, k, scope, day, limit, locks);
      WithinConcat(steps, more, scope, day, limit, locks);
    }
  }

  /** The receipt ids that the calls of `Ready` bring. */
  ghost predicate Unused(receipts: map<ReceiptId, Filed>, names: set<Day>, limit: nat) {
    forall k :: k in names ==> limit + k !in receipts
  }

  lemma FiledMore(receipts: map<ReceiptId, Filed>, names: set<Day>, k: Day, site: SiteId, day: Day, limit: nat)
    requires SameDay(receipts, site, day) && Unused(receipts, names, limit) && k in names
    ensures
      var more := receipts[limit + k := Filed(site, day, false)];
      && limit + k !in receipts && SameDay(more, site, day) && |more| == |receipts| + 1 && Unused(more, names - {k}, limit)
  {
  }

  lemma FileOne(receipts: map<ReceiptId, Filed>, rest: set<Day>, k: Day, site: SiteId, day: Day, limit: nat, seen: nat)
    requires k !in rest && limit + k !in receipts && seen < limit
    ensures Run(State(receipts, Ready(rest + {k}, site, day, limit, seen)), [File(k)]) ==
            State(receipts[limit + k := Filed(site, day, false)], Ready(rest, site, day, limit, seen))
  {
    hide *;
    ReadyMore(rest, k, site, day, limit, seen);
    FileNext(receipts, Ready(rest, site, day, limit, seen), k, limit + k, site, k, day, limit, seen);
  }

  lemma FilledUnused(site: SiteId, day: Day, names: set<Day>, limit: nat)
    requires limit > 0
    ensures Unused(Filled(limit - 1, site, day), names, limit)
  {
  }

  lemma {:induction false} AllFile(receipts: map<ReceiptId, Filed>, left: set<Day>, scope: Scope, site: SiteId, day: Day,
                                   limit: nat, seen: nat, locks: set<Day>) returns (actions: seq<Action>)
    requires SameDay(receipts, site, day) && seen < limit && left <= locks && Unused(receipts, left, limit)
    ensures AllWithin(actions, scope, day, limit, locks)
    ensures
      var end := Run(State(receipts, Ready(left, site, day, limit, seen)), actions);
      SameDay(end.receipts, site, day) && |end.receipts| == |receipts| + |left|
    decreases |left|
  {
    hide Run, Next, Within, AllWithin, SameDay, LockTaken, Ready, Unused;
    var start := State(receipts, Ready(left, site, day, limit, seen));
    if left == {} {
      actions := [];
      Nothing(start, scope, day, limit, locks);
    } else {
      var k :| k in left;
      var rest := left - {k};
      var filed := receipts[limit + k := Filed(site, day, false)];
      FiledMore(receipts, left, k, site, day, limit);
      FileOne(receipts, rest, k, site, day, limit, seen);
      assert rest + {k} == left;
      var more := AllFile(filed, rest, scope, site, day, limit, seen, locks);
      actions := [File(k)] + more;
      RunConcat(start, [File(k)], more);
      StepsWithin(k, limit + k, site, k, scope, day, limit, locks);
      WithinConcat([File(k)], more, scope, day, limit, locks);
    }
  }

  /** Some run reaches that bound: the day is filled to one below its limit, and then a call under
      each lock name counts before any of them files. */
  lemma BoundReached(scope: Scope, day: Day, limit: nat, locks: set<Day>) returns (actions: seq<Action>)
    requires limit > 0 && locks != {}
    ensures AllWithin(actions, scope, day, limit, locks)
    ensures |OnDay(Run(NEW, actions).receipts, scope, day)| == Bound(limit, |locks|)
  {
    hide Run, Next, Within, AllWithin, SameDay, Ready, Filled;
    var site := if scope.Site? then scope.site else 0;
    var receipts := Filled(limit - 1, site, day);
    var fill := Fill(limit - 1, scope, site, day, limit, locks);
    var count := AllCount(receipts, {}, locks, scope, site, day, limit, locks);
    FilledUnused(site, day, locks, limit);
    var file := AllFile(receipts, locks, scope, site, day, limit, limit - 1, locks);
    NobodyReady(site, day, limit, limit - 1);
    assert {} + locks == locks;
    actions := fill + count + file;
    RunConcat(NEW, fill + count, file);
    RunConcat(NEW, fill, count);
    WithinConcat(fill, count, scope, day, limit, locks);
    WithinConcat(fill + count, file, scope, day, limit, locks);
    SameDayCounts(Run(NEW, actions).receipts, scope, site, day);
  }

  lemma NobodyReady(site: SiteId, day: Day, limit: nat, seen: nat)
    ensures Ready({}, site, day, limit, seen) == map[]
  {
  }

  /** A daily limit holds in every run exactly if the day's transactions use at most one lock name: a
      transaction whose locks are named after another date than its own breaks it. */
  lemma LimitHoldsIff(scope: Scope, day: Day, limit: nat, locks: set<Day>)
    requires limit > 0
    ensures
      (forall actions :: AllWithin(actions, scope, day, limit, locks) ==>
         |OnDay(Run(NEW, actions).receipts, scope, day)| <= limit)
      <==> |locks| <= 1
  {
    hide Run, OnDay;
    if |locks| <= 1 {
      forall actions | AllWithin(actions, scope, day, limit, locks)
        ensures |OnDay(Run(NEW, actions).receipts, scope, day)| <= limit
      {
        DailyBound(actions, scope, day, limit, locks);
      }
    } else {
      var actions := BoundReached(scope, day, limit, locks);
    }
  }

  /** The locks of the calls that concern `scope` and `day` are named after a day `near` to it. */
  ghost predicate LocksNear(actions: seq<Action>, scope: Scope, day: Day, near: nat) {
    forall a :: a in actions && a.Begin? && Covers(scope, a.site) && a.day == day ==> a.lockDay - near <= day <= a.lockDay + near
  }

  /** A device's call reads the date of its locks before its transaction begins, a dashboard's after:
      with midnight in between, a day gets at most two receipts more than its limit, and with no such
      call none. */
  lemma MidnightBound(actions: seq<Action>, scope: Scope, day: Day, limit: nat)
    requires forall a :: a in actions && a.Begin? && Covers(scope, a.site) && a.day == day ==>
               (if scope.Site? then a.siteLimit else a.organizationLimit) <= limit
    ensures LocksNear(actions, scope, day, 1) ==> |OnDay(Run(NEW, actions).receipts, scope, day)| <= if limit == 0 then 0 else limit + 2
    ensures LocksNear(actions, scope, day, 0) ==> |OnDay(Run(NEW, actions).receipts, scope, day)| <= limit
  {
    hide Run, OnDay;
    if LocksNear(actions, scope, day, 1) {
      var locks := {day, day + 1} + if day > 0 then {day - 1} else {};
      DailyBound(actions, scope, day, limit, locks);
    }
    if LocksNear(actions, scope, day, 0) {
      DailyBound(actions, scope, day, limit, {day});
    }
  }
}
