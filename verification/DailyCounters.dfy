/** Firestore uploads, invoices and daily counters: every action is one transaction or one document
    write. Times are seconds; a day is the calendar day of a time. */
module DailyCounters {
  import opened Options
  import opened Sums

  type UploadId = nat
  type Day = int

  datatype UploadState = Uploading | Completed
  datatype Upload = Upload(uid: string, filename: string, state: UploadState, expiresAt: Option<int>)

  datatype InvoiceState = Processing | NeedsCorrection | ReadyToConfirm | Confirmed | Deleted
  datatype Invoice = Invoice(uid: string, state: InvoiceState, filename: string, createdAt: int, expiresAt: int,
                             version: nat, fields: Option<string>, object_: Option<string>)

  /** A counter document is named by a user, or by "global", and a day. */
  datatype CounterId = CounterId(name: string, day: Day)

  const GLOBAL := "global"
  const DAY_SECONDS: int := 86400
  const IST_OFFSET: int := 19800

  function DayOf(time: int): Day { (time + IST_OFFSET) / DAY_SECONDS }

  datatype Store = Store(uploads: map<UploadId, Upload>, invoices: map<UploadId, Invoice>, usage: map<CounterId, nat>)

  datatype Error = UploadNotFound | UploadExpired | DailyLimit | CapacityReached | InvoiceNotFound | VersionConflict
  datatype Result<T> = Ok(value: T) | Err(error: Error)

  function Count(usage: map<CounterId, nat>, name: string, day: Day): nat {
    if CounterId(name, day) in usage then usage[CounterId(name, day)] else 0
  }

  // ----- the operations -----

  /** What one finalize reads of the clock, in this order: the day for the user's counter, the day
      for the global one, and the times for the expiry test, the creation and the retention. */
  datatype Readings = Readings(userDay: Day, globalDay: Day, checked: int, created: int, retained: int)

  predicate InOrder(at: Readings) {
    at.userDay <= at.globalDay <= DayOf(at.checked) && at.checked <= at.created <= at.retained
  }

  /** Both counter documents of one finalize are read before either is written. */
  function Charge(usage: map<CounterId, nat>, uid: string, userDay: Day, globalDay: Day): map<CounterId, nat> {
    var users, all := Count(usage, uid, userDay), Count(usage, GLOBAL, globalDay);
    usage[CounterId(uid, userDay) := users + 1][CounterId(GLOBAL, globalDay) := all + 1]
  }

  function Finalize(s: Store, uid: string, id: UploadId, object_: string, dailyLimit: nat, retentionDays: nat, globalLimit: nat, at: Readings)
    : (Store, Result<Invoice>)
  {
    if id !in s.uploads || s.uploads[id].uid != uid then (s, Err(UploadNotFound))
    else if id in s.invoices then (s, Ok(s.invoices[id]))
    else if s.uploads[id].expiresAt.None? || s.uploads[id].expiresAt.value <= at.checked then (s, Err(UploadExpired))
    else if Count(s.usage, uid, at.userDay) >= dailyLimit then (s, Err(DailyLimit))
    else if Count(s.usage, GLOBAL, at.globalDay) >= globalLimit then (s, Err(CapacityReached))
    else
      var invoice := Invoice(uid, Processing, s.uploads[id].filename, at.created, at.retained + retentionDays * DAY_SECONDS, 1, None, Some(object_));
      (Store(s.uploads[id := s.uploads[id].(state := Completed)], s.invoices[id := invoice], Charge(s.usage, uid, at.userDay, at.globalDay)),
       Ok(invoice))
  }

  function Confirm(s: Store, uid: string, id: UploadId, version: nat, fields: string): (Store, Result<Invoice>) {
    if id !in s.invoices || s.invoices[id].uid != uid then (s, Err(InvoiceNotFound))
    else if s.invoices[id].version != version then (s, Err(VersionConflict))
    else
      var invoice := s.invoices[id].(fields := Some(fields), state := Confirmed, version := version + 1);
      (s.(invoices := s.invoices[id := invoice]), Ok(invoice))
  }

  function MarkOcr(s: Store, id: UploadId, fields: Option<string>): (Store, bool) {
    if id !in s.invoices || s.invoices[id].state !in {Processing, NeedsCorrection} then (s, false)
    else
      var state := if fields.Some? then ReadyToConfirm else NeedsCorrection;
      (s.(invoices := s.invoices[id := s.invoices[id].(fields := fields, state := state)]), true)
  }

  /** The document update of a deletion or an expiry, however long ago its guard was read. */
  function Delete(s: Store, id: UploadId): Store {
    if id in s.invoices
    then s.(invoices := s.invoices[id := s.invoices[id].(state := Deleted, fields := None, object_ := None)])
    else s
  }

  datatype Action =
    | DoReserve(id: UploadId, upload: Upload)
    | DoFinalize(uid: string, id: UploadId, object_: string, dailyLimit: nat, retentionDays: nat, at: Readings)
    | DoConfirm(uid: string, id: UploadId, version: nat, fields: string)
    | DoMarkOcr(id: UploadId, ocrFields: Option<string>)
    | DoDelete(id: UploadId)

  function Next(s: Store, globalLimit: nat, a: Action): Store {
    match a
    case DoReserve(id, upload) => s.(uploads := s.uploads[id := upload])
    case DoFinalize(uid, id, object_, dailyLimit, retentionDays, at) =>
      Finalize(s, uid, id, object_, dailyLimit, retentionDays, globalLimit, at).0
    case DoConfirm(uid, id, version, fields) => Confirm(s, uid, id, version, fields).0
    case DoMarkOcr(id, fields) => MarkOcr(s, id, fields).0
    case DoDelete(id) => Delete(s, id)
  }

  // ----- what was charged to which day -----

  /** The days an invoice was charged to: its user's counter on the one, the global one on the other. */
  datatype Charged = Charged(userDay: Day, globalDay: Day)

  type Charges = map<UploadId, Charged>

  /** The guards of a finalize: the upload is the user's, has no invoice yet and has not expired, and
      both counters are below their limits. */
  predicate WillCharge(s: Store, globalLimit: nat, a: Action) {
    && a.DoFinalize? && a.id in s.uploads && s.uploads[a.id].uid == a.uid && a.id !in s.invoices
    && s.uploads[a.id].expiresAt.Some? && s.uploads[a.id].expiresAt.value > a.at.checked
    && Count(s.usage, a.uid, a.at.userDay) < a.dailyLimit && Count(s.usage, GLOBAL, a.at.globalDay) < globalLimit
  }

  function NextCharges(charges: Charges, s: Store, globalLimit: nat, a: Action): Charges {
    if WillCharge(s, globalLimit, a) then charges[a.id := Charged(a.at.userDay, a.at.globalDay)] else charges
  }

  function Run(s: Store, charges: Charges, globalLimit: nat, actions: seq<Action>): (Store, Charges)
    decreases |actions|
  {
    if actions == [] then (s, charges)
    else Run(Next(s, globalLimit, actions[0]), NextCharges(charges, s, globalLimit, actions[0]), globalLimit, actions[1..])
  }

  predicate OwnedBy(invoices: map<UploadId, Invoice>, id: UploadId, uid: string) {
    id in invoices && invoices[id].uid == uid
  }

  /** The invoices the global counter of a day counts; those of a user called "global" count on
      both of their days. */
  function OnGlobal(invoices: map<UploadId, Invoice>, charges: Charges, day: Day): set<UploadId> {
    set id | id in charges && (charges[id].globalDay == day || (OwnedBy(invoices, id, GLOBAL) && charges[id].userDay == day))
  }

  function OnUser(invoices: map<UploadId, Invoice>, charges: Charges, uid: string, day: Day): set<UploadId> {
    set id | id in charges && charges[id].userDay == day && OwnedBy(invoices, id, uid)
  }

  ghost predicate CountersOk(invoices: map<UploadId, Invoice>, usage: map<CounterId, nat>, charges: Charges) {
    && charges.Keys == invoices.Keys
    && (forall day :: Count(usage, GLOBAL, day) == |OnGlobal(invoices, charges, day)|)
    && (forall uid, day :: uid != GLOBAL ==> Count(usage, uid, day) == |OnUser(invoices, charges, uid, day)|)
  }

  lemma SetGrows(a: set<UploadId>, b: set<UploadId>, id: UploadId)
    requires id !in a && b == a + {id}
    ensures |b| == |a| + 1
  {
  }

  lemma ChargeReads(usage: map<CounterId, nat>, uid: string, userDay: Day, globalDay: Day, name: string, d: Day)
    ensures Count(Charge(usage, uid, userDay, globalDay), name, d) ==
            Count(usage, name, d) + if (name == uid && d == userDay) || (name == GLOBAL && d == globalDay) then 1 else 0
  {
  }

  lemma OnGlobalGrows(invoices: map<UploadId, Invoice>, charges: Charges, id: UploadId, invoice: Invoice, charged: Charged, d: Day)
    requires id !in charges && id !in invoices
    ensures |OnGlobal(invoices[id := invoice], charges[id := charged], d)| ==
            |OnGlobal(invoices, charges, d)| + if charged.globalDay == d || (invoice.uid == GLOBAL && charged.userDay == d) then 1 else 0
  {
    var before, after := OnGlobal(invoices, charges, d), OnGlobal(invoices[id := invoice], charges[id := charged], d);
    var counts := charged.globalDay == d || (invoice.uid == GLOBAL && charged.userDay == d);
    forall i
      ensures i in after <==> i in before || (i == id && counts)
    {
    }
    if counts {
      SetGrows(before, after, id);
    } else {
      assert after == before;
    }
  }

  lemma OnUserGrows(invoices: map<UploadId, Invoice>, charges: Charges, id: UploadId, invoice: Invoice, charged: Charged, uid: string, d: Day)
    requires id !in charges && id !in invoices
    ensures |OnUser(invoices[id := invoice], charges[id := charged], uid, d)| ==
            |OnUser(invoices, charges, uid, d)| + if d == charged.userDay && uid == invoice.uid then 1 else 0
  {
    var before, after := OnUser(invoices, charges, uid, d), OnUser(invoices[id := invoice], charges[id := charged], uid, d);
    forall i
      ensures i in after <==> i in before || (i == id && d == charged.userDay && uid == invoice.uid)
    {
    }
    if d == charged.userDay && uid == invoice.uid {
      SetGrows(before, after, id);
    } else {
      assert after == before;
    }
  }

  lemma ChargeCounts(invoices: map<UploadId, Invoice>, usage: map<CounterId, nat>, charges: Charges,
                     id: UploadId, invoice: Invoice, charged: Charged)
    requires CountersOk(invoices, usage, charges) && id !in invoices
    ensures CountersOk(invoices[id := invoice], Charge(usage, invoice.uid, charged.userDay, charged.globalDay), charges[id := charged])
  {
    hide Count, OnGlobal, OnUser, Charge;
    var after := Charge(usage, invoice.uid, charged.userDay, charged.globalDay);
    forall d
      ensures Count(after, GLOBAL, d) == |OnGlobal(invoices[id := invoice], charges[id := charged], d)|
    {
      ChargeReads(usage, invoice.uid, charged.userDay, charged.globalDay, GLOBAL, d);
      OnGlobalGrows(invoices, charges, id, invoice, charged, d);
    }
    forall u, d | u != GLOBAL
      ensures Count(after, u, d) == |OnUser(invoices[id := invoice], charges[id := charged], u, d)|
    {
      ChargeReads(usage, invoice.uid, charged.userDay, charged.globalDay, u, d);
      OnUserGrows(invoices, charges, id, invoice, charged, u, d);
    }
  }

  lemma SameOwners(invoices: map<UploadId, Invoice>, others: map<UploadId, Invoice>, usage: map<CounterId, nat>, charges: Charges)
    requires CountersOk(invoices, usage, charges) && invoices.Keys == others.Keys
    requires forall id :: id in invoices ==> invoices[id].uid == others[id].uid
    ensures CountersOk(others, usage, charges)
  {
    forall day
      ensures OnGlobal(others, charges, day) == OnGlobal(invoices, charges, day)
    {
    }
    forall uid, day
      ensures OnUser(others, charges, uid, day) == OnUser(invoices, charges, uid, day)
    {
    }
  }

  lemma CountersStep(s: Store, charges: Charges, globalLimit: nat, a: Action)
    requires CountersOk(s.invoices, s.usage, charges)
    ensures CountersOk(Next(s, globalLimit, a).invoices, Next(s, globalLimit, a).usage, NextCharges(charges, s, globalLimit, a))
  {
    var t := Next(s, globalLimit, a);
    hide CountersOk;
    if WillCharge(s, globalLimit, a) {
      ChargeCounts(s.invoices, s.usage, charges, a.id, t.invoices[a.id], Charged(a.at.userDay, a.at.globalDay));
    } else {
      SameOwners(s.invoices, t.invoices, s.usage, charges);
    }
  }

  /** In every run of reservations, finalizes, confirmations, OCR updates and deletions, the global
      counter of a day is the number of invoices charged to it globally, and a user's counter is the
      number of the user's invoices charged to it, each by its own day. */
  lemma {:induction false} CountersAlwaysOk(s: Store, charges: Charges, globalLimit: nat, actions: seq<Action>)
    requires CountersOk(s.invoices, s.usage, charges)
    ensures
      var (t, after) := Run(s, charges, globalLimit, actions);
      CountersOk(t.invoices, t.usage, after)
    decreases |actions|
  {
    if actions != [] {
      CountersStep(s, charges, globalLimit, actions[0]);
      hide CountersOk, Next, NextCharges;
      CountersAlwaysOk(Next(s, globalLimit, actions[0]), NextCharges(charges, s, globalLimit, actions[0]), globalLimit, actions[1..]);
    }
  }

  const EMPTY := Store(map[], map[], map[])

  lemma EmptyOk()
    ensures CountersOk(map[], map[], map[])
  {
  }

  // ----- limits -----

  ghost predicate Within(usage: map<CounterId, nat>, name: string, limit: nat) {
    forall day :: Count(usage, name, day) <= limit
  }

  /** A finalize keeps the global counters within their limit, except for a user called "global"
      whose two days differ and whose first one is full. */
  lemma GlobalLimitIff(s: Store, globalLimit: nat, a: Action)
    requires Within(s.usage, GLOBAL, globalLimit) && a.DoFinalize?
    ensures Within(Next(s, globalLimit, a).usage, GLOBAL, globalLimit) <==>
            !(WillCharge(s, globalLimit, a) && a.uid == GLOBAL && a.at.userDay != a.at.globalDay
              && Count(s.usage, GLOBAL, a.at.userDay) == globalLimit)
  {
    var t := Next(s, globalLimit, a);
    if WillCharge(s, globalLimit, a) {
      assert t.usage == Charge(s.usage, a.uid, a.at.userDay, a.at.globalDay);
      forall day
        ensures Count(t.usage, GLOBAL, day) ==
                Count(s.usage, GLOBAL, day) + if (a.uid == GLOBAL && day == a.at.userDay) || day == a.at.globalDay then 1 else 0
      {
        ChargeReads(s.usage, a.uid, a.at.userDay, a.at.globalDay, GLOBAL, day);
      }
      hide Next, Count, Charge;
      assert Count(s.usage, GLOBAL, a.at.globalDay) < globalLimit;
      assert Count(t.usage, GLOBAL, a.at.userDay) <= globalLimit <==>
             !(a.uid == GLOBAL && a.at.userDay != a.at.globalDay && Count(s.usage, GLOBAL, a.at.userDay) == globalLimit);
    } else {
      assert t == s;
    }
  }

  /** So over runs the global counters stay within their limit, as long as no user called "global"
      with a higher limit finalizes across midnight. */
  lemma {:induction false} GlobalLimitHolds(s: Store, charges: Charges, globalLimit: nat, actions: seq<Action>)
    requires Within(s.usage, GLOBAL, globalLimit)
    requires forall i :: 0 <= i < |actions| && actions[i].DoFinalize? && actions[i].uid == GLOBAL ==>
               actions[i].at.userDay == actions[i].at.globalDay || actions[i].dailyLimit <= globalLimit
    ensures Within(Run(s, charges, globalLimit, actions).0.usage, GLOBAL, globalLimit)
    decreases |actions|
  {
    if actions != [] {
      if actions[0].DoFinalize? {
        GlobalLimitIff(s, globalLimit, actions[0]);
      }
      assert Within(Next(s, globalLimit, actions[0]).usage, GLOBAL, globalLimit);
      hide Next, NextCharges, Within, WillCharge;
      GlobalLimitHolds(Next(s, globalLimit, actions[0]), NextCharges(charges, s, globalLimit, actions[0]), globalLimit, actions[1..]);
    }
  }

  /** No user's counter ever exceeds the highest daily limit the user was given, whether on the free
      plan or a paid one. */
  lemma {:induction false} UserLimitHolds(s: Store, charges: Charges, globalLimit: nat, actions: seq<Action>, uid: string, limit: nat)
    requires uid != GLOBAL && Within(s.usage, uid, limit)
    requires forall i :: 0 <= i < |actions| && actions[i].DoFinalize? && actions[i].uid == uid ==> actions[i].dailyLimit <= limit
    ensures Within(Run(s, charges, globalLimit, actions).0.usage, uid, limit)
    decreases |actions|
  {
    if actions != [] {
      var t := Next(s, globalLimit, actions[0]);
      forall day
        ensures Count(t.usage, uid, day) <= limit
      {
        if actions[0].DoFinalize? {
          ChargeReads(s.usage, actions[0].uid, actions[0].at.userDay, actions[0].at.globalDay, uid, day);
        }
      }
      hide Next, NextCharges, Count;
      UserLimitHolds(t, NextCharges(charges, s, globalLimit, actions[0]), globalLimit, actions[1..], uid, limit);
    }
  }

  // ----- the counters of a day add up -----

  function UserNames(usage: map<CounterId, nat>, day: Day): set<string> {
    set k | k in usage && k.day == day && k.name != GLOBAL :: k.name
  }

  function UserCounts(usage: map<CounterId, nat>, day: Day): map<string, int> {
    map name | name in UserNames(usage, day) :: Count(usage, name, day)
  }

  ghost predicate AddsUp(usage: map<CounterId, nat>, day: Day) {
    Total(UserCounts(usage, day)) == Count(usage, GLOBAL, day)
  }

  ghost function OwnedCounts(invoices: map<UploadId, Invoice>, charges: Charges, names: set<string>, day: Day): map<string, int> {
    map name | name in names :: |OnUser(invoices, charges, name, day)|
  }

  ghost function OwnedByAny(invoices: map<UploadId, Invoice>, charges: Charges, names: set<string>, day: Day): set<UploadId> {
    set id | id in charges && charges[id].userDay == day && id in invoices && invoices[id].uid in names
  }

  lemma UnionSize(a: set<UploadId>, b: set<UploadId>)
    requires a !! b
    ensures |a + b| == |a| + |b|
  {
  }

  lemma OwnedSplit(invoices: map<UploadId, Invoice>, charges: Charges, names: set<string>, name: string, day: Day)
    requires name in names
    ensures
      var mine, others := OnUser(invoices, charges, name, day), OwnedByAny(invoices, charges, names - {name}, day);
      OwnedByAny(invoices, charges, names, day) == mine + others && mine !! others
  {
  }

  lemma CountsMinus(invoices: map<UploadId, Invoice>, charges: Charges, names: set<string>, name: string, day: Day)
    requires name in names
    ensures OwnedCounts(invoices, charges, names, day) - {name} == OwnedCounts(invoices, charges, names - {name}, day)
    ensures name in OwnedCounts(invoices, charges, names, day)
    ensures OwnedCounts(invoices, charges, names, day)[name] == |OnUser(invoices, charges, name, day)|
  {
  }

  lemma NoNames(invoices: map<UploadId, Invoice>, charges: Charges, day: Day)
    ensures OwnedCounts(invoices, charges, {}, day) == map[] && OwnedByAny(invoices, charges, {}, day) == {}
  {
  }

  lemma {:induction false} OwnedAddUp(invoices: map<UploadId, Invoice>, charges: Charges, names: set<string>, day: Day)
    ensures Total(OwnedCounts(invoices, charges, names, day)) == |OwnedByAny(invoices, charges, names, day)|
    decreases names
  {
    hide OwnedCounts, OwnedByAny, OnUser;
    if names == {} {
      NoNames(invoices, charges, day);
    } else {
      var name :| name in names;
      OwnedAddUp(invoices, charges, names - {name}, day);
      CountsMinus(invoices, charges, names, name, day);
      TotalSplit(OwnedCounts(invoices, charges, names, day), name);
      OwnedSplit(invoices, charges, names, name, day);
      UnionSize(OnUser(invoices, charges, name, day), OwnedByAny(invoices, charges, names - {name}, day));
    }
  }

  /** Charged to a user on the day, but globally on another one. */
  function Leaving(invoices: map<UploadId, Invoice>, charges: Charges, day: Day): set<UploadId> {
    set id | id in charges && charges[id].userDay == day && charges[id].globalDay != day && !OwnedBy(invoices, id, GLOBAL)
  }

  /** Counted by the global counter of the day, but by no user's. */
  function Arriving(invoices: map<UploadId, Invoice>, charges: Charges, day: Day): set<UploadId> {
    set id | id in OnGlobal(invoices, charges, day) && (charges[id].userDay != day || OwnedBy(invoices, id, GLOBAL))
  }

  function Staying(invoices: map<UploadId, Invoice>, charges: Charges, day: Day): set<UploadId> {
    set id | id in charges && charges[id].userDay == day && charges[id].globalDay == day && !OwnedBy(invoices, id, GLOBAL)
  }

  lemma OwnersHaveCounters(invoices: map<UploadId, Invoice>, usage: map<CounterId, nat>, charges: Charges, day: Day, id: UploadId)
    requires CountersOk(invoices, usage, charges)
    requires id in charges && charges[id].userDay == day && !OwnedBy(invoices, id, GLOBAL)
    ensures invoices[id].uid in UserNames(usage, day)
  {
    var uid := invoices[id].uid;
    assert id in OnUser(invoices, charges, uid, day);
    assert Count(usage, uid, day) == |OnUser(invoices, charges, uid, day)| > 0;
    assert CounterId(uid, day) in usage;
  }

  lemma UsersAreOwners(invoices: map<UploadId, Invoice>, usage: map<CounterId, nat>, charges: Charges, day: Day)
    requires CountersOk(invoices, usage, charges)
    ensures OwnedByAny(invoices, charges, UserNames(usage, day), day) == Leaving(invoices, charges, day) + Staying(invoices, charges, day)
  {
    var names := UserNames(usage, day);
    assert GLOBAL !in names;
    forall id | id in charges && charges[id].userDay == day && !OwnedBy(invoices, id, GLOBAL)
      ensures invoices[id].uid in names
    {
      OwnersHaveCounters(invoices, usage, charges, day, id);
    }
    assert charges.Keys == invoices.Keys;
    hide CountersOk, UserNames;
  }

  lemma GlobalSplits(invoices: map<UploadId, Invoice>, charges: Charges, day: Day)
    ensures OnGlobal(invoices, charges, day) == Arriving(invoices, charges, day) + Staying(invoices, charges, day)
  {
  }

  lemma CountsAreOwned(invoices: map<UploadId, Invoice>, usage: map<CounterId, nat>, charges: Charges, day: Day)
    requires CountersOk(invoices, usage, charges)
    ensures UserCounts(usage, day) == OwnedCounts(invoices, charges, UserNames(usage, day), day)
  {
    hide OnUser, OnGlobal;
  }

  /** The user counters of a day add up to the global one exactly if as many invoices were charged to
      a user on that day but globally on another as the other way round, those of a user called
      "global" counting as charged globally only. */
  lemma CountersAddUpIff(invoices: map<UploadId, Invoice>, usage: map<CounterId, nat>, charges: Charges, day: Day)
    requires CountersOk(invoices, usage, charges)
    ensures AddsUp(usage, day) <==> |Leaving(invoices, charges, day)| == |Arriving(invoices, charges, day)|
  {
    UsersAreOwners(invoices, usage, charges, day);
    GlobalSplits(invoices, charges, day);
    CountsAreOwned(invoices, usage, charges, day);
    hide UserCounts, OwnedCounts, OwnedByAny, Leaving, Arriving, Staying, OnGlobal, OnUser;
    OwnedAddUp(invoices, charges, UserNames(usage, day), day);
    UnionSize(Leaving(invoices, charges, day), Staying(invoices, charges, day));
    UnionSize(Arriving(invoices, charges, day), Staying(invoices, charges, day));
  }

  /** Both days agree and no user called "global" was charged. */
  predicate Straight(invoices: map<UploadId, Invoice>, charges: Charges, id: UploadId)
    requires id in charges
  {
    charges[id].userDay == charges[id].globalDay && !OwnedBy(invoices, id, GLOBAL)
  }

  lemma {:induction false} LatestOf(charges: Charges, ids: set<UploadId>) returns (last: UploadId)
    requires ids != {} && ids <= charges.Keys
    ensures last in ids && forall id :: id in ids ==> charges[id].globalDay <= charges[last].globalDay
    decreases ids
  {
    last :| last in ids;
    if ids != {last} {
      var other := LatestOf(charges, ids - {last});
      last := if charges[other].globalDay > charges[last].globalDay then other else last;
    }
  }

  /** The user counters add up to the global one on every day exactly if every invoice was charged to
      one day only, and to nobody called "global". */
  lemma AllDaysAddUpIff(invoices: map<UploadId, Invoice>, usage: map<CounterId, nat>, charges: Charges)
    requires CountersOk(invoices, usage, charges)
    requires forall id :: id in charges ==> charges[id].userDay <= charges[id].globalDay
    ensures (forall day :: AddsUp(usage, day)) <==> forall id :: id in charges ==> Straight(invoices, charges, id)
  {
    hide AddsUp;
    if forall id :: id in charges ==> Straight(invoices, charges, id) {
      forall day
        ensures AddsUp(usage, day)
      {
        CountersAddUpIff(invoices, usage, charges, day);
        assert Leaving(invoices, charges, day) == {} == Arriving(invoices, charges, day);
      }
    } else {
      var crooked := set id | id in charges && !Straight(invoices, charges, id);
      var any :| any in charges && !Straight(invoices, charges, any);
      assert any in crooked;
      var last := LatestOf(charges, crooked);
      var day := charges[last].globalDay;
      CountersAddUpIff(invoices, usage, charges, day);
      forall id | id in charges && charges[id].userDay == day
        ensures charges[id].globalDay == day
      {
        assert charges[id].globalDay != day ==> id in crooked;
      }
      assert Leaving(invoices, charges, day) == {};
      assert last in Arriving(invoices, charges, day);
    }
  }

  // ----- the day of creation -----

  function CreatedOn(invoices: map<UploadId, Invoice>, day: Day): set<UploadId> {
    set id | id in invoices && DayOf(invoices[id].createdAt) == day
  }

  ghost predicate CountsCreated(s: Store) {
    forall day :: Count(s.usage, GLOBAL, day) == |CreatedOn(s.invoices, day)|
  }

  lemma CreatedGrows(invoices: map<UploadId, Invoice>, id: UploadId, invoice: Invoice, day: Day)
    requires id !in invoices
    ensures |CreatedOn(invoices[id := invoice], day)| == |CreatedOn(invoices, day)| + if day == DayOf(invoice.createdAt) then 1 else 0
  {
    hide DayOf;
    var before, after := CreatedOn(invoices, day), CreatedOn(invoices[id := invoice], day);
    if day == DayOf(invoice.createdAt) {
      assert after == before + {id};
      SetGrows(before, after, id);
    } else {
      assert after == before;
    }
  }

  /** A finalize keeps each global counter equal to the number of invoices created that day exactly
      if it charges nothing, or its global counter is that of the day it creates the invoice on and,
      for a user called "global", so is the user's. */
  lemma CreatedTodayIff(s: Store, globalLimit: nat, a: Action)
    requires CountsCreated(s) && a.DoFinalize?
    ensures CountsCreated(Next(s, globalLimit, a)) <==>
            (WillCharge(s, globalLimit, a) ==>
               DayOf(a.at.created) == a.at.globalDay && (a.uid == GLOBAL ==> a.at.userDay == a.at.globalDay))
  {
    var t := Next(s, globalLimit, a);
    if WillCharge(s, globalLimit, a) {
      var invoice := t.invoices[a.id];
      assert invoice.createdAt == a.at.created && t.invoices == s.invoices[a.id := invoice];
      assert t.usage == Charge(s.usage, a.uid, a.at.userDay, a.at.globalDay);
      hide Next, CreatedOn, Count, Charge, DayOf, WillCharge;
      forall day
        ensures |CreatedOn(t.invoices, day)| == |CreatedOn(s.invoices, day)| + if day == DayOf(a.at.created) then 1 else 0
        ensures Count(t.usage, GLOBAL, day) ==
                Count(s.usage, GLOBAL, day) + if (a.uid == GLOBAL && day == a.at.userDay) || day == a.at.globalDay then 1 else 0
      {
        CreatedGrows(s.invoices, a.id, invoice, day);
        ChargeReads(s.usage, a.uid, a.at.userDay, a.at.globalDay, GLOBAL, day);
      }
      assert Count(t.usage, GLOBAL, a.at.globalDay) == Count(s.usage, GLOBAL, a.at.globalDay) + 1;
      assert a.uid == GLOBAL ==> Count(t.usage, GLOBAL, a.at.userDay) == Count(s.usage, GLOBAL, a.at.userDay) + 1;
    } else {
      assert t == s;
    }
  }

  /** The clock was read in order for every invoice. */
  ghost predicate ChargedInOrder(invoices: map<UploadId, Invoice>, charges: Charges) {
    && charges.Keys == invoices.Keys
    && forall id :: id in charges ==> charges[id].userDay <= charges[id].globalDay <= DayOf(invoices[id].createdAt)
  }

  /** Charged globally to the day of creation, and nowhere else globally. */
  predicate OnItsDay(invoices: map<UploadId, Invoice>, charges: Charges, id: UploadId)
    requires id in charges && id in invoices
  {
    charges[id].globalDay == DayOf(invoices[id].createdAt) && (invoices[id].uid == GLOBAL ==> charges[id].userDay == charges[id].globalDay)
  }

  function FirstDay(invoices: map<UploadId, Invoice>, charges: Charges, id: UploadId): Day
    requires id in charges && id in invoices
  {
    if invoices[id].uid == GLOBAL then charges[id].userDay else charges[id].globalDay
  }

  lemma {:induction false} EarliestOf(invoices: map<UploadId, Invoice>, charges: Charges, ids: set<UploadId>) returns (first: UploadId)
    requires ids != {} && ids <= charges.Keys && ids <= invoices.Keys
    ensures first in ids && forall id :: id in ids ==> FirstDay(invoices, charges, first) <= FirstDay(invoices, charges, id)
    decreases ids
  {
    first :| first in ids;
    if ids != {first} {
      var other := EarliestOf(invoices, charges, ids - {first});
      first := if FirstDay(invoices, charges, other) < FirstDay(invoices, charges, first) then other else first;
    }
  }

  lemma SmallerSet(a: set<UploadId>, b: set<UploadId>, id: UploadId)
    requires a <= b && id in b && id !in a
    ensures |a| < |b|
  {
    assert b == a + (b - a) && id in b - a;
    UnionSize(a, b - a);
  }

  /** All global counters equal the numbers of invoices created on their days exactly if every
      invoice is charged to its own day. */
  lemma CountsCreatedIff(s: Store, charges: Charges)
    requires CountersOk(s.invoices, s.usage, charges) && ChargedInOrder(s.invoices, charges)
    ensures CountsCreated(s) <==> forall id :: id in charges ==> OnItsDay(s.invoices, charges, id)
  {
    hide DayOf, Count;
    if forall id :: id in charges ==> OnItsDay(s.invoices, charges, id) {
      forall day
        ensures OnGlobal(s.invoices, charges, day) == CreatedOn(s.invoices, day)
      {
      }
    } else {
      var off := set id | id in charges && !OnItsDay(s.invoices, charges, id);
      var any :| any in charges && !OnItsDay(s.invoices, charges, any);
      assert any in off;
      var first := EarliestOf(s.invoices, charges, off);
      var day := FirstDay(s.invoices, charges, first);
      forall id | id in CreatedOn(s.invoices, day)
        ensures id in OnGlobal(s.invoices, charges, day)
      {
        assert id in off ==> day <= FirstDay(s.invoices, charges, id);
      }
      SmallerSet(CreatedOn(s.invoices, day), OnGlobal(s.invoices, charges, day), first);
    }
  }

  /** Over whole runs whose clock never goes back: the global counters are the numbers of invoices
      created on their days exactly if every invoice of the run was charged to its own day. */
  lemma {:induction false} CreatedRunIff(globalLimit: nat, actions: seq<Action>)
    requires forall i :: 0 <= i < |actions| && actions[i].DoFinalize? ==> InOrder(actions[i].at)
    ensures
      var (t, charges) := Run(EMPTY, map[], globalLimit, actions);
      && charges.Keys == t.invoices.Keys
      && (CountsCreated(t) <==> forall id :: id in charges ==> OnItsDay(t.invoices, charges, id))
      && ((forall day :: AddsUp(t.usage, day)) <==> forall id :: id in charges ==> Straight(t.invoices, charges, id))
  {
    EmptyOk();
    CountersAlwaysOk(EMPTY, map[], globalLimit, actions);
    OrderKept(EMPTY, map[], globalLimit, actions);
    var (t, charges) := Run(EMPTY, map[], globalLimit, actions);
    CountsCreatedIff(t, charges);
    AllDaysAddUpIff(t.invoices, t.usage, charges);
  }

  lemma DaysGrow(a: int, b: int)
    requires a <= b
    ensures DayOf(a) <= DayOf(b)
  {
  }

  lemma OrderStep(s: Store, charges: Charges, globalLimit: nat, a: Action)
    requires ChargedInOrder(s.invoices, charges) && (a.DoFinalize? ==> InOrder(a.at))
    ensures ChargedInOrder(Next(s, globalLimit, a).invoices, NextCharges(charges, s, globalLimit, a))
  {
    hide DayOf, Count, Charge;
    if WillCharge(s, globalLimit, a) {
      DaysGrow(a.at.checked, a.at.created);
    } else {
      var t := Next(s, globalLimit, a);
      assert t.invoices.Keys == s.invoices.Keys && forall id :: id in s.invoices ==> t.invoices[id].createdAt == s.invoices[id].createdAt;
    }
  }

  lemma {:induction false} OrderKept(s: Store, charges: Charges, globalLimit: nat, actions: seq<Action>)
    requires ChargedInOrder(s.invoices, charges)
    requires forall i :: 0 <= i < |actions| && actions[i].DoFinalize? ==> InOrder(actions[i].at)
    ensures
      var (t, after) := Run(s, charges, globalLimit, actions);
      ChargedInOrder(t.invoices, after)
    decreases |actions|
  {
    if actions != [] {
      OrderStep(s, charges, globalLimit, actions[0]);
      hide Next, NextCharges, ChargedInOrder;
      OrderKept(Next(s, globalLimit, actions[0]), NextCharges(charges, s, globalLimit, actions[0]), globalLimit, actions[1..]);
    }
  }

  // ----- around midnight -----

  /** 2:00 on day 2, for the two runs below. */
  const NIGHT: int := 160200

  function MidnightRun(at: Readings): seq<Action> {
    [DoReserve(0, Upload("ann", "a.jpg", Uploading, Some(NIGHT + 3600))), DoFinalize("ann", 0, "a", 3, 7, at)]
  }

  lemma MidnightRunIs(at: Readings)
    requires at.checked <= NIGHT
    ensures
      var (t, charges) := Run(EMPTY, map[], 100, MidnightRun(at));
      && charges == map[0 := Charged(at.userDay, at.globalDay)]
      && 0 in t.invoices && t.invoices.Keys == {0} && t.invoices[0].uid == "ann" && t.invoices[0].createdAt == at.created
      && t.usage == map[CounterId("ann", at.userDay) := 1, CounterId(GLOBAL, at.globalDay) := 1]
  {
    var actions := MidnightRun(at);
    assert actions[1..] == [actions[1]] && actions[1..][1..] == [];
    var s1 := Next(EMPTY, 100, actions[0]);
    assert NextCharges(map[], EMPTY, 100, actions[0]) == map[];
    assert "ann" != GLOBAL by { assert |"ann"| == 3 && |GLOBAL| == 6; }
    assert Run(EMPTY, map[], 100, actions) == Run(s1, map[], 100, actions[1..]);
    var s2 := Next(s1, 100, actions[1]);
    assert WillCharge(s1, 100, actions[1]);
    assert Run(s1, map[], 100, actions[1..]) == Run(s2, map[0 := Charged(at.userDay, at.globalDay)], 100, actions[1..][1..]);
  }

  /** If midnight falls between the two readings of the day, the user's counter of the first day and
      the global one of the second get the charge, and neither day adds up. */
  lemma {:induction false} MidnightSplitsCharge()
    ensures
      var at := Readings(1, 2, NIGHT, NIGHT, NIGHT);
      var t := Run(EMPTY, map[], 100, MidnightRun(at)).0;
      InOrder(at) && Count(t.usage, "ann", 1) == 1 && Count(t.usage, GLOBAL, 1) == 0 && Count(t.usage, GLOBAL, 2) == 1 && !AddsUp(t.usage, 1)
  {
    var at := Readings(1, 2, NIGHT, NIGHT, NIGHT);
    MidnightRunIs(at);
    var (t, charges) := Run(EMPTY, map[], 100, MidnightRun(at));
    assert "ann" != GLOBAL by { assert |"ann"| == 3 && |GLOBAL| == 6; }
    EmptyOk();
    CountersAlwaysOk(EMPTY, map[], 100, MidnightRun(at));
    CountersAddUpIff(t.invoices, t.usage, charges, 1);
    assert 0 in Leaving(t.invoices, charges, 1) && Arriving(t.invoices, charges, 1) == {};
  }

  /** If it falls after both, the invoice is counted on the day before the one it is created on. */
  lemma {:induction false} MidnightBeforeCreation()
    ensures
      var at := Readings(1, 1, NIGHT, NIGHT, NIGHT);
      var t := Run(EMPTY, map[], 100, MidnightRun(at)).0;
      InOrder(at) && !CountsCreated(t)
  {
    var at := Readings(1, 1, NIGHT, NIGHT, NIGHT);
    MidnightRunIs(at);
    var (t, charges) := Run(EMPTY, map[], 100, MidnightRun(at));
    assert "ann" != GLOBAL by { assert |"ann"| == 3 && |GLOBAL| == 6; }
    assert Count(t.usage, GLOBAL, 1) == 1;
    assert CreatedOn(t.invoices, 1) == {};
  }

  // ----- what each operation answers and leaves -----

  /** A day runs from midnight to midnight of Indian Standard Time, five and a half hours ahead of UTC. */
  lemma DayOfIff(time: int, day: Day)
    ensures DayOf(time) == day <==> day * 86400 <= time + 19800 < (day + 1) * 86400
  {
  }

  /** A finalize answers by the first test that fails; only the last case writes anything. */
  lemma FinalizeCases(s: Store, uid: string, id: UploadId, object_: string, dailyLimit: nat, retentionDays: nat, globalLimit: nat, at: Readings)
    ensures
      var (t, result) := Finalize(s, uid, id, object_, dailyLimit, retentionDays, globalLimit, at);
      var users, all := Count(s.usage, uid, at.userDay), Count(s.usage, "global", at.globalDay);
      var owned := id in s.uploads && s.uploads[id].uid == uid;
      var unfiled := owned && id !in s.invoices;
      var current := unfiled && s.uploads[id].expiresAt.Some? && s.uploads[id].expiresAt.value > at.checked;
      && (result == Err(UploadNotFound) <==> !owned)
      && (owned && !unfiled ==> result == Ok(s.invoices[id]))
      && (result == Err(UploadExpired) <==> unfiled && !current)
      && (result == Err(DailyLimit) <==> current && users >= dailyLimit)
      && (result == Err(CapacityReached) <==> current && users < dailyLimit && all >= globalLimit)
      && (result.Ok? <==> (owned && !unfiled) || (current && users < dailyLimit && all < globalLimit))
      && (!result.Ok? || id in s.invoices ==> t == s)
      && (result.Ok? && unfiled ==>
            && result.value == Invoice(uid, Processing, s.uploads[id].filename, at.created, at.retained + retentionDays * 86400, 1, None, Some(object_))
            && t.invoices == s.invoices[id := result.value]
            && t.uploads == s.uploads[id := s.uploads[id].(state := Completed)]
            && Count(t.usage, uid, at.userDay) == users + 1
            && Count(t.usage, "global", at.globalDay) == all + 1
            && forall name, day :: name != uid && name != "global" ==> Count(t.usage, name, day) == Count(s.usage, name, day))
  {
  }

  /** A confirmation is accepted from the owner for the current version, whatever the state. */
  lemma ConfirmCases(s: Store, uid: string, id: UploadId, version: nat, fields: string)
    ensures
      var (t, result) := Confirm(s, uid, id, version, fields);
      var owned := id in s.invoices && s.invoices[id].uid == uid;
      && (result == Err(InvoiceNotFound) <==> !owned)
      && (result == Err(VersionConflict) <==> owned && s.invoices[id].version != version)
      && (result.Ok? <==> owned && s.invoices[id].version == version)
      && (!result.Ok? ==> t == s)
      && (result.Ok? ==>
            && result.value == s.invoices[id].(fields := Some(fields), state := Confirmed, version := version + 1)
            && t == s.(invoices := s.invoices[id := result.value]))
  {
  }

  /** OCR results land on a PROCESSING or NEEDS_CORRECTION invoice only; with fields it is ready to
      confirm, without them it needs correction. */
  lemma OcrCases(s: Store, id: UploadId, fields: Option<string>)
    ensures
      var (t, changed) := MarkOcr(s, id, fields);
      && (changed <==> id in s.invoices && (s.invoices[id].state == Processing || s.invoices[id].state == NeedsCorrection))
      && (!changed ==> t == s)
      && (changed ==>
            && t.uploads == s.uploads && t.usage == s.usage && t.invoices.Keys == s.invoices.Keys
            && (forall other :: other in s.invoices && other != id ==> t.invoices[other] == s.invoices[other])
            && (t.invoices[id].state == ReadyToConfirm <==> fields.Some?)
            && (t.invoices[id].state == NeedsCorrection <==> fields.None?)
            && t.invoices[id].fields == fields
            && t.invoices[id] == s.invoices[id].(state := t.invoices[id].state, fields := fields))
  {
  }

  /** A deletion drops the fields and the object and keeps the rest of the invoice. */
  lemma DeleteCases(s: Store, id: UploadId)
    ensures id !in s.invoices ==> Delete(s, id) == s
    ensures id in s.invoices ==>
              var x := s.invoices[id];
              Delete(s, id) ==
              s.(invoices := s.invoices[id := Invoice(x.uid, Deleted, x.filename, x.createdAt, x.expiresAt, x.version, None, None)])
  {
  }

  // ----- repetition, confirmation and deletion -----

  /** Once a finalize has succeeded, repeating it, on whatever day and under whatever limits,
      returns the same invoice and changes nothing. */
  lemma FinalizeAgain(s: Store, globalLimit: nat, a: Action, later: Action, laterLimit: nat)
    requires a.DoFinalize? && later.DoFinalize? && later.id == a.id && later.uid == a.uid
    requires Finalize(s, a.uid, a.id, a.object_, a.dailyLimit, a.retentionDays, globalLimit, a.at).1.Ok?
    ensures
      var (t, result) := Finalize(s, a.uid, a.id, a.object_, a.dailyLimit, a.retentionDays, globalLimit, a.at);
      Finalize(t, later.uid, later.id, later.object_, later.dailyLimit, later.retentionDays, laterLimit, later.at) == (t, result)
  {
  }

  predicate ConfirmAccepted(s: Store, a: Action) {
    a.DoConfirm? && a.id in s.invoices && s.invoices[a.id].uid == a.uid && s.invoices[a.id].version == a.version
  }

  function Confirmations(s: Store, globalLimit: nat, actions: seq<Action>, id: UploadId): nat
    decreases |actions|
  {
    if actions == [] then 0
    else (if ConfirmAccepted(s, actions[0]) && actions[0].id == id then 1 else 0) + Confirmations(Next(s, globalLimit, actions[0]), globalLimit, actions[1..], id)
  }

  lemma VersionStep(s: Store, globalLimit: nat, a: Action, id: UploadId)
    requires id in s.invoices
    ensures
      var t := Next(s, globalLimit, a);
      && id in t.invoices && t.invoices[id].uid == s.invoices[id].uid && t.invoices[id].createdAt == s.invoices[id].createdAt
      && t.invoices[id].version == s.invoices[id].version + if ConfirmAccepted(s, a) && a.id == id then 1 else 0
  {
  }

  /** An invoice is never lost or handed to another user, and its version counts its accepted
      confirmations, so of two that name the same version at most one is accepted. */
  lemma {:induction false} VersionCountsConfirmations(s: Store, globalLimit: nat, actions: seq<Action>, charges: Charges, id: UploadId)
    requires id in s.invoices
    ensures
      var t := Run(s, charges, globalLimit, actions).0;
      && id in t.invoices && t.invoices[id].uid == s.invoices[id].uid && t.invoices[id].createdAt == s.invoices[id].createdAt
      && t.invoices[id].version == s.invoices[id].version + Confirmations(s, globalLimit, actions, id)
    decreases |actions|
  {
    if actions != [] {
      VersionStep(s, globalLimit, actions[0], id);
      hide Next, NextCharges;
      var t := Next(s, globalLimit, actions[0]);
      VersionCountsConfirmations(t, globalLimit, actions[1..], NextCharges(charges, s, globalLimit, actions[0]), id);
    }
  }

  /** A confirmed invoice stays exactly as it is, late OCR results included, unless its owner
      confirms it again or it is deleted. A deleted one stays so unless it is confirmed: the
      confirmation does not test for deletion. */
  lemma SettledStaysIff(s: Store, globalLimit: nat, a: Action, id: UploadId)
    requires id in s.invoices && s.invoices[id].state in {Confirmed, Deleted}
    ensures
      var t := Next(s, globalLimit, a);
      && id in t.invoices
      && (t.invoices[id].version == s.invoices[id].version <==> !(ConfirmAccepted(s, a) && a.id == id))
      && (!(ConfirmAccepted(s, a) && a.id == id) && !(a.DoDelete? && a.id == id) ==> t.invoices[id] == s.invoices[id])
      && (s.invoices[id].state == Deleted ==> (t.invoices[id].state == Deleted <==> !(ConfirmAccepted(s, a) && a.id == id)))
  {
  }

  // ----- the store in place -----

  class FirestoreStore {
    var uploads: map<UploadId, Upload>
    var invoices: map<UploadId, Invoice>
    var usage: map<CounterId, nat>
    ghost var charges: Charges
    const globalLimit: nat

    function Contents(): Store
      reads this
    {
      Store(uploads, invoices, usage)
    }

    ghost predicate Valid()
      reads this
    {
      CountersOk(invoices, usage, charges)
    }

    constructor (globalLimit: nat)
      ensures Valid() && Contents() == Store(map[], map[], map[]) && this.globalLimit == globalLimit
    {
      uploads, invoices, usage, charges := map[], map[], map[], map[];
      this.globalLimit := globalLimit;
      new;
      EmptyOk();
    }

    method FinalizeUpload(uid: string, id: UploadId, object_: string, dailyLimit: nat, retentionDays: nat, at: Readings)
      returns (result: Result<Invoice>)
      requires Valid()
      modifies this
      ensures Valid()
      ensures (Contents(), result) == Finalize(old(Contents()), uid, id, object_, dailyLimit, retentionDays, globalLimit, at)
      ensures Within(old(usage), uid, dailyLimit) && uid != GLOBAL ==> Within(usage, uid, dailyLimit)
    {
      UserWithin(usage, uid, at.userDay, at.globalDay, dailyLimit);
      hide CountersOk, Count;
      if id !in uploads || uploads[id].uid != uid {
        return Err(UploadNotFound);
      }
      if id in invoices {
        return Ok(invoices[id]);
      }
      if uploads[id].expiresAt.None? || uploads[id].expiresAt.value <= at.checked {
        return Err(UploadExpired);
      }
      var userCount := Count(usage, uid, at.userDay);
      var globalCount := Count(usage, GLOBAL, at.globalDay);
      if userCount >= dailyLimit {
        return Err(DailyLimit);
      }
      if globalCount >= globalLimit {
        return Err(CapacityReached);
      }
      var document := Invoice(uid, Processing, uploads[id].filename, at.created, at.retained + retentionDays * DAY_SECONDS, 1, None, Some(object_));
      ChargeCounts(invoices, usage, charges, id, document, Charged(at.userDay, at.globalDay));
      charges := charges[id := Charged(at.userDay, at.globalDay)];
      invoices := invoices[id := document];
      usage := usage[CounterId(uid, at.userDay) := userCount + 1];
      usage := usage[CounterId(GLOBAL, at.globalDay) := globalCount + 1];
      uploads := uploads[id := uploads[id].(state := Completed)];
      result := Ok(document);
    }

    lemma UserWithin(usage: map<CounterId, nat>, uid: string, userDay: Day, globalDay: Day, limit: nat)
      ensures Within(usage, uid, limit) && uid != GLOBAL && Count(usage, uid, userDay) < limit ==>
                Within(Charge(usage, uid, userDay, globalDay), uid, limit)
    {
      forall day
        ensures Count(Charge(usage, uid, userDay, globalDay), uid, day) ==
                Count(usage, uid, day) + if day == userDay || (uid == GLOBAL && day == globalDay) then 1 else 0
      {
        ChargeReads(usage, uid, userDay, globalDay, uid, day);
      }
    }

    method ConfirmInvoice(uid: string, id: UploadId, version: nat, fields: string) returns (result: Result<Invoice>)
      requires Valid()
      modifies this`invoices
      ensures Valid()
      ensures (Contents(), result) == Confirm(old(Contents()), uid, id, version, fields)
    {
      CountersStep(Contents(), charges, globalLimit, DoConfirm(uid, id, version, fields));
      hide CountersOk;
      if id !in invoices || invoices[id].uid != uid {
        return Err(InvoiceNotFound);
      }
      if invoices[id].version != version {
        return Err(VersionConflict);
      }
      invoices := invoices[id := invoices[id].(fields := Some(fields), state := Confirmed, version := version + 1)];
      result := Ok(invoices[id]);
    }

    method RecordOcr(id: UploadId, fields: Option<string>) returns (changed: bool)
      requires Valid()
      modifies this`invoices
      ensures Valid()
      ensures (Contents(), changed) == MarkOcr(old(Contents()), id, fields)
    {
      CountersStep(Contents(), charges, globalLimit, DoMarkOcr(id, fields));
      hide CountersOk;
      changed := id in invoices && invoices[id].state in {Processing, NeedsCorrection};
      if changed {
        var state := if fields.Some? then ReadyToConfirm else NeedsCorrection;
        invoices := invoices[id := invoices[id].(fields := fields, state := state)];
      }
    }
  }
}
