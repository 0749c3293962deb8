/** The enrichment of one receipt with GST validation disabled: its stages, its versioned result,
    the callbacks queued for it, the receipt row the callbacks are projected on, and the row that
    reconciliation counts. Each `Tx` is one database transaction; a run is any sequence of them, so
    it covers every interleaving of workers, with crashes between transactions and stale writes. */
module Pipeline {
  import opened Options

  datatype StageName = ImageFetch | Ocr
  datatype StageStatus = Processing | Completed | FailedRetryable | FailedTerminal
  datatype Stage = Stage(status: StageStatus, attempts: nat, lockedUntil: Option<int>)

  const FIRST_ATTEMPT: nat := 1
  const MAX_STAGE_ATTEMPTS: nat := 5
  const STAGE_LEASE: nat := 300
  const READY_CONFIDENCE := 60.0

  datatype EnrichmentStatus = ReadyForReview | NeedsHumanReview
  datatype Reading = Scanned(confidence: real, json: string) | ProviderError(code: string)
  datatype Result = Result(status: EnrichmentStatus, reading: Reading, version: nat)

  /** What a projection copies to the receipt row: a result without its version. */
  datatype Shown = Shown(status: EnrichmentStatus, reading: Reading)

  datatype ReceiptStatus = Received | NeedsReview | Verified | Rejected
  datatype Fields = Fields(poNumber: string, materialCode: string, quantity: real, unit: string)
  datatype Receipt = Receipt(status: ReceiptStatus, version: nat, fields: Option<Fields>, shown: Option<Shown>)

  datatype VerifiedRow = VerifiedRow(version: nat, fields: Fields)

  datatype State = State(
    stages: map<StageName, Stage>,
    result: Option<Result>,
    callbacks: map<nat, Result>,
    receipt: Receipt,
    verified: Option<VerifiedRow>)

  datatype Action = Verify | Reject

  datatype Tx =
    | ClaimStage(name: StageName, now: int)
    | CompleteStage(name: StageName)
    | FailStage(name: StageName, terminal: bool)
    | SaveOcrResult(confidence: real, json: string)
    | FinalizeFailure(code: string)
    | Project(version: nat)
    | Review(version: nat, action: Action, fields: Fields)

  function Fresh(version: nat): State {
    State(map[], None, map[], Receipt(Received, version, None, None), None)
  }

  // ----- the transactions -----

  predicate Claimable(stages: map<StageName, Stage>, name: StageName, now: int) {
    name in stages ==>
      var stage := stages[name];
      && (|| stage.status == FailedRetryable
          || (stage.status == Processing && stage.lockedUntil.Some? && stage.lockedUntil.value < now))
      && stage.attempts < MAX_STAGE_ATTEMPTS
  }

  function Claimed(stages: map<StageName, Stage>, name: StageName, now: int): map<StageName, Stage> {
    var attempts := if name in stages then stages[name].attempts + 1 else FIRST_ATTEMPT;
    stages[name := Stage(Processing, attempts, Some(now + STAGE_LEASE))]
  }

  function CompleteIfProcessing(stages: map<StageName, Stage>, name: StageName): map<StageName, Stage> {
    if name in stages && stages[name].status == Processing
    then stages[name := stages[name].(status := Completed, lockedUntil := None)]
    else stages
  }

  /** No guard on the status: a stale worker fails a stage that another one has completed. */
  function Failed(stages: map<StageName, Stage>, name: StageName, terminal: bool): map<StageName, Stage> {
    if name in stages then
      var status := if terminal || stages[name].attempts >= MAX_STAGE_ATTEMPTS then FailedTerminal else FailedRetryable;
      stages[name := stages[name].(status := status, lockedUntil := None)]
    else stages
  }

  function CompletedIfAny(stages: map<StageName, Stage>, name: StageName): map<StageName, Stage> {
    if name in stages then stages[name := stages[name].(status := Completed, lockedUntil := None)] else stages
  }

  function Version(result: Option<Result>): nat {
    if result.Some? then result.value.version else 0
  }

  function Scored(confidence: real): EnrichmentStatus {
    if confidence >= READY_CONFIDENCE then ReadyForReview else NeedsHumanReview
  }

  /** A failure keeps the reading of the result it replaces. */
  function FailureResult(result: Option<Result>, code: string): Result {
    Result(NeedsHumanReview, if result.Some? then result.value.reading else ProviderError(code), Version(result) + 1)
  }

  function AddCallback(callbacks: map<nat, Result>, result: Result): map<nat, Result> {
    if result.version in callbacks then callbacks else callbacks[result.version := result]
  }

  function WithResult(s: State, result: Result): State {
    s.(result := Some(result), callbacks := AddCallback(s.callbacks, result))
  }

  function ShownOf(result: Result): Shown { Shown(result.status, result.reading) }

  function Upsert(row: Option<VerifiedRow>, event: VerifiedRow): Option<VerifiedRow> {
    if row.None? || row.value.version < event.version then Some(event) else row
  }

  predicate Accepted(s: State, tx: Tx) { tx.Review? && tx.version == s.receipt.version }

  function Reviewed(s: State, action: Action, fields: Fields): State {
    var version := s.receipt.version + 1;
    s.(receipt := s.receipt.(status := if action == Verify then Verified else Rejected, version := version, fields := Some(fields)),
       verified := if action == Verify then Upsert(s.verified, VerifiedRow(version, fields)) else s.verified)
  }

  function Projected(receipt: Receipt, result: Result): Receipt {
    receipt.(status := if receipt.status == Received then NeedsReview else receipt.status, shown := Some(ShownOf(result)))
  }

  function Next(s: State, tx: Tx): State {
    match tx
    case ClaimStage(name, now) => if Claimable(s.stages, name, now) then s.(stages := Claimed(s.stages, name, now)) else s
    case CompleteStage(name) => s.(stages := CompleteIfProcessing(s.stages, name))
    case FailStage(name, terminal) => s.(stages := Failed(s.stages, name, terminal))
    case SaveOcrResult(confidence, json) =>
      WithResult(s.(stages := CompletedIfAny(CompletedIfAny(s.stages, ImageFetch), Ocr)),
                 Result(Scored(confidence), Scanned(confidence, json), Version(s.result) + 1))
    case FinalizeFailure(code) => WithResult(s, FailureResult(s.result, code))
    case Project(version) =>
      if version in s.callbacks then s.(receipt := Projected(s.receipt, s.callbacks[version])) else s
    case Review(_, action, fields) => if Accepted(s, tx) then Reviewed(s, action, fields) else s
  }

  function Run(s: State, txs: seq<Tx>): State
    decreases |txs|
  {
    if txs == [] then s else Run(Next(s, txs[0]), txs[1..])
  }

  // ----- results and callbacks go in step -----

  ghost predicate Lockstep(result: Option<Result>, callbacks: map<nat, Result>) {
    && (forall v :: v in callbacks <==> 1 <= v <= Version(result))
    && (forall v :: v in callbacks ==> callbacks[v].version == v)
    && (result.Some? ==> result.value.version >= 1 && callbacks[result.value.version] == result.value)
  }

  ghost predicate StagesOk(stages: map<StageName, Stage>) {
    forall name :: name in stages ==>
      && stages[name].attempts <= MAX_STAGE_ATTEMPTS
      && (stages[name].status == FailedRetryable ==> stages[name].attempts < MAX_STAGE_ATTEMPTS)
      && (stages[name].status == Processing <==> stages[name].lockedUntil.Some?)
  }

  function Saves(txs: seq<Tx>): nat {
    if txs == [] then 0 else (if txs[0].SaveOcrResult? || txs[0].FinalizeFailure? then 1 else 0) + Saves(txs[1..])
  }

  lemma LockstepStep(s: State, tx: Tx)
    requires Lockstep(s.result, s.callbacks)
    ensures Lockstep(Next(s, tx).result, Next(s, tx).callbacks)
    ensures Version(Next(s, tx).result) == Version(s.result) + Saves([tx])
    ensures forall v :: v in s.callbacks ==> v in Next(s, tx).callbacks && Next(s, tx).callbacks[v] == s.callbacks[v]
  {
  }

  lemma StagesStep(s: State, tx: Tx)
    requires StagesOk(s.stages)
    ensures StagesOk(Next(s, tx).stages)
  {
  }

  /** In every run the callback versions are exactly 1 up to the result's version, which counts the
      saves and terminal failures; the newest callback carries the result; no callback once queued
      is ever rewritten; and no stage is tried more than five times. */
  lemma {:induction false} LockstepAlways(s: State, txs: seq<Tx>)
    requires Lockstep(s.result, s.callbacks) && StagesOk(s.stages)
    ensures Lockstep(Run(s, txs).result, Run(s, txs).callbacks) && StagesOk(Run(s, txs).stages)
    ensures Version(Run(s, txs).result) == Version(s.result) + Saves(txs)
    ensures forall v :: v in s.callbacks ==> v in Run(s, txs).callbacks && Run(s, txs).callbacks[v] == s.callbacks[v]
    decreases |txs|
  {
    if txs != [] {
      LockstepStep(s, txs[0]);
      StagesStep(s, txs[0]);
      hide Next;
      LockstepAlways(Next(s, txs[0]), txs[1..]);
    }
  }

  /** A claim holds its stage for five minutes: until then nobody else can claim it, and after that
      anybody can, as long as tries are left. */
  lemma ClaimHolds(s: State, name: StageName, now: int, at: int)
    requires Claimable(s.stages, name, now)
    ensures
      var t := Next(s, ClaimStage(name, now));
      Claimable(t.stages, name, at) <==> at > now + 300 && t.stages[name].attempts < 5
  {
  }

  /** A completed stage stays so, and cannot be claimed, until somebody fails it; and nothing stops a
      stale worker from that. */
  lemma {:induction false} CompletedUntilFailed(s: State, txs: seq<Tx>, name: StageName, now: int)
    requires name in s.stages && s.stages[name].status == Completed
    requires forall i :: 0 <= i < |txs| ==> !(txs[i].FailStage? && txs[i].name == name)
    ensures
      var t := Run(s, txs);
      && name in t.stages && t.stages[name].status == Completed && t.stages[name].attempts == s.stages[name].attempts
      && !Claimable(t.stages, name, now)
      && (forall terminal :: Next(t, FailStage(name, terminal)).stages[name].status != Completed)
    decreases |txs|
  {
    if txs != [] {
      CompletedUntilFailed(Next(s, txs[0]), txs[1..], name, now);
    }
  }

  lemma {:induction false} NoSaveKeepsReading(s: State, txs: seq<Tx>)
    requires s.result.Some? && forall i :: 0 <= i < |txs| ==> !txs[i].SaveOcrResult?
    ensures
      var t := Run(s, txs);
      && t.result.Some? && t.result.value.reading == s.result.value.reading
      && (t.result.value.status == ReadyForReview <==>
            s.result.value.status == ReadyForReview && forall i :: 0 <= i < |txs| ==> !txs[i].FinalizeFailure?)
    decreases |txs|
  {
    if txs != [] {
      NoSaveKeepsReading(Next(s, txs[0]), txs[1..]);
      assert forall i :: 0 < i < |txs| ==> txs[i] == txs[1..][i - 1];
      assert forall i :: 0 <= i < |txs[1..]| ==> txs[1..][i] == txs[i + 1];
    }
  }

  /** Whatever else runs, the result's reading is the one saved last: no later failure loses it. The
      result is ready for review exactly if that reading scored 60 and no failure came after it. */
  lemma {:induction false} LastSaveDecides(s: State, txs: seq<Tx>, i: nat)
    requires i < |txs| && txs[i].SaveOcrResult? && forall j :: i < j < |txs| ==> !txs[j].SaveOcrResult?
    ensures
      var t := Run(s, txs);
      && t.result.Some? && t.result.value.reading == Scanned(txs[i].confidence, txs[i].json)
      && (t.result.value.status == ReadyForReview <==>
            txs[i].confidence >= 60.0 && forall j :: i < j < |txs| ==> !txs[j].FinalizeFailure?)
    decreases |txs|
  {
    var t := Next(s, txs[0]);
    assert forall j :: 0 < j < |txs| ==> txs[j] == txs[1..][j - 1];
    assert forall j :: 0 <= j < |txs[1..]| ==> txs[1..][j] == txs[j + 1];
    if i == 0 {
      NoSaveKeepsReading(t, txs[1..]);
    } else {
      LastSaveDecides(t, txs[1..], i - 1);
    }
  }

  // ----- reviews -----

  function ReviewsOf(txs: seq<Tx>): seq<Tx> {
    if txs == [] then [] else (if txs[0].Review? then [txs[0]] else []) + ReviewsOf(txs[1..])
  }

  /** Two states that agree on everything a review reads or writes. */
  ghost predicate SameReviewed(a: State, b: State) {
    && a.receipt.version == b.receipt.version && a.receipt.fields == b.receipt.fields && a.verified == b.verified
    && b.receipt.shown.None?
    && a.receipt.status == if b.receipt.status != Received then b.receipt.status
                           else if a.receipt.shown.Some? then NeedsReview else Received
  }

  /** Enrichment never touches a reviewer's decision. Take the reviews alone out of any run: they
      leave the same version, fields and verified row; and where they leave the receipt RECEIVED,
      it is NEEDS_REVIEW exactly if some callback has been projected. */
  lemma {:induction false} ReviewsAlone(a: State, b: State, txs: seq<Tx>)
    requires SameReviewed(a, b)
    ensures SameReviewed(Run(a, txs), Run(b, ReviewsOf(txs)))
    decreases |txs|
  {
    if txs != [] {
      var head, rest := txs[0], ReviewsOf(txs[1..]);
      if head.Review? {
        assert ReviewsOf(txs) == [head] + rest;
        assert ReviewsOf(txs)[0] == head && ReviewsOf(txs)[1..] == rest;
        ReviewsAlone(Next(a, head), Next(b, head), txs[1..]);
      } else {
        assert ReviewsOf(txs) == rest;
        ReviewsAlone(Next(a, head), b, txs[1..]);
      }
    }
  }

  /** The last accepted review, if any, and whether any accepted one verified. */
  function LastAccepted(s: State, txs: seq<Tx>, before: Option<Action>): Option<Action>
    decreases |txs|
  {
    if txs == [] then before
    else LastAccepted(Next(s, txs[0]), txs[1..], if Accepted(s, txs[0]) then Some(txs[0].action) else before)
  }

  predicate EverVerified(s: State, txs: seq<Tx>)
    decreases |txs|
  {
    txs != [] && ((Accepted(s, txs[0]) && txs[0].action == Verify) || EverVerified(Next(s, txs[0]), txs[1..]))
  }

  /** A VERIFIED receipt and the row that reconciliation counts agree. */
  ghost predicate VerifiedOk(receipt: Receipt, verified: Option<VerifiedRow>) {
    && (verified.Some? ==> verified.value.version <= receipt.version)
    && (receipt.status == Verified <==> verified.Some? && verified.value.version == receipt.version)
    && (receipt.status == Verified ==> receipt.fields == Some(verified.value.fields))
  }

  lemma {:induction false} VerifiedAlways(s: State, txs: seq<Tx>, before: Option<Action>)
    requires VerifiedOk(s.receipt, s.verified)
    requires s.receipt.status == Verified <==> before == Some(Verify)
    requires s.receipt.status == Rejected <==> before == Some(Reject)
    ensures VerifiedOk(Run(s, txs).receipt, Run(s, txs).verified)
    ensures Run(s, txs).receipt.status == Verified <==> LastAccepted(s, txs, before) == Some(Verify)
    ensures Run(s, txs).receipt.status == Rejected <==> LastAccepted(s, txs, before) == Some(Reject)
    ensures Run(s, txs).verified.Some? <==> s.verified.Some? || EverVerified(s, txs)
    decreases |txs|
  {
    if txs != [] {
      VerifiedAlways(Next(s, txs[0]), txs[1..], if Accepted(s, txs[0]) then Some(txs[0].action) else before);
    }
  }

  /** Whenever the receipt is VERIFIED its verified row has the same version and fields. The row
      outlives a later rejection, though: reconciliation counts a receipt that is not VERIFIED
      exactly when it was verified once and the last accepted review rejected it. */
  lemma StaleRowIff(version: nat, txs: seq<Tx>)
    ensures
      var end := Run(Fresh(version), txs);
      && VerifiedOk(end.receipt, end.verified)
      && (end.verified.Some? && end.receipt.status != Verified <==>
            EverVerified(Fresh(version), txs) && LastAccepted(Fresh(version), txs, None) == Some(Reject))
  {
    var end := Run(Fresh(version), txs);
    VerifiedAlways(Fresh(version), txs, None);
    var last := LastAccepted(Fresh(version), txs, None);
    assert last.Some? ==> last.value == Verify || last.value == Reject;
    if end.receipt.status != Verified && end.receipt.status != Rejected {
      NoneAccepted(Fresh(version), txs);
    }
  }

  lemma {:induction false} NoneAccepted(s: State, txs: seq<Tx>)
    requires LastAccepted(s, txs, None) == None
    ensures !EverVerified(s, txs)
    decreases |txs|
  {
    if txs != [] {
      if Accepted(s, txs[0]) {
        SomeAccepted(Next(s, txs[0]), txs[1..], txs[0].action);
      } else {
        NoneAccepted(Next(s, txs[0]), txs[1..]);
      }
    }
  }

  lemma {:induction false} SomeAccepted(s: State, txs: seq<Tx>, action: Action)
    ensures LastAccepted(s, txs, Some(action)).Some?
    decreases |txs|
  {
    if txs != [] {
      SomeAccepted(Next(s, txs[0]), txs[1..], if Accepted(s, txs[0]) then txs[0].action else action);
    }
  }

  /** Verify, then reject. */
  lemma {:induction false} VerifiedThenRejected(fields: Fields)
    ensures
      var end := Run(Fresh(1), [Review(1, Verify, fields), Review(2, Reject, fields)]);
      end.verified == Some(VerifiedRow(2, fields)) && end.receipt.status == Rejected
  {
    var txs := [Review(1, Verify, fields), Review(2, Reject, fields)];
    var s1 := Next(Fresh(1), txs[0]);
    assert txs[1..] == [txs[1]] && txs[1..][1..] == [];
    assert Run(Fresh(1), txs) == Run(s1, txs[1..]) == Run(Next(s1, txs[1]), txs[1..][1..]);
  }

  /** Of two reviews of the same version at most one is accepted, whatever runs in between. */
  lemma {:induction false} OneReviewPerVersion(s: State, review: Tx, between: seq<Tx>, other: Tx)
    requires Accepted(s, review) && other.Review? && other.version == review.version
    ensures !Accepted(Run(Next(s, review), between), other)
  {
    VersionsGrow(Next(s, review), between);
  }

  lemma {:induction false} VersionsGrow(s: State, txs: seq<Tx>)
    ensures Run(s, txs).receipt.version >= s.receipt.version
    decreases |txs|
  {
    if txs != [] {
      VersionsGrow(Next(s, txs[0]), txs[1..]);
    }
  }

  // ----- projections -----

  function Projections(versions: seq<nat>): (txs: seq<Tx>)
    ensures |txs| == |versions|
  {
    seq(|versions|, i requires 0 <= i < |versions| => Project(versions[i]))
  }

  /** What a projection of `result` does: the row shows its status and reading, and goes from RECEIVED,
      and from nowhere else, to NEEDS_REVIEW; the rest of the receipt stays. */
  ghost predicate Shows(s: State, t: State, result: Result) {
    && t.receipt.shown.Some?
    && t.receipt.shown.value.status == result.status
    && t.receipt.shown.value.reading == result.reading
    && t.receipt.status == (if s.receipt.status == Received then NeedsReview else s.receipt.status)
    && t.receipt.version == s.receipt.version && t.receipt.fields == s.receipt.fields
    && t.verified == s.verified && t.result == s.result && t.callbacks == s.callbacks && t.stages == s.stages
  }

  /** Projecting callbacks in any order and any number of times shows the one projected last, and
      moves the receipt from RECEIVED only. */
  lemma {:induction false} ProjectedInAnyOrder(s: State, versions: seq<nat>)
    requires versions != [] && forall v :: v in versions ==> v in s.callbacks
    ensures Shows(s, Run(s, Projections(versions)), s.callbacks[versions[|versions| - 1]])
    decreases |versions|
  {
    var txs := Projections(versions);
    assert txs[1..] == Projections(versions[1..]);
    var t := Next(s, txs[0]);
    if |versions| == 1 {
      assert Run(s, txs) == Run(t, txs[1..]) == t;
    } else {
      ProjectedInAnyOrder(t, versions[1..]);
      assert versions[1..][|versions[1..]| - 1] == versions[|versions| - 1];
    }
  }

  /** So the receipt shows the current result if the newest callback came last, and an older one
      if that one did. */
  lemma NewestShown(s: State, versions: seq<nat>)
    requires Lockstep(s.result, s.callbacks)
    requires versions != [] && forall v :: v in versions ==> v in s.callbacks
    ensures
      var last := versions[|versions| - 1];
      var shown := Run(s, Projections(versions)).receipt.shown;
      && s.result.Some? && last <= s.result.value.version
      && shown == Some(Shown(s.callbacks[last].status, s.callbacks[last].reading))
      && (last == s.result.value.version ==> shown == Some(Shown(s.result.value.status, s.result.value.reading)))
  {
    assert versions[|versions| - 1] in versions;
    ProjectedInAnyOrder(s, versions);
  }

  // ----- verified reviews delivered out of order -----

  function Merge(row: Option<VerifiedRow>, events: seq<VerifiedRow>): Option<VerifiedRow>
    decreases |events|
  {
    if events == [] then row else Merge(Upsert(row, events[0]), events[1..])
  }

  ghost predicate Newest(events: seq<VerifiedRow>, event: VerifiedRow) {
    event in events && forall e :: e in events ==> e.version <= event.version
  }

  lemma {:induction false} MergeNewest(row: VerifiedRow, events: seq<VerifiedRow>)
    ensures Merge(Some(row), events).Some? && Newest([row] + events, Merge(Some(row), events).value)
    decreases |events|
  {
    if events != [] {
      var next := Upsert(Some(row), events[0]).value;
      MergeNewest(next, events[1..]);
      assert events == [events[0]] + events[1..];
      var end := Merge(Some(row), events).value;
      assert end in [next] + events[1..];
      assert forall e :: e in [row] + events ==> e == row || e == events[0] || e in events[1..];
      assert forall e :: e in events[1..] ==> e in [next] + events[1..];
      assert next in [next] + events[1..];
    }
  }

  ghost predicate VersionsIdentify(events: seq<VerifiedRow>) {
    forall e, f :: e in events && f in events && e.version == f.version ==> e == f
  }

  /** A delivery of the version that is there already changes nothing, whatever it carries. */
  lemma FirstOfVersionStays(row: VerifiedRow, event: VerifiedRow)
    requires event.version <= row.version
    ensures Merge(Some(row), [event]) == Some(row)
  {
    assert [event][1..] == [];
    assert Merge(Upsert(Some(row), event), []) == Upsert(Some(row), event);
  }

  /** Review events delivered in any order and any number of times leave the same row: that of the
      newest. */
  lemma DeliveryOrderIrrelevant(events: seq<VerifiedRow>, others: seq<VerifiedRow>)
    requires VersionsIdentify(events) && forall e :: e in events <==> e in others
    ensures Merge(None, events) == Merge(None, others)
    ensures events != [] ==> Merge(None, events).Some? && Newest(events, Merge(None, events).value)
  {
    if events != [] {
      assert events[0] in others;
      MergeNewest(events[0], events[1..]);
      MergeNewest(others[0], others[1..]);
      assert events == [events[0]] + events[1..];
      assert others == [others[0]] + others[1..];
    } else {
      assert forall i :: 0 <= i < |others| ==> others[i] in others;
    }
  }
}
