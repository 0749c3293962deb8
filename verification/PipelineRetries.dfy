/** Processing one receipt event, as a worker does it: a sequence of the transactions of `Pipeline`
    around one image fetch and one OCR run. One worker, GST validation disabled. */
module PipelineRetries {
  import opened Options
  import opened Pipeline
  import L = Leases

  /** What the two outside calls of a try come to. */
  datatype Fetch = Image | InvalidImage(error: string) | FetchError(error: string)
  datatype Scan = Text(confidence: real, json: string) | ScanError(error: string)

  datatype Outcome = Returned(result: Result) | Raised(error: string)

  const IMAGE_NOT_RETRYABLE := "image_fetch_stage_not_retryable"
  const OCR_NOT_RETRYABLE := "ocr_stage_not_retryable"

  /** `fail_stage`, then the terminal record if the failure was terminal. */
  function FailTry(s: State, name: StageName, terminal: bool, error: string): (State, Outcome) {
    var failed := Next(s, FailStage(name, terminal));
    if name in failed.stages && failed.stages[name].status == FailedTerminal then
      (Next(failed, FinalizeFailure(error)), Returned(FailureResult(failed.result, error)))
    else (failed, Raised(error))
  }

  function ScanTry(s: State, scan: Scan, now: int): (State, Outcome) {
    if !Claimable(s.stages, Ocr, now) then
      (s, if s.result.Some? then Returned(s.result.value) else Raised(OCR_NOT_RETRYABLE))
    else
      var claimed := Next(s, ClaimStage(Ocr, now));
      match scan
      case Text(confidence, json) =>
        var saved := Next(claimed, SaveOcrResult(confidence, json));
        (saved, Returned(saved.result.value))
      case ScanError(error) => FailTry(claimed, Ocr, false, error)
  }

  predicate ImageDone(s: State) { ImageFetch in s.stages && s.stages[ImageFetch].status == Completed }

  function TryOnce(s: State, fetch: Fetch, scan: Scan, now: int): (State, Outcome) {
    if s.result.Some? then (s, Returned(s.result.value))
    else if !ImageDone(s) && !Claimable(s.stages, ImageFetch, now) then (s, Raised(IMAGE_NOT_RETRYABLE))
    else
      var claimed := if ImageDone(s) then s else Next(s, ClaimStage(ImageFetch, now));
      match fetch
      case Image => ScanTry(Next(claimed, CompleteStage(ImageFetch)), scan, now)
      case InvalidImage(error) => FailTry(claimed, ImageFetch, true, error)
      case FetchError(error) => FailTry(claimed, ImageFetch, false, error)
  }

  lemma RunTwo(s: State, a: Tx, b: Tx)
    ensures Run(s, [a]) == Next(s, a) && Run(s, [a, b]) == Next(Next(s, a), b)
  {
    hide Next;
    assert [a, b][1..] == [b];
    assert Run(Next(s, a), [b]) == Next(Next(s, a), b);
  }

  lemma FailTryIsARun(s: State, name: StageName, terminal: bool, error: string) returns (txs: seq<Tx>)
    ensures Run(s, txs) == FailTry(s, name, terminal, error).0
  {
    hide Next;
    txs := if FailTry(s, name, terminal, error).1.Returned? then [FailStage(name, terminal), FinalizeFailure(error)]
           else [FailStage(name, terminal)];
    RunTwo(s, FailStage(name, terminal), FinalizeFailure(error));
  }

  lemma ScanTryIsARun(s: State, scan: Scan, now: int) returns (txs: seq<Tx>)
    ensures Run(s, txs) == ScanTry(s, scan, now).0
  {
    hide Next, FailTry;
    if !Claimable(s.stages, Ocr, now) {
      txs := [];
    } else {
      var claimed := Next(s, ClaimStage(Ocr, now));
      match scan {
        case Text(confidence, json) =>
          txs := [ClaimStage(Ocr, now), SaveOcrResult(confidence, json)];
          RunTwo(s, txs[0], txs[1]);
        case ScanError(error) =>
          var rest := FailTryIsARun(claimed, Ocr, false, error);
          txs := [ClaimStage(Ocr, now)] + rest;
          assert txs[1..] == rest;
      }
    }
  }

  /** A try is a run of the transactions of `Pipeline`, so all that holds of every run holds of it. */
  lemma TryIsARun(s: State, fetch: Fetch, scan: Scan, now: int) returns (txs: seq<Tx>)
    ensures Run(s, txs) == TryOnce(s, fetch, scan, now).0
  {
    hide Next, FailTry, ScanTry;
    if s.result.Some? || (!ImageDone(s) && !Claimable(s.stages, ImageFetch, now)) {
      txs := [];
    } else {
      var claimed := if ImageDone(s) then s else Next(s, ClaimStage(ImageFetch, now));
      match fetch {
        case Image =>
          var rest := ScanTryIsARun(Next(claimed, CompleteStage(ImageFetch)), scan, now);
          txs := [CompleteStage(ImageFetch)] + rest;
          assert txs[1..] == rest;
        case InvalidImage(error) => txs := FailTryIsARun(claimed, ImageFetch, true, error);
        case FetchError(error) => txs := FailTryIsARun(claimed, ImageFetch, false, error);
      }
      if !ImageDone(s) {
        var rest := txs;
        txs := [ClaimStage(ImageFetch, now)] + rest;
        assert txs[1..] == rest;
      }
    }
  }

  // ----- the measure -----

  function Attempts(stages: map<StageName, Stage>, name: StageName): nat {
    if name in stages then stages[name].attempts else 0
  }

  function Measure(s: State): int {
    (MAX_STAGE_ATTEMPTS - Attempts(s.stages, ImageFetch)) + (MAX_STAGE_ATTEMPTS - Attempts(s.stages, Ocr))
    + if ImageDone(s) then 1 else 0
  }

  /** Between tries of a receipt that has no result yet: nothing is being worked on, and nothing
      has failed for good. */
  predicate Idle(s: State) {
    && s.result.None?
    && (ImageFetch in s.stages ==>
          && s.stages[ImageFetch].status in {Completed, FailedRetryable}
          && s.stages[ImageFetch].attempts <= if s.stages[ImageFetch].status == Completed then MAX_STAGE_ATTEMPTS else MAX_STAGE_ATTEMPTS - 1)
    && (Ocr in s.stages ==>
          s.stages[Ocr].status == FailedRetryable && s.stages[Ocr].attempts <= MAX_STAGE_ATTEMPTS - 1)
  }

  /** What a try of an idle receipt comes to, by the measure before it. */
  predicate Progress(measure: int, t: State, outcome: Outcome) {
    match outcome
    case Returned(result) => t.result == Some(result) && result.version == 1
    case Raised(_) => Idle(t) && Measure(t) == measure - 1
  }

  /** A stage in hand: claimed, or completed earlier. */
  predicate InHand(s: State, name: StageName) {
    && name in s.stages && s.stages[name].status in {Processing, Completed}
    && s.stages[name].attempts <= MAX_STAGE_ATTEMPTS
  }

  lemma FailTryProgress(s: State, name: StageName, terminal: bool, error: string)
    requires s.result.None? && InHand(s, name)
    requires name == Ocr ==> s.stages[Ocr].status == Processing && ImageDone(s) && InHand(s, ImageFetch)
    requires name == ImageFetch && Ocr in s.stages ==>
               s.stages[Ocr].status == FailedRetryable && s.stages[Ocr].attempts <= MAX_STAGE_ATTEMPTS - 1
    ensures
      var (t, outcome) := FailTry(s, name, terminal, error);
      && Progress(if name == ImageFetch && !ImageDone(s) then Measure(s) + 1 else Measure(s) + if name == Ocr then 1 else 0, t, outcome)
      && (outcome.Raised? ==> !terminal && outcome.error == error)
  {
  }

  lemma ScanTryProgress(s: State, scan: Scan, now: int)
    requires Idle(s) && ImageDone(s)
    ensures Progress(Measure(s), ScanTry(s, scan, now).0, ScanTry(s, scan, now).1)
    ensures ScanTry(s, scan, now).1.Raised? ==> scan.ScanError? && ScanTry(s, scan, now).1.error == scan.error
  {
    if scan.ScanError? {
      hide FailTry;
      FailTryProgress(Next(s, ClaimStage(Ocr, now)), Ocr, false, scan.error);
    }
  }

  /** Whatever the outside calls do, a try of an idle receipt either leaves a result at version 1
      and returns it, or raises, leaves the receipt idle and the measure smaller by exactly one. */
  lemma TryDecreases(s: State, fetch: Fetch, scan: Scan, now: int)
    requires Idle(s)
    ensures
      var (t, outcome) := TryOnce(s, fetch, scan, now);
      && Measure(s) >= 2
      && Progress(Measure(s), t, outcome)
      && (outcome.Raised? ==>
            (fetch.FetchError? && outcome.error == fetch.error) || (scan.ScanError? && outcome.error == scan.error))
  {
    hide FailTry, ScanTry;
    var claimed := if ImageDone(s) then s else Next(s, ClaimStage(ImageFetch, now));
    match fetch {
      case Image =>
        var complete := Next(claimed, CompleteStage(ImageFetch));
        assert Idle(complete) && Measure(complete) == Measure(s);
        ScanTryProgress(complete, scan, now);
      case InvalidImage(error) => FailTryProgress(claimed, ImageFetch, true, error);
      case FetchError(error) => FailTryProgress(claimed, ImageFetch, false, error);
    }
  }

  lemma ReturnedIsSaved(s: State, name: StageName, terminal: bool, error: string, scan: Scan, now: int)
    ensures FailTry(s, name, terminal, error).1.Returned? ==>
              FailTry(s, name, terminal, error).0.result == Some(FailTry(s, name, terminal, error).1.result)
    ensures ScanTry(s, scan, now).1.Returned? ==> ScanTry(s, scan, now).0.result == Some(ScanTry(s, scan, now).1.result)
  {
  }

  /** Once there is a result, further tries return it and change nothing. */
  lemma TryAgain(s: State, fetch: Fetch, scan: Scan, now: int, laterFetch: Fetch, laterScan: Scan, later: int)
    requires TryOnce(s, fetch, scan, now).1.Returned?
    ensures
      var (t, outcome) := TryOnce(s, fetch, scan, now);
      TryOnce(t, laterFetch, laterScan, later) == (t, outcome)
  {
    hide Next, FailTry, ScanTry;
    var claimed := if ImageDone(s) then s else Next(s, ClaimStage(ImageFetch, now));
    match fetch {
      case Image => ReturnedIsSaved(Next(claimed, CompleteStage(ImageFetch)), Ocr, false, "", scan, now);
      case InvalidImage(error) => ReturnedIsSaved(claimed, ImageFetch, true, error, scan, now);
      case FetchError(error) => ReturnedIsSaved(claimed, ImageFetch, false, error, scan, now);
    }
  }

  // ----- the message budget -----

  /** One delivery of the queue message: claimed at one time, completed or failed at a later one. */
  datatype Visit = Visit(fetch: Fetch, scan: Scan, claimed: int, done: int)

  function Deliver(row: L.Row, s: State, visit: Visit): (L.Row, State) {
    if row.status == L.Delivered then (row, s)
    else
      var taken := L.ClaimRow(L.LOCAL_QUEUE, row, visit.claimed);
      var (t, outcome) := TryOnce(s, visit.fetch, visit.scan, visit.claimed);
      (if outcome.Returned? then L.DeliverRow(taken) else L.FailRow(L.LOCAL_QUEUE, taken, taken.attempts, visit.done), t)
  }

  function DeliverAll(row: L.Row, s: State, visits: seq<Visit>): (L.Row, State)
    decreases |visits|
  {
    if visits == [] then (row, s)
    else
      var (next, t) := Deliver(row, s, visits[0]);
      DeliverAll(next, t, visits[1..])
  }

  /** The attempts of an undelivered message and the measure of its receipt add up to ten. */
  predicate InStep(row: L.Row, s: State) {
    if row.status == L.Delivered then s.result.Some?
    else
      && row.status in {L.Pending, L.FailedRetryable}
      && Idle(s) && row.attempts + Measure(s) == L.MAX_ATTEMPTS
  }

  lemma {:induction false} BudgetSuffices(row: L.Row, s: State, visits: seq<Visit>)
    requires InStep(row, s)
    ensures
      var (end, t) := DeliverAll(row, s, visits);
      && InStep(end, t)
      && (row.status == L.Delivered ==> end.status == L.Delivered)
      && (row.status != L.Delivered && |visits| >= Measure(s) - 1 ==> end.status == L.Delivered)
    decreases |visits|
  {
    if row.status != L.Delivered {
      assert Measure(s) >= 2;
      if visits != [] {
        var visit := visits[0];
        TryDecreases(s, visit.fetch, visit.scan, visit.claimed);
        var (next, t) := Deliver(row, s, visit);
        BudgetSuffices(next, t, visits[1..]);
      }
    } else if visits != [] {
      BudgetSuffices(row, s, visits[1..]);
    }
  }

  /** Whatever the outside calls do, nine deliveries of a new message yield a result, so the queue's
      budget of ten attempts is never used up. */
  lemma ResultWithinNineTries(key: nat, payload: nat, start: int, version: nat, visits: seq<Visit>)
    ensures
      var (end, t) := DeliverAll(L.New(key, payload, start).row, Fresh(version), visits);
      && end.status != L.FailedTerminal
      && (end.status != L.Delivered ==> end.attempts < 9)
      && (|visits| >= 9 ==> end.status == L.Delivered && t.result.Some?)
  {
    hide DeliverAll;
    var row := L.New(key, payload, start).row;
    BudgetSuffices(row, Fresh(version), visits);
    var (end, t) := DeliverAll(row, Fresh(version), visits);
    if end.status != L.Delivered {
      assert Measure(t) >= 2;
    }
  }

  function TryAll(s: State, fetches: seq<Fetch>, scan: Scan, now: int): State
    decreases |fetches|
  {
    if fetches == [] then s else TryAll(TryOnce(s, fetches[0], scan, now).0, fetches[1..], scan, now)
  }

  lemma CanStillFail(s: State, error: string, now: int) returns (fetch: Fetch)
    requires Idle(s) && Measure(s) > 2
    ensures TryOnce(s, fetch, ScanError(error), now).1.Raised?
  {
    fetch := if Attempts(s.stages, Ocr) < MAX_STAGE_ATTEMPTS - 1 then Image else FetchError(error);
  }

  /** The bound is tight: from every idle receipt as many tries can fail as the measure exceeds two
      by, so from a new one eight. */
  lemma {:induction false} CanFailToTheEnd(s: State, error: string, now: int) returns (fetches: seq<Fetch>)
    requires Idle(s)
    ensures |fetches| == Measure(s) - 2
    ensures Idle(TryAll(s, fetches, ScanError(error), now))
    decreases Measure(s)
  {
    TryDecreases(s, Image, ScanError(error), now);
    hide TryOnce;
    if Measure(s) > 2 {
      var fetch := CanStillFail(s, error, now);
      TryDecreases(s, fetch, ScanError(error), now);
      var rest := CanFailToTheEnd(TryOnce(s, fetch, ScanError(error), now).0, error, now);
      fetches := [fetch] + rest;
      assert fetches[0] == fetch && fetches[1..] == rest;
    } else {
      fetches := [];
    }
  }

  // ----- what a try leaves -----

  /** The image stage is done or can be claimed. */
  predicate ImageReady(s: State, now: int) { ImageDone(s) || Claimable(s.stages, ImageFetch, now) }

  /** Which attempt at the image a try makes. */
  function ImageAttempt(s: State): nat { Attempts(s.stages, ImageFetch) + if ImageDone(s) then 0 else 1 }

  /** The try ends with `result` as the receipt's first one, queued as callback 1. */
  ghost predicate Delivers(s: State, t: State, outcome: Outcome, result: Result) {
    && outcome == Returned(result) && t.result == Some(result) && t.callbacks == map[1 := result]
    && t.receipt == s.receipt && t.verified == s.verified
  }

  /** The try raises `error` and leaves no result. */
  ghost predicate Raises(s: State, t: State, outcome: Outcome, error: string) {
    outcome == Raised(error) && t.result.None? && t.callbacks == map[] && t.receipt == s.receipt && t.verified == s.verified
  }

  /** A good image and a good OCR run: the reading is saved at version 1, ready for review exactly if
      it scored 60, and both stages are over. */
  lemma GoodTrySaves(s: State, confidence: real, json: string, now: int)
    requires s.result.None? && s.callbacks == map[] && ImageReady(s, now) && Claimable(s.stages, Ocr, now)
    ensures
      var (t, outcome) := TryOnce(s, Image, Text(confidence, json), now);
      && Delivers(s, t, outcome, Result(if confidence >= 60.0 then ReadyForReview else NeedsHumanReview, Scanned(confidence, json), 1))
      && ImageFetch in t.stages && Ocr in t.stages
      && t.stages[ImageFetch] == Stage(Completed, ImageAttempt(s), None)
      && t.stages[Ocr] == Stage(Completed, Attempts(s.stages, Ocr) + 1, None)
  {
  }

  /** A bad image ends the receipt at once; another failure ends it at the fifth attempt of its stage,
      and is raised before. What is saved then carries the error of the call that failed. */
  lemma FailedTrySaves(s: State, fetch: Fetch, scan: Scan, now: int)
    requires s.result.None? && s.callbacks == map[] && ImageReady(s, now) && StagesOk(s.stages)
    ensures
      var (t, outcome) := TryOnce(s, fetch, scan, now);
      match fetch
      case InvalidImage(error) =>
        Delivers(s, t, outcome, Result(NeedsHumanReview, ProviderError(error), 1)) && t.stages[ImageFetch].status == FailedTerminal
      case FetchError(error) =>
        if ImageAttempt(s) >= 5
        then Delivers(s, t, outcome, Result(NeedsHumanReview, ProviderError(error), 1)) && t.stages[ImageFetch].status == FailedTerminal
        else Raises(s, t, outcome, error) && t.stages[ImageFetch] == Stage(FailedRetryable, ImageAttempt(s), None)
      case Image =>
        && ImageDone(t)
        && (!Claimable(s.stages, Ocr, now) ==> Raises(s, t, outcome, "ocr_stage_not_retryable"))
        && (Claimable(s.stages, Ocr, now) && scan.ScanError? ==>
              var attempt := Attempts(s.stages, Ocr) + 1;
              if attempt >= 5
              then Delivers(s, t, outcome, Result(NeedsHumanReview, ProviderError(scan.error), 1)) && t.stages[Ocr].status == FailedTerminal
              else Raises(s, t, outcome, scan.error) && t.stages[Ocr] == Stage(FailedRetryable, attempt, None))
  {
  }

  // ----- crashes -----

  /** A stage that some later claim can still take. */
  predicate Retryable(stages: map<StageName, Stage>, name: StageName) {
    name in stages ==>
      stages[name].status in {FailedRetryable, Processing} && stages[name].attempts < MAX_STAGE_ATTEMPTS
  }

  /** A receipt without a result is stranded, so that no try at any time will ever give it one or
      change it, exactly if its image stage can neither be claimed again nor has completed: a worker
      crashed in the fifth attempt, or between failing the stage for good and recording that. */
  lemma StrandedIff(s: State)
    requires StagesOk(s.stages) && s.result.None?
    ensures (forall fetch, scan, now :: TryOnce(s, fetch, scan, now) == (s, Raised(IMAGE_NOT_RETRYABLE)))
            <==> !ImageDone(s) && !Retryable(s.stages, ImageFetch)
  {
    if ImageDone(s) || Retryable(s.stages, ImageFetch) {
      var now := Unlocked(s, ImageFetch);
      assert TryOnce(s, InvalidImage(""), ScanError(""), now).1.Returned?;
    }
  }

  /** Five claims, each after the one before it expired. */
  function FiveClaims(): seq<Tx> {
    [ClaimStage(ImageFetch, 0), ClaimStage(ImageFetch, 301), ClaimStage(ImageFetch, 602), ClaimStage(ImageFetch, 903),
     ClaimStage(ImageFetch, 1204)]
  }

  lemma {:induction false} FiveClaimsRun(version: nat)
    ensures Run(Fresh(version), FiveClaims()) == Fresh(version).(stages := map[ImageFetch := Stage(Processing, 5, Some(1504))])
  {
    var txs := FiveClaims();
    var s1, s2 := ClaimedAt(version, 1, 300), ClaimedAt(version, 2, 601);
    var s3, s4 := ClaimedAt(version, 3, 902), ClaimedAt(version, 4, 1203);
    assert Next(Fresh(version), txs[0]) == s1 && Next(s1, txs[1]) == s2 && Next(s2, txs[2]) == s3 && Next(s3, txs[3]) == s4;
    assert Next(s4, txs[4]) == ClaimedAt(version, 5, 1504);
    hide Next;
    RunTwo(Fresh(version), txs[0], txs[1]);
    RunTwo(s2, txs[2], txs[3]);
    RunTwo(s4, txs[4], txs[4]);
    RunSplit(Fresh(version), [txs[0], txs[1]], [txs[2], txs[3], txs[4]]);
    RunSplit(s2, [txs[2], txs[3]], [txs[4]]);
    assert [txs[0], txs[1]] + [txs[2], txs[3], txs[4]] == txs && [txs[2], txs[3]] + [txs[4]] == [txs[2], txs[3], txs[4]];
  }

  function ClaimedAt(version: nat, attempts: nat, until: int): State {
    Fresh(version).(stages := map[ImageFetch := Stage(Processing, attempts, Some(until))])
  }

  lemma {:induction false} RunSplit(s: State, first: seq<Tx>, second: seq<Tx>)
    ensures Run(s, first + second) == Run(Run(s, first), second)
    decreases |first|
  {
    hide Next;
    if first == [] {
      assert first + second == second;
    } else {
      assert (first + second)[1..] == first[1..] + second;
      RunSplit(Next(s, first[0]), first[1..], second);
    }
  }

  /** Both ways to strand a receipt are runs of a new one: five workers that each crash before their
      stage is over, or one that crashes between failing it for good and recording that. */
  lemma Strandings(version: nat, fetch: Fetch, scan: Scan, now: int)
    ensures
      var s := Run(Fresh(version), FiveClaims());
      TryOnce(s, fetch, scan, now) == (s, Raised(IMAGE_NOT_RETRYABLE))
    ensures
      var s := Run(Fresh(version), [ClaimStage(ImageFetch, 0), FailStage(ImageFetch, true)]);
      TryOnce(s, fetch, scan, now) == (s, Raised(IMAGE_NOT_RETRYABLE))
  {
    FiveClaimsRun(version);
    RunTwo(Fresh(version), ClaimStage(ImageFetch, 0), FailStage(ImageFetch, true));
    hide Run;
  }

  lemma Unlocked(s: State, name: StageName) returns (now: int)
    requires StagesOk(s.stages)
    ensures Retryable(s.stages, name) ==> forall at :: at >= now ==> Claimable(s.stages, name, at)
  {
    now := if name in s.stages && s.stages[name].lockedUntil.Some? then s.stages[name].lockedUntil.value + 1 else 0;
  }

  /** A good image and a good OCR run give a result at some time exactly if neither stage is
      stranded. */
  lemma GoodTryIff(s: State, confidence: real, json: string)
    requires StagesOk(s.stages) && s.result.None?
    ensures (exists now :: TryOnce(s, Image, Text(confidence, json), now).1.Returned?)
            <==> (ImageDone(s) || Retryable(s.stages, ImageFetch)) && Retryable(s.stages, Ocr)
  {
    if (ImageDone(s) || Retryable(s.stages, ImageFetch)) && Retryable(s.stages, Ocr) {
      var first := Unlocked(s, ImageFetch);
      var second := Unlocked(s, Ocr);
      var now := if first >= second then first else second;
      assert Claimable(s.stages, Ocr, now) && (ImageDone(s) || Claimable(s.stages, ImageFetch, now));
      var claimed := if ImageDone(s) then s else Next(s, ClaimStage(ImageFetch, now));
      assert Claimable(Next(claimed, CompleteStage(ImageFetch)).stages, Ocr, now);
      assert TryOnce(s, Image, Text(confidence, json), now).1.Returned?;
    } else {
      forall now
        ensures !TryOnce(s, Image, Text(confidence, json), now).1.Returned?
      {
      }
    }
  }

  // ----- the rows of one receipt -----

  class ReceiptRows {
    var stages: map<StageName, Stage>
    var result: Option<Result>
    var callbacks: map<nat, Result>
    var receipt: Receipt
    var verified: Option<VerifiedRow>

    function Contents(): State
      reads this
    {
      State(stages, result, callbacks, receipt, verified)
    }

    constructor (version: nat)
      ensures Contents() == Fresh(version)
    {
      stages, result, callbacks, verified := map[], None, map[], None;
      receipt := Receipt(Received, version, None, None);
    }

    method ClaimStage(name: StageName, now: int) returns (claimed: bool)
      modifies this
      ensures claimed <==> Claimable(old(stages), name, now)
      ensures claimed <==>
                old(name in stages ==>
                      && stages[name].attempts < 5
                      && (stages[name].status == FailedRetryable
                          || (stages[name].status == Processing && stages[name].lockedUntil.Some? && stages[name].lockedUntil.value < now)))
      ensures !claimed ==> Contents() == old(Contents())
      ensures claimed ==>
                stages == old(stages)[name := Stage(Processing, if name in old(stages) then old(stages)[name].attempts + 1 else 1, Some(now + 300))]
      ensures Contents() == Next(old(Contents()), Tx.ClaimStage(name, now))
    {
      if name !in stages {
        stages := stages[name := Stage(Processing, FIRST_ATTEMPT, Some(now + STAGE_LEASE))];
        claimed := true;
      } else {
        var stage := stages[name];
        var expired := stage.status == Processing && stage.lockedUntil.Some? && stage.lockedUntil.value < now;
        claimed := (stage.status == FailedRetryable || expired) && stage.attempts < MAX_STAGE_ATTEMPTS;
        if claimed {
          stages := stages[name := Stage(Processing, stage.attempts + 1, Some(now + STAGE_LEASE))];
        }
      }
    }

    method CompleteStage(name: StageName)
      modifies this
      ensures Contents() == Next(old(Contents()), Tx.CompleteStage(name))
    {
      if name in stages && stages[name].status == Processing {
        stages := stages[name := stages[name].(status := Completed, lockedUntil := None)];
      }
    }

    method FailStage(name: StageName, terminal: bool) returns (failedForGood: bool)
      modifies this
      ensures Contents() == Next(old(Contents()), Tx.FailStage(name, terminal))
      ensures failedForGood <==> name in stages && stages[name].status == FailedTerminal
      ensures failedForGood <==> name in old(stages) && (terminal || old(stages)[name].attempts >= 5)
      ensures stages.Keys == old(stages).Keys
      ensures name in stages ==>
                stages[name] == Stage(if failedForGood then FailedTerminal else FailedRetryable, old(stages)[name].attempts, None)
    {
      failedForGood := false;
      if name in stages {
        failedForGood := terminal || stages[name].attempts >= MAX_STAGE_ATTEMPTS;
        stages := stages[name := stages[name].(status := if failedForGood then FailedTerminal else FailedRetryable,
                                               lockedUntil := None)];
      }
    }

    method InsertCallback(saved: Result)
      modifies this`callbacks
      ensures callbacks == AddCallback(old(callbacks), saved)
    {
      if saved.version !in callbacks {
        callbacks := callbacks[saved.version := saved];
      }
    }

    method SaveOcrResult(confidence: real, json: string) returns (saved: Result)
      modifies this
      ensures Contents() == Next(old(Contents()), Tx.SaveOcrResult(confidence, json))
      ensures result == Some(saved)
      ensures saved.status == (if confidence >= 60.0 then ReadyForReview else NeedsHumanReview) && saved.reading == Scanned(confidence, json)
      ensures saved.version == if old(result).Some? then old(result).value.version + 1 else 1
      ensures saved.version !in old(callbacks) ==> callbacks == old(callbacks)[saved.version := saved]
      ensures forall name :: name in stages ==> name in old(stages) && stages[name] == Stage(Completed, old(stages)[name].attempts, None)
    {
      var status := if confidence >= READY_CONFIDENCE then ReadyForReview else NeedsHumanReview;
      var version := if result.Some? then result.value.version + 1 else 1;
      saved := Result(status, Scanned(confidence, json), version);
      result := Some(saved);
      if ImageFetch in stages {
        stages := stages[ImageFetch := stages[ImageFetch].(status := Completed, lockedUntil := None)];
      }
      if Ocr in stages {
        stages := stages[Ocr := stages[Ocr].(status := Completed, lockedUntil := None)];
      }
      InsertCallback(saved);
      forall name | name in stages
        ensures name in old(stages) && stages[name] == Stage(Completed, old(stages)[name].attempts, None)
      {
        assert name == ImageFetch || name == Ocr;
      }
    }

    method FinalizeProviderFailure(error: string) returns (saved: Result)
      modifies this
      ensures Contents() == Next(old(Contents()), FinalizeFailure(error))
      ensures result == Some(saved) && saved.status == NeedsHumanReview
      ensures saved.reading == if old(result).Some? then old(result).value.reading else ProviderError(error)
      ensures saved.version == if old(result).Some? then old(result).value.version + 1 else 1
      ensures saved.version !in old(callbacks) ==> callbacks == old(callbacks)[saved.version := saved]
    {
      match result {
        case None => saved := Result(NeedsHumanReview, ProviderError(error), 1);
        case Some(prior) => saved := prior.(status := NeedsHumanReview, version := prior.version + 1);
      }
      result := Some(saved);
      InsertCallback(saved);
    }

    method ProjectEnrichmentResult(version: nat)
      requires version in callbacks
      modifies this`receipt
      ensures Contents() == Next(old(Contents()), Project(version))
      ensures Shows(old(Contents()), Contents(), callbacks[version])
    {
      var shown := ShownOf(callbacks[version]);
      if receipt.status == Received {
        receipt := receipt.(status := NeedsReview);
      }
      receipt := receipt.(shown := Some(shown));
    }

    /** A review of a version that is no longer current is a conflict and changes nothing. */
    method ReviewReceipt(version: nat, action: Action, fields: Fields) returns (accepted: bool)
      modifies this
      ensures accepted <==> version == old(receipt).version
      ensures !accepted ==> Contents() == old(Contents())
      ensures accepted ==> receipt == Receipt(if action.Verify? then Verified else Rejected, version + 1, Some(fields), old(receipt).shown)
      ensures accepted && action.Verify? && (old(verified).None? || old(verified).value.version <= version) ==>
                verified == Some(VerifiedRow(version + 1, fields))
      ensures accepted && action.Reject? ==> verified == old(verified)
      ensures Contents() == Next(old(Contents()), Review(version, action, fields))
    {
      accepted := receipt.version == version;
      if accepted {
        var status := if action == Verify then Verified else Rejected;
        receipt := receipt.(status := status, version := version + 1, fields := Some(fields));
        if status == Verified && (verified.None? || verified.value.version < receipt.version) {
          verified := Some(VerifiedRow(receipt.version, fields));
        }
      }
    }

    method FailOrFinalize(name: StageName, terminal: bool, error: string) returns (outcome: Outcome)
      modifies this
      ensures (Contents(), outcome) == FailTry(old(Contents()), name, terminal, error)
    {
      var failedForGood := FailStage(name, terminal);
      if failedForGood {
        var saved := FinalizeProviderFailure(error);
        outcome := Returned(saved);
      } else {
        outcome := Raised(error);
      }
    }

    /** Processing an idle receipt returns its first result, or raises and uses up exactly one unit
        of the measure; processing a finished one changes nothing. */
    method ProcessReceiptEvent(fetch: Fetch, scan: Scan, now: int) returns (outcome: Outcome)
      modifies this
      ensures (Contents(), outcome) == TryOnce(old(Contents()), fetch, scan, now)
      ensures old(result).Some? ==> Contents() == old(Contents()) && outcome == Returned(old(result).value)
      ensures old(Idle(Contents())) && outcome.Raised? ==> Idle(Contents()) && Measure(Contents()) == old(Measure(Contents())) - 1
      ensures old(Idle(Contents())) && outcome.Returned? ==> result == Some(outcome.result) && outcome.result.version == 1
      ensures fetch.Image? && scan.Text? && old(result.None? && callbacks == map[] && ImageReady(Contents(), now) && Claimable(stages, Ocr, now)) ==>
                Delivers(old(Contents()), Contents(), outcome,
                         Result(if scan.confidence >= 60.0 then ReadyForReview else NeedsHumanReview, Scanned(scan.confidence, scan.json), 1))
    {
      if fetch.Image? && scan.Text? && result.None? && callbacks == map[] && ImageReady(Contents(), now) && Claimable(stages, Ocr, now) {
        GoodTrySaves(Contents(), scan.confidence, scan.json, now);
      }
      if Idle(Contents()) {
        TryDecreases(Contents(), fetch, scan, now);
      }
      hide Next;
      if result.Some? {
        return Returned(result.value);
      }
      if !(ImageFetch in stages && stages[ImageFetch].status == Completed) {
        var claimed := ClaimStage(ImageFetch, now);
        if !claimed {
          return Raised(IMAGE_NOT_RETRYABLE);
        }
      }
      match fetch {
        case InvalidImage(error) =>
          outcome := FailOrFinalize(ImageFetch, true, error);
          return;
        case FetchError(error) =>
          outcome := FailOrFinalize(ImageFetch, false, error);
          return;
        case Image =>
      }
      CompleteStage(ImageFetch);
      outcome := ScanReceipt(scan, now);
    }

    method ScanReceipt(scan: Scan, now: int) returns (outcome: Outcome)
      modifies this
      ensures (Contents(), outcome) == ScanTry(old(Contents()), scan, now)
    {
      var claimed := ClaimStage(Ocr, now);
      if !claimed {
        outcome := if result.Some? then Returned(result.value) else Raised(OCR_NOT_RETRYABLE);
        return;
      }
      match scan {
        case Text(confidence, json) =>
          var saved := SaveOcrResult(confidence, json);
          outcome := Returned(saved);
        case ScanError(error) =>
          outcome := FailOrFinalize(Ocr, false, error);
      }
    }
  }
}
