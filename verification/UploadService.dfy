/** The upload calls as the service runs them, on rows and objects updated in place. Each one,
    undisturbed, is a run of the state machine's actions; its contract adds what it answers. */
module UploadService {
  import opened Options
  import opened Reassembly
  import opened UploadWorld

  datatype PutAnswer = PartAccepted | PartRefused(error: PutError)

  datatype CompleteAnswer =
    | Received(receipt: ReceiptId)
    | Duplicate(receipt: ReceiptId)
    | NotOpen
    | Incomplete
    | InvalidImage
    | ChecksumMismatch
    | NotAdmitted
    | AnswerLost

  /** The stored part objects of one session, by part number. */
  function PartObjects(objects: map<Key, Bytes>, u: UploadId): map<nat, Bytes> {
    map k | k in objects && k.PartKey? && k.upload == u :: k.number := objects[k]
  }

  /** What a completion answers once the parts of its session gave `body`. */
  ghost function BodyVerdict(s: World, x: Session, body: Bytes, admitted: bool, heard: bool): CompleteAnswer {
    if !IsWebp(body) then InvalidImage
    else if Sha256(body) != x.sha then ChecksumMismatch
    else if admitted && QuotaAllows(s, x.total) && x.receipt !in s.receipts && x.receipt !in s.outbox then
      if heard then Received(x.receipt) else AnswerLost
    else NotAdmitted
  }

  /** What a completion of session `u` answers, read off the state it starts from. */
  ghost function Verdict(s: World, u: UploadId, admitted: bool, heard: bool): CompleteAnswer {
    if u !in s.sessions then NotOpen
    else
      var x := s.sessions[u];
      if x.status == Complete then Duplicate(x.receipt)
      else if x.status != Open then NotOpen
      else
        match Assembled(PartStore(x.rows, PartObjects(s.objects, u)), x.total)
        case None => Incomplete
        case Some(body) => BodyVerdict(s, x, body, admitted, heard)
  }

  /** What a part upload answers. */
  ghost function PutVerdictOf(s: World, u: UploadId, n: int, body: Bytes, declared: Digest): PutAnswer {
    if u !in s.sessions || s.sessions[u].status != Open then PartRefused(UploadNotOpen)
    else match CheckPut(s.sessions[u].rows, s.sessions[u].total, n, body, declared)
      case Refuse(error) => PartRefused(error)
      case AlreadyStored => PartAccepted
      case Store => PartAccepted
  }

  lemma {:induction false} RunAppend(s: World, actions: seq<Action>, a: Action)
    ensures Run(s, actions + [a]) == Next(Run(s, actions), a)
    decreases |actions|
  {
    if actions == [] {
      assert Run(Next(s, a), [a][1..]) == Next(s, a);
    } else {
      assert (actions + [a])[1..] == actions[1..] + [a];
      RunAppend(Next(s, actions[0]), actions[1..], a);
    }
  }

  lemma {:induction false} RunConcat(s: World, first: seq<Action>, second: seq<Action>)
    ensures Run(s, first + second) == Run(Run(s, first), second)
    decreases |first|
  {
    if first == [] {
      assert first + second == second;
    } else {
      assert (first + second)[1..] == first[1..] + second;
      RunConcat(Next(s, first[0]), first[1..], second);
    }
  }

  lemma Replace(s: World, w: WorkerId, x: Worker, y: Worker)
    ensures SetWorker(SetWorker(s, w, x), w, y) == SetWorker(s, w, y)
    ensures w !in s.workers ==> EndWorker(SetWorker(s, w, x), w) == s
  {
    if w !in s.workers {
      assert s.workers[w := x] - {w} == s.workers;
    }
  }

  lemma RunNothing(s: World)
    ensures Run(s, []) == s
  {
  }

  lemma RunThree(s: World, a: Action, b: Action, c: Action)
    ensures Run(s, [a, b, c]) == Next(Next(Next(s, a), b), c)
  {
    hide Next;
    assert [a, b, c][1..] == [b, c] && [b, c][1..] == [c];
    assert Run(Next(Next(s, a), b), [c]) == Next(Next(Next(s, a), b), c);
    assert Run(Next(s, a), [b, c]) == Run(Next(Next(s, a), b), [c]);
  }

  /** A part upload that is refused or already stored moves nothing. */
  lemma PutRefused(s: World, w: WorkerId, u: UploadId, n: int, body: Bytes, declared: Digest)
    requires w !in s.workers
    requires u !in s.sessions || s.sessions[u].status != Open || CheckPut(s.sessions[u].rows, s.sessions[u].total, n, body, declared) != Store
    ensures Run(s, [BeginPut(w, u, n, body, declared), StorePart(w), InsertPart(w)]) == s
  {
    RunThree(s, BeginPut(w, u, n, body, declared), StorePart(w), InsertPart(w));
    hide Run;
    assert BeginPutStep(s, w, u, n, body, declared) == s;
  }

  lemma PutStores(s: World, w: WorkerId, u: UploadId, n: int, body: Bytes, declared: Digest)
    requires w !in s.workers && !PutLocked(s, u, n) && u in s.sessions && s.sessions[u].status == Open
    requires CheckPut(s.sessions[u].rows, s.sessions[u].total, n, body, declared) == Store
    ensures
      var x := s.sessions[u];
      Run(s, [BeginPut(w, u, n, body, declared), StorePart(w), InsertPart(w)]) ==
      s.(objects := s.objects[PartKey(u, n) := body], sessions := s.sessions[u := x.(rows := x.rows[n := NewRow(n, body)])])
  {
    RunThree(s, BeginPut(w, u, n, body, declared), StorePart(w), InsertPart(w));
    hide Run;
    var stored := s.(objects := s.objects[PartKey(u, n) := body]);
    Replace(s, w, PutChecked(u, n, body), PutStored(u, n, body));
    assert StorePartStep(SetWorker(s, w, PutChecked(u, n, body)), w) == SetWorker(stored, w, PutStored(u, n, body));
    assert s.workers[w := PutStored(u, n, body)] - {w} == s.workers;
  }

  predicate Commits(s: World, job: Job, body: Bytes, admitted: bool) {
    && job.upload in s.sessions && s.sessions[job.upload].status == Completing
    && admitted && QuotaAllows(s, |body|) && job.receipt !in s.receipts && job.receipt !in s.outbox
  }

  /** Session `u` is COMPLETE and its image, of the declared digest, is stored under `key`. */
  ghost predicate ReceivedAs(s: World, u: UploadId, key: Key, sha: Digest) {
    && u in s.sessions && s.sessions[u].status == Complete && s.sessions[u].finalKey == Some(key)
    && key in s.objects && Sha256(s.objects[key]) == sha
  }

  function JobFor(u: UploadId, x: Session): Job {
    Job(u, x.receipt, x.total, x.sha, OrderedRows(x.rows, x.total))
  }

  /** Session `u` is COMPLETE although its caller was told otherwise, and its image is there only if
      the except branch's delete did not take effect. */
  ghost predicate LostAs(s: World, u: UploadId, key: Key, sha: Digest, d: Deletion) {
    && u in s.sessions && s.sessions[u].status == Complete && s.sessions[u].finalKey == Some(key)
    && if Removes(d) then key !in s.objects else key in s.objects && Sha256(s.objects[key]) == sha
  }

  /** Of two compare-and-sets from the same status, with whatever in between leaves the status to
      them, only the first takes effect. */
  lemma SetOnce(s: World, u: UploadId, expected: Status, first: Status, second: Status)
    requires u in s.sessions && s.sessions[u].status == expected && first != expected
    ensures SetStatus(SetStatus(s, u, expected, first), u, expected, second) == SetStatus(s, u, expected, first) != s
  {
    assert SetStatus(s, u, expected, first).sessions[u].status == first;
  }

  lemma StatusTwice(s: World, u: UploadId)
    requires u in s.sessions && s.sessions[u].status == Open
    ensures SetStatus(SetStatus(s, u, Open, Completing), u, Completing, Open) == s
    ensures SetStatus(SetStatus(s, u, Open, Completing), u, Completing, Failed) == SetStatus(s, u, Open, Failed)
  {
    assert s.sessions[u := s.sessions[u]] == s.sessions;
  }

  /** The verdict on an OPEN session, once it is claimed. */
  lemma OpenVerdict(s: World, u: UploadId, admitted: bool, heard: bool)
    requires u in s.sessions && s.sessions[u].status == Open
    ensures
      var x := s.sessions[u];
      var claimed := SetStatus(s, u, Open, Completing);
      && claimed.sessions == s.sessions[u := x.(status := Completing)]
      && Verdict(s, u, admitted, heard) ==
         match Assembled(PartStore(x.rows, PartObjects(s.objects, u)), x.total)
         case None => Incomplete
         case Some(body) => BodyVerdict(claimed, x.(status := Completing), body, admitted, heard)
  {
    hide Assembled;
  }

  /** Claimed and opened again, a session has its final key recorded and is otherwise as before. */
  lemma OpenAgain(sessions: map<UploadId, Session>, u: UploadId, key: Key)
    requires u in sessions && sessions[u].status == Open
    ensures
      var claimed := sessions[u := sessions[u].(status := Completing)];
      claimed[u := claimed[u].(status := Open, finalKey := Some(key))] == sessions[u := sessions[u].(finalKey := Some(key))]
  {
  }

  lemma BodyAnswers(s: World, x: Session, body: Bytes, admitted: bool, heard: bool)
    ensures
      var answer := BodyVerdict(s, x, body, admitted, heard);
      !answer.Incomplete? && (answer.Received? ==> answer.receipt == x.receipt)
  {
  }

  lemma AssembledLength(s: PartStore, total: nat)
    ensures Assembled(s, total).Some? ==> |Assembled(s, total).value| == total
  {
  }

  lemma ClaimNext(s: World, w: WorkerId, u: UploadId)
    requires w !in s.workers && u in s.sessions && s.sessions[u].status == Open
    ensures
      Next(s, Claim(w, u)) == SetWorker(SetStatus(s, u, Open, Completing), w, Reading(JobFor(u, s.sessions[u]), 0, []))
  {
  }

  lemma InspectNext(s: World, w: WorkerId, job: Job, body: Bytes)
    ensures Next(SetWorker(s, w, Gathered(job, body)), Inspect(w)) ==
            SetWorker(s, w, if !IsWebp(body) || Sha256(body) != job.sha then Failing(job) else Accepted(job, body))
  {
    Replace(s, w, Gathered(job, body), Failing(job));
    Replace(s, w, Gathered(job, body), Accepted(job, body));
  }

  lemma StoreNext(s: World, w: WorkerId, job: Job, body: Bytes, key: Key)
    ensures Next(SetWorker(s, w, Keyed(job, body, key)), StoreImage(w)) ==
            SetWorker(s.(objects := s.objects[key := body]), w, Stored(job, body, key))
  {
    Replace(s, w, Keyed(job, body, key), Stored(job, body, key));
  }

  lemma CommitNext(s: World, w: WorkerId, job: Job, body: Bytes, key: Key, admitted: bool, heard: bool)
    ensures Next(SetWorker(s, w, Stored(job, body, key)), Commit(w, admitted, heard)) ==
            if Commits(s, job, body, admitted) then
              SetWorker(
                SetStatus(s, job.upload, Completing, Complete)
                .(storedBytes := s.storedBytes + |body|,
                  receipts := s.receipts[job.receipt := Receipt(Device, key, |body|, Sha256(body), false)],
                  receivedAudits := s.receivedAudits + [job.receipt],
                  outbox := s.outbox + [job.receipt]),
                w, if heard then Tidying(job, 0, true) else Misled(job, key))
            else SetWorker(s, w, Undoing(job, key))
  {
    Replace(s, w, Stored(job, body, key), Undoing(job, key));
    Replace(s, w, Stored(job, body, key), Tidying(job, 0, true));
    Replace(s, w, Stored(job, body, key), Misled(job, key));
  }

  lemma UndoNext(s: World, w: WorkerId, job: Job, key: Key, d: Deletion)
    requires w !in s.workers
    ensures Next(SetWorker(s, w, Undoing(job, key)), Undo(w, d)) ==
            SetWorker(s.(objects := AfterDeletion(s.objects, key, d)), w, Reopening(job))
    ensures Next(SetWorker(s, w, Misled(job, key)), Undo(w, d)) == s.(objects := AfterDeletion(s.objects, key, d))
  {
    hide AfterDeletion;
    Replace(s, w, Undoing(job, key), Reopening(job));
    Replace(s, w, Misled(job, key), Misled(job, key));
  }

  lemma CloseNext(s: World, w: WorkerId, job: Job)
    requires w !in s.workers
    ensures Next(SetWorker(s, w, Reopening(job)), Reopen(w)) == SetStatus(s, job.upload, Completing, Open)
    ensures Next(SetWorker(s, w, Failing(job)), Fail(w)) == SetStatus(s, job.upload, Completing, Failed)
  {
    Replace(s, w, Reopening(job), Reopening(job));
    Replace(s, w, Failing(job), Failing(job));
  }

  lemma TidyNext(s: World, w: WorkerId, job: Job, i: nat, clean: bool, d: Deletion)
    requires w !in s.workers
    ensures i < |job.rows| ==>
              Next(SetWorker(s, w, Tidying(job, i, clean)), Tidy(w, d)) ==
              SetWorker(s.(objects := AfterDeletion(s.objects, PartKey(job.upload, job.rows[i].number), d)),
                        w, Tidying(job, i + 1, clean && d.Deleted?))
    ensures i >= |job.rows| ==>
              Next(SetWorker(s, w, Tidying(job, i, clean)), Tidy(w, d)) == if clean then ClearRows(s, job.upload) else s
  {
    hide AfterDeletion;
    Replace(s, w, Tidying(job, i, clean), Tidying(job, i + 1, clean && d.Deleted?));
  }

  lemma LookupPart(objects: map<Key, Bytes>, u: UploadId, n: nat)
    ensures Lookup(PartObjects(objects, u), n) == if PartKey(u, n) in objects then Some(objects[PartKey(u, n)]) else None
  {
  }

  /** One round of the reassembly loop, or the length test after the last one. */
  lemma ReadNext(s: World, w: WorkerId, job: Job, i: nat, combined: Bytes, stored: Option<Bytes>)
    requires i < |job.rows| ==> stored == ReadObject(s, PartKey(job.upload, job.rows[i].number))
    ensures i < |job.rows| ==>
              Next(SetWorker(s, w, Reading(job, i, combined)), ReadPart(w)) ==
              match GatherOne(job.rows[i], stored, combined)
              case Some(grown) => SetWorker(s, w, Reading(job, i + 1, grown))
              case None => SetWorker(s, w, Reopening(job))
    ensures i >= |job.rows| ==>
              Next(SetWorker(s, w, Reading(job, i, combined)), ReadPart(w)) ==
              SetWorker(s, w, if |combined| != job.total then Reopening(job) else Gathered(job, combined))
  {
    var now := SetWorker(s, w, Reading(job, i, combined));
    Replace(s, w, Reading(job, i, combined), Reopening(job));
    if i < |job.rows| {
      assert ReadObject(now, PartKey(job.upload, job.rows[i].number)) == stored;
      match GatherOne(job.rows[i], stored, combined)
      case Some(grown) => Replace(s, w, Reading(job, i, combined), Reading(job, i + 1, grown));
      case None =>
    } else {
      Replace(s, w, Reading(job, i, combined), Gathered(job, combined));
    }
  }

  /** How many of a pass's cleanups went through. */
  function Cleaned(actions: seq<Action>): nat {
    if actions == [] then 0
    else Cleaned(actions[..|actions| - 1]) + if actions[|actions| - 1].CleanUp? && actions[|actions| - 1].all then 1 else 0
  }

  function Trues(ds: seq<Deletion>): nat {
    if ds == [] then 0 else Trues(ds[..|ds| - 1]) + if ds[|ds| - 1].Deleted? then 1 else 0
  }

  lemma {:induction false} CleanedIs(actions: seq<Action>)
    ensures Cleaned(actions) == |set i | 0 <= i < |actions| && actions[i].CleanUp? && actions[i].all|
    decreases |actions|
  {
    if actions != [] {
      var n, init := |actions| - 1, actions[..|actions| - 1];
      CleanedIs(init);
      var before := set i | 0 <= i < |init| && init[i].CleanUp? && init[i].all;
      var after := set i | 0 <= i < |actions| && actions[i].CleanUp? && actions[i].all;
      assert after == before + if actions[n].CleanUp? && actions[n].all then {n} else {};
    }
  }

  lemma {:induction false} TruesIs(ds: seq<Deletion>)
    ensures Trues(ds) == |set i | 0 <= i < |ds| && ds[i].Deleted?|
    decreases |ds|
  {
    if ds != [] {
      var n, init := |ds| - 1, ds[..|ds| - 1];
      TruesIs(init);
      var before := set i | 0 <= i < |init| && init[i].Deleted?;
      var after := set i | 0 <= i < |ds| && ds[i].Deleted?;
      assert after == before + if ds[n].Deleted? then {n} else {};
    }
  }

  function RetireActions(w: WorkerId, r: ReceiptId, d: Deletion): seq<Action> {
    [SelectForRetention(w, r), DeleteImage(w, d)] + if d.Deleted? then [MarkDeleted(w)] else []
  }

  function RetentionActions(w: WorkerId, images: seq<ReceiptId>, works: seq<Deletion>): seq<Action>
    requires |works| == |images|
  {
    if images == [] then []
    else
      var n := |images| - 1;
      RetentionActions(w, images[..n], works[..n]) + RetireActions(w, images[n], works[n])
  }

  lemma RetentionActionsAppend(w: WorkerId, images: seq<ReceiptId>, works: seq<Deletion>, i: nat)
    requires |works| == |images| && i < |images|
    ensures RetentionActions(w, images[..i + 1], works[..i + 1]) ==
            RetentionActions(w, images[..i], works[..i]) + RetireActions(w, images[i], works[i])
  {
    assert images[..i + 1][..i] == images[..i] && works[..i + 1][..i] == works[..i];
  }

  lemma SelectNext(s: World, w: WorkerId, r: ReceiptId)
    requires w !in s.workers && r in s.receipts && !s.receipts[r].imageDeleted
    ensures Next(s, SelectForRetention(w, r)) ==
            SetWorker(s.(tombstones := s.tombstones + {r}), w, Retiring(r, s.receipts[r].imageKey))
  {
  }

  lemma DeleteNext(s: World, w: WorkerId, r: ReceiptId, key: Key, d: Deletion)
    requires w !in s.workers
    ensures Next(SetWorker(s, w, Retiring(r, key)), DeleteImage(w, d)) ==
            if d.Deleted? then SetWorker(s.(objects := s.objects - {key}), w, Retired(r))
            else s.(objects := AfterDeletion(s.objects, key, d))
  {
    Replace(s, w, Retiring(r, key), Retired(r));
  }

  lemma MarkNext(s: World, w: WorkerId, r: ReceiptId)
    requires w !in s.workers && r in s.receipts && !s.receipts[r].imageDeleted
    ensures Next(SetWorker(s, w, Retired(r)), MarkDeleted(w)) ==
            s.(receipts := s.receipts[r := s.receipts[r].(imageDeleted := true)],
               storedBytes := Refund(s.storedBytes, s.receipts[r].imageBytes))
  {
    var marked := s.(receipts := s.receipts[r := s.receipts[r].(imageDeleted := true)],
                     storedBytes := Refund(s.storedBytes, s.receipts[r].imageBytes));
    Replace(s, w, Retired(r), Retired(r));
    Replace(marked, w, Retired(r), Retired(r));
  }

  /** The state after one image of a retention pass. */
  lemma RetireNext(s: World, w: WorkerId, r: ReceiptId, d: Deletion)
    requires w !in s.workers && r in s.receipts && !s.receipts[r].imageDeleted
    ensures
      var x := s.receipts[r];
      var t := s.(tombstones := s.tombstones + {r}, objects := AfterDeletion(s.objects, x.imageKey, d));
      Run(s, RetireActions(w, r, d)) ==
      if d.Deleted? then t.(receipts := s.receipts[r := x.(imageDeleted := true)], storedBytes := Refund(s.storedBytes, x.imageBytes)) else t
  {
    hide Run, Next, SetWorker;
    var x := s.receipts[r];
    var t := s.(tombstones := s.tombstones + {r});
    var select, delete, mark := SelectForRetention(w, r), DeleteImage(w, d), MarkDeleted(w);
    RunNothing(s);
    RunAppend(s, [], select);
    RunAppend(s, [select], delete);
    RunAppend(s, [select, delete], mark);
    assert [] + [select] == [select] && [select] + [delete] == [select, delete];
    assert [select, delete] + [mark] == [select, delete, mark];
    SelectNext(s, w, r);
    DeleteNext(t, w, r, x.imageKey, d);
    if d.Deleted? {
      MarkNext(t.(objects := s.objects - {x.imageKey}), w, r);
      assert RetireActions(w, r, d) == [select, delete, mark];
    } else {
      assert RetireActions(w, r, d) == [select, delete];
    }
  }

  lemma PurgeNext(s: World, ids: set<ReceiptId>)
    ensures Next(s, Purge(ids)) == PurgeStep(s, ids)
  {
  }

  /** Nothing is left to clean up of session `u`. */
  ghost predicate Swept(s: World, u: UploadId) {
    u in s.sessions ==>
      && s.sessions[u].status !in {Open, Completing}
      && (s.sessions[u].status == Complete ==> s.sessions[u].rows == map[])
  }

  lemma CleanUpNext(s: World, u: UploadId, dropped: set<nat>, final: bool, all: bool)
    ensures Next(s, CleanUp(u, dropped, final, all)) == CleanUpStep(s, u, dropped, final, all)
    ensures all ==> Swept(CleanUpStep(s, u, dropped, final, all), u)
    ensures forall v :: Swept(s, v) ==> Swept(CleanUpStep(s, u, dropped, final, all), v)
  {
    hide LostKeys, CleanupKeys;
  }

  class UploadService {
    var issued: set<UploadId>
    var sessions: map<UploadId, Session>
    var objects: map<Key, Bytes>
    var receipts: map<ReceiptId, Receipt>
    var receivedAudits: seq<ReceiptId>
    var outbox: seq<ReceiptId>
    var tombstones: set<ReceiptId>
    var storedBytes: int
    const storageLimit: nat
    ghost var others: map<WorkerId, Worker>

    constructor (storageLimit: nat)
      ensures Model() == Init(storageLimit)
    {
      this.storageLimit := storageLimit;
      issued, sessions, objects, receipts := {}, map[], map[], map[];
      receivedAudits, outbox, tombstones, storedBytes := [], [], {}, 0;
      others := map[];
    }

    ghost function Model(): World
      reads this
    {
      World(issued, sessions, objects, receipts, receivedAudits, outbox, tombstones, storedBytes, storageLimit, others)
    }

    /** The state while call `w` is at point `x`. */
    ghost function With(w: WorkerId, x: Worker): World
      reads this
    {
      SetWorker(Model(), w, x)
    }

    method SetUploadStatus(u: UploadId, expected: Status, next: Status)
      modifies this`sessions
      ensures Model() == SetStatus(old(Model()), u, expected, next)
    {
      if u in sessions && sessions[u].status == expected {
        sessions := sessions[u := sessions[u].(status := next)];
      }
    }

    /** One part upload: the answer follows the checks in order, and the state moves as by its
        three actions (check, store the object, insert the row). `expired` says that the session's time
        is over, which only part uploads mind. */
    method PutUploadPart(ghost w: WorkerId, u: UploadId, n: int, body: Bytes, declared: Digest, expired: bool)
      returns (answer: PutAnswer)
      requires w !in others && !PutLocked(Model(), u, n)
      modifies this`sessions, this`objects
      ensures answer == if expired then PartRefused(UploadNotOpen) else PutVerdictOf(old(Model()), u, n, body, declared)
      ensures Model() == if expired then old(Model()) else Run(old(Model()), [BeginPut(w, u, n, body, declared), StorePart(w), InsertPart(w)])
      ensures answer == PartRefused(UploadNotOpen) <==> expired || !old(u in sessions && sessions[u].status == Open)
      ensures !expired && old(u in sessions && sessions[u].status == Open) ==>
                var x := old(sessions)[u];
                var inRange := 0 <= n && n * 256000 < x.total;
                var fits := inRange && |body| == if x.total - n * 256000 < 256000 then x.total - n * 256000 else 256000;
                var intact := fits && Sha256(body) == declared;
                var agrees := intact && (n in x.rows ==> x.rows[n].sha == declared && x.rows[n].length == |body|);
                && (answer == PartRefused(PartOutOfRange) <==> !inRange)
                && (answer == PartRefused(PartLengthMismatch) <==> inRange && !fits)
                && (answer == PartRefused(PartChecksumMismatch) <==> fits && !intact)
                && (answer == PartRefused(PartConflict) <==> intact && !agrees)
                && (answer == PartAccepted <==> agrees)
                && (agrees && n !in x.rows ==>
                      && objects == old(objects)[PartKey(u, n) := body]
                      && sessions == old(sessions)[u := x.(rows := x.rows[n := PartRow(n, n * 256000, |body|, declared)])])
      ensures !answer.PartAccepted? || n in old(sessions)[u].rows ==> sessions == old(sessions) && objects == old(objects)
    {
      if u in sessions {
        CheckPutCases(sessions[u].rows, sessions[u].total, n, body, declared);
      }
      hide Run, CheckPut;
      if expired || u !in sessions || sessions[u].status != Open {
        if !expired {
          PutRefused(Model(), w, u, n, body, declared);
        }
        return PartRefused(UploadNotOpen);
      }
      var session := sessions[u];
      match CheckPut(session.rows, session.total, n, body, declared)
      case Refuse(error) =>
        PutRefused(Model(), w, u, n, body, declared);
        answer := PartRefused(error);
      case AlreadyStored =>
        PutRefused(Model(), w, u, n, body, declared);
        answer := PartAccepted;
      case Store =>
        PutStores(Model(), w, u, n, body, declared);
        objects := objects[PartKey(u, n) := body];
        sessions := sessions[u := session.(rows := session.rows[n := NewRow(n, body)])];
        answer := PartAccepted;
    }

    /** The reassembly loop: one object read a round. */
    method AssembleParts(ghost w: WorkerId, job: Job) returns (body: Option<Bytes>, ghost trace: seq<Action>)
      ensures body == match Gather(job.rows, PartObjects(objects, job.upload), [])
                      case Some(b) => if |b| == job.total then Some(b) else None
                      case None => None
      ensures Run(With(w, Reading(job, 0, [])), trace) ==
              With(w, if body.Some? then Gathered(job, body.value) else Reopening(job))
    {
      hide Run, Next, SetWorker;
      ghost var start := With(w, Reading(job, 0, []));
      var combined: Bytes := [];
      var i := 0;
      trace := [];
      RunNothing(start);
      ghost var parts := PartObjects(objects, job.upload);
      while i < |job.rows|
        invariant 0 <= i <= |job.rows|
        invariant Gather(job.rows, parts, []) == Gather(job.rows[i..], parts, combined)
        invariant Run(start, trace) == With(w, Reading(job, i, combined))
      {
        var part := job.rows[i];
        assert job.rows[i..][0] == part && job.rows[i..][1..] == job.rows[i + 1..];
        var key := PartKey(job.upload, part.number);
        var stored := if key in objects then Some(objects[key]) else None;
        LookupPart(objects, job.upload, part.number);
        RunAppend(start, trace, ReadPart(w));
        ReadNext(Model(), w, job, i, combined, stored);
        trace := trace + [ReadPart(w)];
        match GatherOne(part, stored, combined)
        case None =>
          return None, trace;
        case Some(grown) =>
          combined := grown;
          i := i + 1;
      }
      RunAppend(start, trace, ReadPart(w));
      ReadNext(Model(), w, job, i, combined, None);
      trace := trace + [ReadPart(w)];
      body := if |combined| == job.total then Some(combined) else None;
    }

    ghost predicate AllDeleted(job: Job, deletes: Key -> Deletion) {
      forall i :: 0 <= i < |job.rows| ==> deletes(PartKey(job.upload, job.rows[i].number)).Deleted?
    }

    /** After COMPLETE: the part objects go one by one, and the rows if every delete worked. */
    method TidyParts(ghost w: WorkerId, job: Job, deletes: Key -> Deletion) returns (ghost trace: seq<Action>)
      requires w !in others
      modifies this`sessions, this`objects
      ensures Run(old(With(w, Tidying(job, 0, true))), trace) == Model()
      ensures forall k :: k in old(objects) && k.ImageKey? ==> k in objects && objects[k] == old(objects)[k]
      ensures objects.Keys <= old(objects).Keys
      ensures forall i :: 0 <= i < |job.rows| && !deletes(PartKey(job.upload, job.rows[i].number)).Kept? ==>
                PartKey(job.upload, job.rows[i].number) !in objects
      ensures sessions ==
              if job.upload in old(sessions) && AllDeleted(job, deletes)
              then old(sessions)[job.upload := old(sessions)[job.upload].(rows := map[])] else old(sessions)
    {
      hide Run;
      hide Next;
      ghost var start := With(w, Tidying(job, 0, true));
      var clean := true;
      var i := 0;
      trace := [];
      RunNothing(start);
      while i < |job.rows|
        invariant 0 <= i <= |job.rows|
        invariant sessions == old(sessions)
        invariant forall k :: k in old(objects) && k.ImageKey? ==> k in objects && objects[k] == old(objects)[k]
        invariant objects.Keys <= old(objects).Keys
        invariant forall j :: 0 <= j < i && !deletes(PartKey(job.upload, job.rows[j].number)).Kept? ==>
                    PartKey(job.upload, job.rows[j].number) !in objects
        invariant clean <==> forall j :: 0 <= j < i ==> deletes(PartKey(job.upload, job.rows[j].number)).Deleted?
        invariant Run(start, trace) == With(w, Tidying(job, i, clean))
      {
        var key := PartKey(job.upload, job.rows[i].number);
        var d := deletes(key);
        RunAppend(start, trace, Tidy(w, d));
        trace := trace + [Tidy(w, d)];
        TidyNext(Model(), w, job, i, clean, d);
        if Removes(d) {
          objects := objects - {key};
        }
        if !d.Deleted? {
          clean := false;
        }
        i := i + 1;
      }
      RunAppend(start, trace, Tidy(w, Deleted));
      trace := trace + [Tidy(w, Deleted)];
      TidyNext(Model(), w, job, i, clean, Deleted);
      if clean && job.upload in sessions {
        sessions := sessions[job.upload := sessions[job.upload].(rows := map[])];
      }
    }

    /** The transaction that records the final key, while the session is still COMPLETING. */
    method RecordFinalKey(ghost w: WorkerId, job: Job, body: Bytes, day: Day)
      modifies this`sessions
      ensures With(w, Keyed(job, body, ImageKey(day, job.receipt))) == Next(old(With(w, Accepted(job, body))), RecordKey(w, day))
      ensures old(job.upload in sessions && sessions[job.upload].status == Completing) ==>
                sessions == old(sessions)[job.upload := old(sessions)[job.upload].(finalKey := Some(ImageKey(day, job.receipt)))]
    {
      Replace(Model(), w, Accepted(job, body), Keyed(job, body, ImageKey(day, job.receipt)));
      if job.upload in sessions && sessions[job.upload].status == Completing {
        sessions := sessions[job.upload := sessions[job.upload].(finalKey := Some(ImageKey(day, job.receipt)))];
      }
    }

    /** The receipt transaction: all of it, or an exception and none of it; whether its answer comes
        through (`heard`) makes no difference to it. */
    method CommitReceipt(ghost w: WorkerId, job: Job, body: Bytes, key: Key, admitted: bool, heard: bool) returns (committed: bool)
      modifies this`sessions, this`receipts, this`receivedAudits, this`outbox, this`storedBytes
      ensures committed == Commits(old(Model()), job, body, admitted)
      ensures With(w, if !committed then Undoing(job, key) else if heard then Tidying(job, 0, true) else Misled(job, key)) ==
              Next(old(With(w, Stored(job, body, key))), Commit(w, admitted, heard))
      ensures sessions == if committed then old(sessions)[job.upload := old(sessions)[job.upload].(status := Complete)] else old(sessions)
      ensures committed <==>
                && old(job.upload in sessions && sessions[job.upload].status == Completing)
                && admitted && 10 * (old(storedBytes) + |body|) <= 9 * storageLimit
                && old(job.receipt !in receipts && job.receipt !in outbox)
      ensures committed ==>
                && receipts == old(receipts)[job.receipt := Receipt(Device, key, |body|, Sha256(body), false)]
                && receivedAudits == old(receivedAudits) + [job.receipt] && outbox == old(outbox) + [job.receipt]
                && storedBytes == old(storedBytes) + |body|
      ensures !committed ==>
                receipts == old(receipts) && receivedAudits == old(receivedAudits) && outbox == old(outbox) && storedBytes == old(storedBytes)
    {
      hide Next;
      CommitNext(Model(), w, job, body, key, admitted, heard);
      committed := job.upload in sessions && sessions[job.upload].status == Completing && admitted
                   && storedBytes + |body| <= UploadLimit(storageLimit)
                   && job.receipt !in receipts && job.receipt !in outbox;
      if committed {
        storedBytes := storedBytes + |body|;
        receipts := receipts[job.receipt := Receipt(Device, key, |body|, Sha256(body), false)];
        receivedAudits := receivedAudits + [job.receipt];
        outbox := outbox + [job.receipt];
        sessions := sessions[job.upload := sessions[job.upload].(status := Complete)];
      }
    }

    /** The second half of a completion: final key, image object, receipt transaction, and then
        tidying up or, on an exception, the except branch. */
    method FileReceipt(ghost w: WorkerId, job: Job, body: Bytes, day: Day, admitted: bool, heard: bool, deletes: Key -> Deletion)
      returns (committed: bool, ghost trace: seq<Action>)
      requires w !in others
      requires job.upload in sessions && sessions[job.upload].status == Completing
      modifies this`sessions, this`objects, this`receipts, this`receivedAudits, this`outbox, this`storedBytes
      ensures committed == Commits(old(Model()), job, body, admitted)
      ensures Model() == Run(old(With(w, Accepted(job, body))), trace)
      ensures job.upload in sessions && sessions[job.upload].status == if committed then Complete else Open
      ensures sessions[job.upload].finalKey == Some(ImageKey(day, job.receipt))
      ensures committed ==>
                && receipts == old(receipts)[job.receipt := Receipt(Device, ImageKey(day, job.receipt), |body|, Sha256(body), false)]
                && receivedAudits == old(receivedAudits) + [job.receipt] && outbox == old(outbox) + [job.receipt]
                && storedBytes == old(storedBytes) + |body|
      ensures !committed ==>
                && receipts == old(receipts) && receivedAudits == old(receivedAudits) && outbox == old(outbox) && storedBytes == old(storedBytes)
                && sessions == old(sessions)[job.upload := old(sessions)[job.upload].(status := Open, finalKey := Some(ImageKey(day, job.receipt)))]
      ensures
        var key := ImageKey(day, job.receipt);
        committed ==> if !heard && Removes(deletes(key)) then key !in objects else key in objects && objects[key] == body
    {
      hide Run;
      hide Next;
      ghost var start := With(w, Accepted(job, body));
      var key := ImageKey(day, job.receipt);
      RecordFinalKey(w, job, body, day);
      RunAppend(start, [], RecordKey(w, day));
      RunNothing(start);
      trace := [] + [RecordKey(w, day)];
      StoreNext(Model(), w, job, body, key);
      objects := objects[key := body];
      RunAppend(start, trace, StoreImage(w));
      trace := trace + [StoreImage(w)];
      RunAppend(start, trace, Commit(w, admitted, heard));
      trace := trace + [Commit(w, admitted, heard)];
      committed := CommitReceipt(w, job, body, key, admitted, heard);
      if committed && heard {
        ghost var more := TidyParts(w, job, deletes);
        RunConcat(start, trace, more);
        trace := trace + more;
      } else {
        ghost var more := ExceptBranch(w, job, key, committed, deletes(key));
        RunConcat(start, trace, more);
        trace := trace + more;
      }
    }

    /** The except branch: delete the final object, and back to OPEN where the session is still
        COMPLETING. It cannot tell whether the transaction had gone through (`committed`). */
    method ExceptBranch(ghost w: WorkerId, job: Job, key: Key, ghost committed: bool, d: Deletion) returns (ghost trace: seq<Action>)
      requires w !in others && job.upload in sessions
      requires sessions[job.upload].status == if committed then Complete else Completing
      modifies this`sessions, this`objects
      ensures Model() == Run(old(With(w, if committed then Misled(job, key) else Undoing(job, key))), trace)
      ensures sessions == old(sessions)[job.upload := old(sessions)[job.upload].(status := if committed then Complete else Open)]
      ensures objects == AfterDeletion(old(objects), key, d)
    {
      hide Run, Next;
      ghost var start := With(w, if committed then Misled(job, key) else Undoing(job, key));
      RunNothing(start);
      RunAppend(start, [], Undo(w, d));
      trace := [] + [Undo(w, d)];
      UndoNext(Model(), w, job, key, d);
      if Removes(d) {
        objects := objects - {key};
      }
      if !committed {
        RunAppend(start, trace, Reopen(w));
        trace := trace + [Reopen(w)];
        CloseNext(Model(), w, job);
      }
      assert sessions[job.upload := sessions[job.upload]] == sessions;
      SetUploadStatus(job.upload, Completing, Open);
    }

    /** A completion from the reassembled body on. */
    method JudgeBody(ghost w: WorkerId, job: Job, body: Bytes, day: Day, admitted: bool, heard: bool, deletes: Key -> Deletion)
      returns (answer: CompleteAnswer, ghost trace: seq<Action>)
      requires w !in others && |body| == job.total
      requires job.upload in sessions && sessions[job.upload].status == Completing
      requires sessions[job.upload].receipt == job.receipt && sessions[job.upload].total == job.total && sessions[job.upload].sha == job.sha
      modifies this`sessions, this`objects, this`receipts, this`receivedAudits, this`outbox, this`storedBytes
      ensures answer == BodyVerdict(old(Model()), old(sessions[job.upload]), body, admitted, heard)
      ensures Model() == Run(old(With(w, Gathered(job, body))), trace)
      ensures answer.InvalidImage? || answer.ChecksumMismatch? ==> Model() == SetStatus(old(Model()), job.upload, Completing, Failed)
      ensures answer.NotAdmitted? ==>
                && receipts == old(receipts) && receivedAudits == old(receivedAudits) && outbox == old(outbox) && storedBytes == old(storedBytes)
                && sessions == old(sessions)[job.upload := old(sessions)[job.upload].(status := Open, finalKey := Some(ImageKey(day, job.receipt)))]
      ensures answer.Received? || answer.AnswerLost? ==>
                && receipts == old(receipts)[job.receipt := Receipt(Device, ImageKey(day, job.receipt), job.total, job.sha, false)]
                && receivedAudits == old(receivedAudits) + [job.receipt] && outbox == old(outbox) + [job.receipt]
                && storedBytes == old(storedBytes) + job.total
      ensures answer.Received? ==> ReceivedAs(Model(), job.upload, ImageKey(day, job.receipt), job.sha)
      ensures answer.AnswerLost? ==> LostAs(Model(), job.upload, ImageKey(day, job.receipt), job.sha, deletes(ImageKey(day, job.receipt)))
    {
      hide Run;
      hide Next;
      ghost var start := With(w, Gathered(job, body));
      RunNothing(start);
      RunAppend(start, [], Inspect(w));
      trace := [] + [Inspect(w)];
      InspectNext(Model(), w, job, body);
      if !IsWebp(body) || Sha256(body) != job.sha {
        RunAppend(start, trace, Fail(w));
        trace := trace + [Fail(w)];
        CloseNext(Model(), w, job);
        SetUploadStatus(job.upload, Completing, Failed);
        answer := if !IsWebp(body) then InvalidImage else ChecksumMismatch;
      } else {
        ghost var more;
        var committed;
        committed, more := FileReceipt(w, job, body, day, admitted, heard, deletes);
        RunConcat(start, trace, more);
        trace := trace + more;
        answer := if !committed then NotAdmitted else if heard then Received(job.receipt) else AnswerLost;
      }
    }

    /** A completion up to the reassembled body: claim the OPEN session and read its parts. */
    method ClaimAndAssemble(ghost w: WorkerId, u: UploadId) returns (body: Option<Bytes>, ghost trace: seq<Action>)
      requires w !in others && u in sessions && sessions[u].status == Open
      modifies this`sessions
      ensures Model() == SetStatus(old(Model()), u, Open, Completing)
      ensures body == Assembled(PartStore(old(sessions)[u].rows, PartObjects(objects, u)), old(sessions)[u].total)
      ensures
        var job := JobFor(u, old(sessions)[u]);
        Run(old(Model()), trace) == With(w, if body.Some? then Gathered(job, body.value) else Reopening(job))
    {
      hide Run;
      hide Next;
      ghost var start := Model();
      var session := sessions[u];
      var job := JobFor(u, session);
      ClaimNext(start, w, u);
      RunNothing(start);
      RunAppend(start, [], Claim(w, u));
      trace := [] + [Claim(w, u)];
      SetUploadStatus(u, Open, Completing);
      ghost var more;
      body, more := AssembleParts(w, job);
      RunConcat(start, trace, more);
      trace := trace + more;
    }

    /** A completion of an OPEN session. */
    method CompleteOpenSession(ghost w: WorkerId, u: UploadId, day: Day, admitted: bool, heard: bool, deletes: Key -> Deletion)
      returns (answer: CompleteAnswer, ghost trace: seq<Action>)
      requires w !in others && u in sessions && sessions[u].status == Open
      modifies this`sessions, this`objects, this`receipts, this`receivedAudits, this`outbox, this`storedBytes
      ensures answer == Verdict(old(Model()), u, admitted, heard)
      ensures Model() == Run(old(Model()), trace)
      ensures answer.Incomplete? ==> Model() == old(Model())
      ensures answer.InvalidImage? || answer.ChecksumMismatch? ==> Model() == SetStatus(old(Model()), u, Open, Failed)
      ensures answer.NotAdmitted? ==>
                && u in old(sessions) && old(sessions)[u].status == Open
                && receipts == old(receipts) && receivedAudits == old(receivedAudits) && outbox == old(outbox) && storedBytes == old(storedBytes)
                && sessions == old(sessions)[u := old(sessions)[u].(finalKey := Some(ImageKey(day, old(sessions)[u].receipt)))]
      ensures answer.Received? || answer.AnswerLost? ==>
                && u in old(sessions)
                && var x := old(sessions)[u];
                   && receipts == old(receipts)[x.receipt := Receipt(Device, ImageKey(day, x.receipt), x.total, x.sha, false)]
                   && receivedAudits == old(receivedAudits) + [x.receipt] && outbox == old(outbox) + [x.receipt]
                   && storedBytes == old(storedBytes) + x.total
      ensures
        var x := old(sessions)[u];
        var key := ImageKey(day, x.receipt);
        (answer.Received? ==> answer.receipt == x.receipt && ReceivedAs(Model(), u, key, x.sha))
        && (answer.AnswerLost? ==> LostAs(Model(), u, key, x.sha, deletes(key)))
    {
      hide Run, Next, Assembled, Verdict, BodyVerdict, SetStatus, ReceivedAs, LostAs, OrderedRows;
      ghost var start := Model();
      ghost var job := JobFor(u, sessions[u]);
      OpenVerdict(start, u, admitted, heard);
      AssembledLength(PartStore(sessions[u].rows, PartObjects(objects, u)), sessions[u].total);
      var gathered;
      gathered, trace := ClaimAndAssemble(w, u);
      StatusTwice(start, u);
      if gathered.None? {
        RunAppend(start, trace, Reopen(w));
        trace := trace + [Reopen(w)];
        CloseNext(Model(), w, job);
        SetUploadStatus(u, Completing, Open);
        answer := Incomplete;
      } else {
        ghost var more;
        BodyAnswers(Model(), sessions[u], gathered.value, admitted, heard);
        OpenAgain(start.sessions, u, ImageKey(day, job.receipt));
        answer, more := JudgeBody(w, JobFor(u, sessions[u]), gathered.value, day, admitted, heard, deletes);
        RunConcat(start, trace, more);
        trace := trace + more;
      }
    }

    /** One completion call, undisturbed: what it answers, and the run of the machine it amounts to. */
    method CompleteUploadSession(ghost w: WorkerId, u: UploadId, day: Day, admitted: bool, heard: bool, deletes: Key -> Deletion)
      returns (answer: CompleteAnswer, ghost trace: seq<Action>)
      requires w !in others
      modifies this`sessions, this`objects, this`receipts, this`receivedAudits, this`outbox, this`storedBytes
      ensures answer == Verdict(old(Model()), u, admitted, heard)
      ensures Model() == Run(old(Model()), trace)
      ensures answer.NotOpen? || answer.Duplicate? || answer.Incomplete? ==> Model() == old(Model())
      ensures answer.InvalidImage? || answer.ChecksumMismatch? ==> Model() == SetStatus(old(Model()), u, Open, Failed)
      ensures answer.NotAdmitted? ==>
                && u in old(sessions) && old(sessions)[u].status == Open
                && receipts == old(receipts) && receivedAudits == old(receivedAudits) && outbox == old(outbox) && storedBytes == old(storedBytes)
                && sessions == old(sessions)[u := old(sessions)[u].(finalKey := Some(ImageKey(day, old(sessions)[u].receipt)))]
      ensures answer.Received? || answer.AnswerLost? ==>
                && u in old(sessions)
                && var x := old(sessions)[u];
                   && receipts == old(receipts)[x.receipt := Receipt(Device, ImageKey(day, x.receipt), x.total, x.sha, false)]
                   && receivedAudits == old(receivedAudits) + [x.receipt] && outbox == old(outbox) + [x.receipt]
                   && storedBytes == old(storedBytes) + x.total
      ensures answer.Received? ==> u in old(sessions) && ReceivedAs(Model(), u, ImageKey(day, answer.receipt), old(sessions)[u].sha)
      ensures answer.AnswerLost? ==>
                u in old(sessions)
                && var key := ImageKey(day, old(sessions)[u].receipt); LostAs(Model(), u, key, old(sessions)[u].sha, deletes(key))
    {
      ghost var start := Model();
      if u !in sessions || sessions[u].status != Open {
        answer := if u in sessions && sessions[u].status == Complete then Duplicate(sessions[u].receipt) else NotOpen;
        trace := [];
      } else {
        answer, trace := CompleteOpenSession(w, u, day, admitted, heard, deletes);
      }
    }

    /** The deletes of one session's part objects, up to the first that raises. */
    method DeleteParts(u: UploadId, numbers: set<nat>, deletes: Key -> Deletion) returns (cleaned: bool, ghost dropped: set<nat>)
      modifies this`objects
      ensures cleaned <==> forall n :: n in numbers ==> deletes(PartKey(u, n)).Deleted?
      ensures dropped <= numbers && (cleaned ==> dropped == numbers)
      ensures objects == old(objects) - PartKeys(u, dropped)
    {
      hide PartKeys;
      cleaned, dropped := true, {};
      var left := numbers;
      NothingDropped(objects, u);
      while left != {} && cleaned
        invariant dropped <= numbers && left <= numbers
        invariant cleaned ==> dropped == numbers - left && forall n :: n in dropped ==> deletes(PartKey(u, n)).Deleted?
        invariant !cleaned ==> exists n :: n in numbers && !deletes(PartKey(u, n)).Deleted?
        invariant objects == old(objects) - PartKeys(u, dropped)
        decreases if cleaned then |left| + 1 else 0
      {
        var n :| n in left;
        var d := deletes(PartKey(u, n));
        OneMoreKey(old(objects), u, dropped, n);
        if Removes(d) {
          objects := objects - {PartKey(u, n)};
          dropped := dropped + {n};
        }
        if d.Deleted? {
          left := left - {n};
        } else {
          cleaned := false;
        }
      }
    }

    /** The deletes of one session's cleanup: the part objects, then the final one. */
    method DeleteObjects(u: UploadId, numbers: set<nat>, final: Option<Key>, deletes: Key -> Deletion)
      returns (cleaned: bool, ghost dropped: set<nat>, ghost finalGone: bool)
      modifies this`objects
      ensures cleaned <==> (forall n :: n in numbers ==> deletes(PartKey(u, n)).Deleted?) && (final.Some? ==> deletes(final.value).Deleted?)
      ensures dropped <= numbers && (finalGone ==> dropped == numbers && final.Some?)
      ensures cleaned ==> dropped == numbers && (final.Some? ==> finalGone)
      ensures objects == old(objects) - PartKeys(u, dropped) - if finalGone then {final.value} else {}
    {
      hide PartKeys;
      finalGone := false;
      cleaned, dropped := DeleteParts(u, numbers, deletes);
      if cleaned && final.Some? {
        var d := deletes(final.value);
        if Removes(d) {
          objects := objects - {final.value};
          finalGone := true;
        }
        cleaned := d.Deleted?;
      }
    }

    lemma NothingDropped(objects: map<Key, Bytes>, u: UploadId)
      ensures objects - PartKeys(u, {}) == objects
    {
    }

    lemma OneMoreKey(objects: map<Key, Bytes>, u: UploadId, dropped: set<nat>, n: nat)
      ensures objects - PartKeys(u, dropped + {n}) == objects - PartKeys(u, dropped) - {PartKey(u, n)}
    {
      assert PartKeys(u, dropped + {n}) == PartKeys(u, dropped) + {PartKey(u, n)};
    }

    /** One session's cleanup, undisturbed: it is cleaned exactly if every delete worked, and is then
        closed, with none of its part objects left nor, unless it is COMPLETE, its final one. */
    method CleanupSession(u: UploadId, deletes: Key -> Deletion) returns (cleaned: bool, ghost action: Action)
      requires u in sessions && sessions[u].status in {Open, Completing, Complete}
      modifies this`sessions, this`objects
      ensures action.CleanUp? && action.u == u && action.all == cleaned && Model() == Next(old(Model()), action)
      ensures cleaned <==> forall k :: k in CleanupKeys(u, old(sessions)[u]) ==> deletes(k).Deleted?
      ensures cleaned ==> Swept(Model(), u) && objects.Keys !! CleanupKeys(u, old(sessions)[u])
      ensures cleaned ==>
                var x := old(sessions)[u];
                && sessions == old(sessions)[u := x.(rows := map[], status := if x.status == Complete then Complete else Expired)]
                && forall k :: k in objects <==>
                     && k in old(objects) && !(k.PartKey? && k.upload == u && k.number in x.rows)
                     && !(x.status != Complete && x.finalKey == Some(k))
      ensures !cleaned ==> sessions == old(sessions)
    {
      ghost var before := Model();
      var session := sessions[u];
      var final := if session.status != Complete then session.finalKey else None;
      ghost var dropped, finalGone;
      cleaned, dropped, finalGone := DeleteObjects(u, session.rows.Keys, final, deletes);
      KeysSplit(u, session, final, deletes);
      GoneKeys(before.objects, u, session, final, dropped, finalGone);
      action := CleanUp(u, dropped, finalGone, cleaned);
      CleanUpNext(before, u, dropped, finalGone, cleaned);
      hide CleanupKeys, PartKeys;
      if cleaned {
        sessions := sessions[u := session.(rows := map[], status := if session.status == Complete then Complete else Expired)];
      }
    }

    lemma KeysSplit(u: UploadId, x: Session, final: Option<Key>, deletes: Key -> Deletion)
      requires final == if x.status != Complete then x.finalKey else None
      ensures (forall k :: k in CleanupKeys(u, x) ==> deletes(k).Deleted?) <==>
              (forall n :: n in x.rows.Keys ==> deletes(PartKey(u, n)).Deleted?) && (final.Some? ==> deletes(final.value).Deleted?)
    {
      forall n | n in x.rows.Keys
        ensures PartKey(u, n) in CleanupKeys(u, x)
      {
      }
    }

    lemma GoneKeys(objects: map<Key, Bytes>, u: UploadId, x: Session, final: Option<Key>, dropped: set<nat>, finalGone: bool)
      requires final == if x.status != Complete then x.finalKey else None
      requires dropped <= x.rows.Keys && (finalGone ==> dropped == x.rows.Keys && final.Some?)
      ensures
        var after := objects - PartKeys(u, dropped) - if finalGone then {final.value} else {};
        && after == objects - LostKeys(u, x, dropped, finalGone)
        && (dropped == x.rows.Keys && (final.Some? ==> finalGone) ==> after == objects - CleanupKeys(u, x))
    {
      assert dropped * x.rows.Keys == dropped;
    }

    /** One cleanup pass over the selected sessions, each undisturbed; `deletes(i, k)` is what comes of
        deleting `k` for the i-th. */
    method CleanupOrphanUploads(selected: seq<UploadId>, deletes: (nat, Key) -> Deletion) returns (cleaned: nat, ghost actions: seq<Action>)
      requires forall i :: 0 <= i < |selected| ==> selected[i] in sessions && sessions[selected[i]].status in {Open, Completing, Complete}
      requires forall i, j :: 0 <= i < j < |selected| ==> selected[i] != selected[j]
      modifies this`sessions, this`objects
      ensures |actions| == |selected| && Model() == Run(old(Model()), actions)
      ensures forall i :: 0 <= i < |selected| ==> actions[i].CleanUp? && actions[i].u == selected[i]
      ensures forall i :: 0 <= i < |selected| ==>
                (actions[i].all <==> forall k :: k in CleanupKeys(selected[i], old(sessions)[selected[i]]) ==> deletes(i, k).Deleted?)
      ensures forall i :: 0 <= i < |selected| && actions[i].all ==> Swept(Model(), selected[i])
      ensures cleaned == |set i | 0 <= i < |actions| && actions[i].CleanUp? && actions[i].all|
    {
      hide Run, Next, Swept, CleanupKeys, PartKeys;
      ghost var start := Model();
      RunNothing(start);
      cleaned, actions := 0, [];
      var i := 0;
      while i < |selected|
        invariant 0 <= i == |actions| <= |selected| && cleaned == Cleaned(actions)
        invariant Model() == Run(start, actions)
        invariant forall j :: i <= j < |selected| ==> selected[j] in sessions && sessions[selected[j]] == old(sessions)[selected[j]]
        invariant forall j :: 0 <= j < i ==> actions[j].CleanUp? && actions[j].u == selected[j]
        invariant forall j :: 0 <= j < i ==>
                    (actions[j].all <==> forall k :: k in CleanupKeys(selected[j], old(sessions)[selected[j]]) ==> deletes(j, k).Deleted?)
        invariant forall j :: 0 <= j < i && actions[j].all ==> Swept(Model(), selected[j])
      {
        ghost var before := Model();
        var done;
        ghost var action;
        done, action := CleanupSession(selected[i], k => deletes(i, k));
        CleanUpKeeps(before, action);
        RunAppend(start, actions, action);
        assert (actions + [action])[..i] == actions;
        actions := actions + [action];
        if done {
          cleaned := cleaned + 1;
        }
        i := i + 1;
      }
      CleanedIs(actions);
    }

    lemma CleanUpKeeps(s: World, action: Action)
      requires action.CleanUp?
      ensures
        var t := Next(s, action);
        && (forall v :: Swept(s, v) ==> Swept(t, v))
        && (forall v :: v in s.sessions && v != action.u ==> v in t.sessions && t.sessions[v] == s.sessions[v])
    {
      CleanUpNext(s, action.u, action.dropped, action.final, action.all);
      hide LostKeys, CleanupKeys;
    }

    /** One image of a retention pass: tombstone, object delete, and on success the mark with its refund. */
    method RetireImage(ghost w: WorkerId, r: ReceiptId, d: Deletion)
      requires w !in others && r in receipts && !receipts[r].imageDeleted
      modifies this`objects, this`receipts, this`tombstones, this`storedBytes
      ensures Model() == Run(old(Model()), RetireActions(w, r, d))
      ensures receipts == if d.Deleted? then old(receipts)[r := old(receipts)[r].(imageDeleted := true)] else old(receipts)
      ensures forall k :: k in objects <==> k in old(objects) && (k != old(receipts)[r].imageKey || d.Kept?)
      ensures tombstones == old(tombstones) + {r}
      ensures
        var refunded := old(storedBytes) - old(receipts)[r].imageBytes;
        storedBytes == if !d.Deleted? then old(storedBytes) else if refunded < 0 then 0 else refunded
    {
      hide Run;
      ghost var start := Model();
      RetireNext(start, w, r, d);
      var receipt := receipts[r];
      tombstones := tombstones + {r};
      if Removes(d) {
        objects := objects - {receipt.imageKey};
      }
      if d.Deleted? {
        receipts := receipts[r := receipt.(imageDeleted := true)];
        storedBytes := if storedBytes - receipt.imageBytes < 0 then 0 else storedBytes - receipt.imageBytes;
      }
    }

    lemma NothingRetired(w: WorkerId)
      ensures RetentionActions(w, [], []) == [] && Trues([]) == 0
    {
    }

    lemma TruesGrow(works: seq<Deletion>, i: nat)
      requires i < |works|
      ensures Trues(works[..i + 1]) == Trues(works[..i]) + if works[i].Deleted? then 1 else 0
    {
      assert works[..i + 1][..i] == works[..i];
    }

    /** The selected images of a retention pass one by one (`works[i]`: what came of the
        object delete). */
    method RetireImages(ghost w: WorkerId, images: seq<ReceiptId>, works: seq<Deletion>) returns (deletedImages: nat)
      requires w !in others && |works| == |images|
      requires forall i :: 0 <= i < |images| ==> images[i] in receipts && !receipts[images[i]].imageDeleted
      requires forall i, j :: 0 <= i < j < |images| ==> images[i] != images[j]
      modifies this`objects, this`receipts, this`tombstones, this`storedBytes
      ensures Model() == Run(old(Model()), RetentionActions(w, images, works))
      ensures deletedImages == Trues(works)
      ensures receipts.Keys == old(receipts).Keys
      ensures forall r :: r in receipts ==>
                (receipts[r].imageDeleted <==> old(receipts)[r].imageDeleted || exists i :: 0 <= i < |images| && images[i] == r && works[i].Deleted?)
      ensures forall k :: k in objects <==>
                k in old(objects) && forall i :: 0 <= i < |images| && !works[i].Kept? ==> old(receipts)[images[i]].imageKey != k
      ensures forall r :: r in tombstones <==> r in old(tombstones) || r in images
    {
      hide Run, Next, RetireActions, RetentionActions, Trues, AfterDeletion;
      ghost var start := Model();
      RunNothing(start);
      NothingRetired(w);
      deletedImages := 0;
      var i := 0;
      assert images[..0] == [] && works[..0] == [];
      while i < |images|
        invariant 0 <= i <= |images| && deletedImages == Trues(works[..i])
        invariant Model() == Run(start, RetentionActions(w, images[..i], works[..i]))
        invariant receipts.Keys == old(receipts).Keys
        invariant forall j :: i <= j < |images| ==> !receipts[images[j]].imageDeleted
        invariant forall r :: r in receipts ==> receipts[r].imageKey == old(receipts)[r].imageKey
        invariant forall k :: k in objects <==>
                    k in old(objects) && forall j :: 0 <= j < i && !works[j].Kept? ==> old(receipts)[images[j]].imageKey != k
        invariant forall r :: r in tombstones <==> r in old(tombstones) || r in images[..i]
        invariant forall r :: r in receipts ==>
                    (receipts[r].imageDeleted <==> old(receipts)[r].imageDeleted || exists j :: 0 <= j < i && images[j] == r && works[j].Deleted?)
      {
        RetentionActionsAppend(w, images, works, i);
        RunConcat(start, RetentionActions(w, images[..i], works[..i]), RetireActions(w, images[i], works[i]));
        RetireImage(w, images[i], works[i]);
        TruesGrow(works, i);
        assert images[..i + 1] == images[..i] + [images[i]];
        if works[i].Deleted? {
          deletedImages := deletedImages + 1;
        }
        i := i + 1;
      }
      assert images[..i] == images && works[..i] == works;
    }

    /** One retention pass: the selected images, then the purge of the receipts older than a year. */
    method ApplyRetention(ghost w: WorkerId, images: seq<ReceiptId>, works: seq<Deletion>, expired: set<ReceiptId>)
      returns (deletedImages: nat, expiredCount: nat)
      requires w !in others && |works| == |images|
      requires forall i :: 0 <= i < |images| ==> images[i] in receipts && !receipts[images[i]].imageDeleted
      requires forall i, j :: 0 <= i < j < |images| ==> images[i] != images[j]
      requires expired <= receipts.Keys
      modifies this`sessions, this`objects, this`receipts, this`receivedAudits, this`outbox, this`tombstones, this`storedBytes
      ensures Model() == Run(old(Model()), RetentionActions(w, images, works) + [Purge(expired)])
      ensures deletedImages == (|set i | 0 <= i < |works| && works[i].Deleted?|) && expiredCount == |expired|
      ensures receipts.Keys == old(receipts).Keys - expired
      ensures forall r :: r in receipts ==>
                (receipts[r].imageDeleted <==> old(receipts)[r].imageDeleted || exists i :: 0 <= i < |images| && images[i] == r && works[i].Deleted?)
      ensures forall k :: k in objects <==>
                k in old(objects) && forall i :: 0 <= i < |images| && !works[i].Kept? ==> old(receipts)[images[i]].imageKey != k
      ensures forall r :: r in tombstones <==> r in old(tombstones) || r in images
      ensures sessions == map u | u in old(sessions) && old(sessions)[u].receipt !in expired :: old(sessions)[u]
    {
      hide Run, Next, RetentionActions, Trues;
      ghost var start := Model();
      TruesIs(works);
      deletedImages := RetireImages(w, images, works);
      RunAppend(start, RetentionActions(w, images, works), Purge(expired));
      PurgeNext(Model(), expired);
      receivedAudits := Without(receivedAudits, expired);
      outbox := Without(outbox, expired);
      sessions := map u | u in sessions && sessions[u].receipt !in expired :: sessions[u];
      receipts := receipts - expired;
      expiredCount := |expired|;
    }
  }
}
