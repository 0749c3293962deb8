/** The resumable-upload service as a state machine: database rows, stored objects and the
    calls in flight. Every database transaction and every object-store request is one action;
    a crash or another call can come between any two of them. */
module UploadWorld {
  import opened Options
  import opened Reassembly

  type UploadId = nat
  type ReceiptId = nat
  type WorkerId = nat
  type Day = nat

  datatype Key =
    | PartKey(upload: UploadId, number: nat)
    | ImageKey(day: Day, receipt: ReceiptId)

  datatype Status = Open | Completing | Complete | Failed | Expired

  datatype Session = Session(
    receipt: ReceiptId, total: nat, sha: Digest, status: Status,
    rows: map<nat, PartRow>, finalKey: Option<Key>)

  datatype Origin = Device | Reviewer

  datatype Receipt = Receipt(origin: Origin, imageKey: Key, imageBytes: nat, imageSha: Digest, imageDeleted: bool)

  /** What a completion call remembers of the session row it claimed. */
  datatype Job = Job(upload: UploadId, receipt: ReceiptId, total: nat, sha: Digest, rows: seq<PartRow>)

  /** A call in flight, by the point it has reached. */
  datatype Worker =
    | PutChecked(upload: UploadId, number: nat, body: Bytes)
    | PutStored(upload: UploadId, number: nat, body: Bytes)
    | Reading(job: Job, next: nat, combined: Bytes)
    | Gathered(job: Job, body: Bytes)
    | Accepted(job: Job, body: Bytes)
    | Keyed(job: Job, body: Bytes, key: Key)
    | Stored(job: Job, body: Bytes, key: Key)
    | Undoing(job: Job, key: Key)
    | Misled(job: Job, key: Key)      // as Undoing, but the transaction it saw fail had gone through
    | Reopening(job: Job)
    | Failing(job: Job)
    | Tidying(job: Job, next: nat, clean: bool)
    | Retiring(receipt: ReceiptId, key: Key)
    | Retired(receipt: ReceiptId)

  /** What comes of a delete request: done, done though the request raised, or not done. */
  datatype Deletion = Deleted | Unheard | Kept

  predicate Removes(d: Deletion) { !d.Kept? }

  datatype World = World(
    issued: set<UploadId>,                // upload ids handed out so far; uuid4 never repeats one
    sessions: map<UploadId, Session>,
    objects: map<Key, Bytes>,
    receipts: map<ReceiptId, Receipt>,
    receivedAudits: seq<ReceiptId>,  // the receipt of each RECEIVED audit event
    outbox: seq<ReceiptId>,          // the receipt of each RECEIPT_ENRICHMENT_QUEUE row
    tombstones: set<ReceiptId>,           // receipts with a retention tombstone
    storedBytes: int,
    storageLimit: nat,
    workers: map<WorkerId, Worker>)

  datatype Action =
    | CreateSession(u: UploadId, r: ReceiptId, total: nat, sha: Digest)
    | BeginPut(w: WorkerId, u: UploadId, n: int, body: Bytes, declared: Digest)
    | StorePart(w: WorkerId)
    | InsertPart(w: WorkerId)
    | Claim(w: WorkerId, u: UploadId)
    | ReadPart(w: WorkerId)
    | Inspect(w: WorkerId)
    | RecordKey(w: WorkerId, day: Day)
    | StoreImage(w: WorkerId)
    | Commit(w: WorkerId, admitted: bool, heard: bool)
    | Undo(w: WorkerId, deletion: Deletion)
    | Reopen(w: WorkerId)
    | Fail(w: WorkerId)
    | Tidy(w: WorkerId, deletion: Deletion)
    | Crash(w: WorkerId)
    | CleanUp(u: UploadId, dropped: set<nat>, final: bool, all: bool)
    | SweepFinal(key: Key)
    | CloseCleanup(u: UploadId)
    | DropUntracked(u: UploadId, part: nat)
    | ReviewerInvoice(r: ReceiptId, day: Day, body: Bytes, admitted: bool)
    | SelectForRetention(w: WorkerId, r: ReceiptId)
    | DeleteImage(w: WorkerId, deletion: Deletion)
    | MarkDeleted(w: WorkerId)
    | Purge(ids: set<ReceiptId>)
    | SetLimit(limit: nat)

  /** Uploads may fill nine tenths of the tenant's byte limit. */
  function UploadLimit(storageLimit: nat): nat { storageLimit * 9 / 10 }

  /** "RIFF" at 0 and "WEBP" at 8. */
  predicate IsWebp(body: Bytes) {
    |body| >= 12 && body[..4] == [0x52, 0x49, 0x46, 0x46] && body[8..12] == [0x57, 0x45, 0x42, 0x50]
  }

  /** The signature byte by byte. */
  lemma IsWebpIff(body: Bytes)
    ensures IsWebp(body) <==>
            && |body| >= 12
            && body[0] == 0x52 && body[1] == 0x49 && body[2] == 0x46 && body[3] == 0x46
            && body[8] == 0x57 && body[9] == 0x45 && body[10] == 0x42 && body[11] == 0x50
  {
    if |body| >= 12 {
      var riff, webp: Bytes := [0x52, 0x49, 0x46, 0x46], [0x57, 0x45, 0x42, 0x50];
      assert body[..4] == [body[0], body[1], body[2], body[3]];
      assert body[8..12] == [body[8], body[9], body[10], body[11]];
      assert body[..4] == riff <==> forall i :: 0 <= i < 4 ==> body[i] == riff[i];
      assert body[8..12] == webp <==> forall i :: 0 <= i < 4 ==> body[8 + i] == webp[i];
    }
  }

  function Init(storageLimit: nat): World {
    World({}, map[], map[], map[], [], [], {}, 0, storageLimit, map[])
  }

  function SetWorker(s: World, w: WorkerId, x: Worker): World { s.(workers := s.workers[w := x]) }

  function EndWorker(s: World, w: WorkerId): World { s.(workers := s.workers - {w}) }

  /** `UPDATE upload_sessions SET status = next WHERE id = u AND status = expected`. */
  function SetStatus(s: World, u: UploadId, expected: Status, next: Status): World {
    if u in s.sessions && s.sessions[u].status == expected
    then s.(sessions := s.sessions[u := s.sessions[u].(status := next)])
    else s
  }

  /** INSERT of a session. A receipt id that is already filed answers with that receipt instead;
      `u` is a new uuid, the receipt id is unique among sessions, and the byte pause applies. */
  function CreateSessionStep(s: World, u: UploadId, r: ReceiptId, total: nat, sha: Digest): World {
    if u in s.issued || total == 0 || r in s.receipts then s
    else if exists v :: v in s.sessions && s.sessions[v].receipt == r then s
    else if s.storedBytes + total > UploadLimit(s.storageLimit) then s
    else s.(issued := s.issued + {u},
            sessions := s.sessions[u := Session(r, total, sha, Open, map[], None)])
  }

  /** The advisory lock on (upload, part) is held by the call that is putting that part. */
  predicate PutLocked(s: World, u: UploadId, n: int) {
    exists w :: w in s.workers && (s.workers[w].PutChecked? || s.workers[w].PutStored?)
                && s.workers[w].upload == u && s.workers[w].number == n
  }

  function BeginPutStep(s: World, w: WorkerId, u: UploadId, n: int, body: Bytes, declared: Digest): World {
    if w in s.workers || PutLocked(s, u, n) || u !in s.sessions || s.sessions[u].status != Open then s
    else if CheckPut(s.sessions[u].rows, s.sessions[u].total, n, body, declared) == Store
    then SetWorker(s, w, PutChecked(u, n, body))
    else s
  }

  function StorePartStep(s: World, w: WorkerId): World {
    if w in s.workers && s.workers[w].PutChecked? then
      var x := s.workers[w];
      SetWorker(s.(objects := s.objects[PartKey(x.upload, x.number) := x.body]), w, PutStored(x.upload, x.number, x.body))
    else s
  }

  function InsertPartStep(s: World, w: WorkerId): World {
    if w in s.workers && s.workers[w].PutStored? then
      var x := s.workers[w];
      if x.upload in s.sessions && x.number !in s.sessions[x.upload].rows then
        var row := NewRow(x.number, x.body);
        var session := s.sessions[x.upload];
        EndWorker(s.(sessions := s.sessions[x.upload := session.(rows := session.rows[x.number := row])]), w)
      else EndWorker(s, w)
    else s
  }

  /** OPEN to COMPLETING by compare-and-set, with the part rows read in the same transaction. */
  function ClaimStep(s: World, w: WorkerId, u: UploadId): World {
    if w in s.workers || u !in s.sessions || s.sessions[u].status != Open then s
    else
      var x := s.sessions[u];
      SetWorker(SetStatus(s, u, Open, Completing), w,
                Reading(Job(u, x.receipt, x.total, x.sha, OrderedRows(x.rows, x.total)), 0, []))
  }

  function ReadObject(s: World, key: Key): Option<Bytes> {
    if key in s.objects then Some(s.objects[key]) else None
  }

  /** One round of the reassembly loop, or the length test after the last one. */
  function ReadPartStep(s: World, w: WorkerId): World {
    if w in s.workers && s.workers[w].Reading? then
      var x := s.workers[w];
      if x.next < |x.job.rows| then
        var row := x.job.rows[x.next];
        match GatherOne(row, ReadObject(s, PartKey(x.job.upload, row.number)), x.combined)
        case Some(grown) => SetWorker(s, w, Reading(x.job, x.next + 1, grown))
        case None => SetWorker(s, w, Reopening(x.job))
      else if |x.combined| != x.job.total then SetWorker(s, w, Reopening(x.job))
      else SetWorker(s, w, Gathered(x.job, x.combined))
    else s
  }

  /** The WEBP signature and the declared digest decide between going on and FAILED. */
  function InspectStep(s: World, w: WorkerId): World {
    if w in s.workers && s.workers[w].Gathered? then
      var x := s.workers[w];
      if !IsWebp(x.body) || Sha256(x.body) != x.job.sha then SetWorker(s, w, Failing(x.job))
      else SetWorker(s, w, Accepted(x.job, x.body))
    else s
  }

  function RecordKeyStep(s: World, w: WorkerId, day: Day): World {
    if w in s.workers && s.workers[w].Accepted? then
      var x := s.workers[w];
      var u := x.job.upload;
      var key := ImageKey(day, x.job.receipt);
      SetWorker(
        if u in s.sessions && s.sessions[u].status == Completing
        then s.(sessions := s.sessions[u := s.sessions[u].(finalKey := Some(key))]) else s,
        w, Keyed(x.job, x.body, key))
    else s
  }

  function StoreImageStep(s: World, w: WorkerId): World {
    if w in s.workers && s.workers[w].Keyed? then
      var x := s.workers[w];
      SetWorker(s.(objects := s.objects[x.key := x.body]), w, Stored(x.job, x.body, x.key))
    else s
  }

  /** `UPDATE organizations SET stored_image_bytes = ... WHERE stored_image_bytes + n <= limit`. */
  predicate QuotaAllows(s: World, n: nat) { s.storedBytes + n <= UploadLimit(s.storageLimit) }

  /** The receipt transaction: charge, receipt, audit event, outbox row and COMPLETE, or an exception.
      If it goes through but its answer is lost, the call sees an exception all the same. */
  function CommitStep(s: World, w: WorkerId, admitted: bool, heard: bool): World {
    if w in s.workers && s.workers[w].Stored? then
      var x := s.workers[w];
      var u := x.job.upload;
      var r := x.job.receipt;
      if u in s.sessions && s.sessions[u].status == Completing && admitted && QuotaAllows(s, |x.body|)
         && r !in s.receipts && r !in s.outbox then
        SetWorker(
          SetStatus(s, u, Completing, Complete)
          .(storedBytes := s.storedBytes + |x.body|,
            receipts := s.receipts[r := Receipt(Device, x.key, |x.body|, Sha256(x.body), false)],
            receivedAudits := s.receivedAudits + [r],
            outbox := s.outbox + [r]),
          w, if heard then Tidying(x.job, 0, true) else Misled(x.job, x.key))
      else SetWorker(s, w, Undoing(x.job, x.key))
    else s
  }

  function AfterDeletion(objects: map<Key, Bytes>, key: Key, d: Deletion): map<Key, Bytes> {
    if Removes(d) then objects - {key} else objects
  }

  /** The except branch: delete the final object, and then back to OPEN. A misled call ends here: its
      compare-and-set finds no COMPLETING session. */
  function UndoStep(s: World, w: WorkerId, d: Deletion): World {
    if w in s.workers && s.workers[w].Undoing? then
      var x := s.workers[w];
      SetWorker(s.(objects := AfterDeletion(s.objects, x.key, d)), w, Reopening(x.job))
    else if w in s.workers && s.workers[w].Misled? then
      EndWorker(s.(objects := AfterDeletion(s.objects, s.workers[w].key, d)), w)
    else s
  }

  function ReopenStep(s: World, w: WorkerId): World {
    if w in s.workers && s.workers[w].Reopening?
    then EndWorker(SetStatus(s, s.workers[w].job.upload, Completing, Open), w) else s
  }

  function FailStep(s: World, w: WorkerId): World {
    if w in s.workers && s.workers[w].Failing?
    then EndWorker(SetStatus(s, s.workers[w].job.upload, Completing, Failed), w) else s
  }

  function ClearRows(s: World, u: UploadId): World {
    if u in s.sessions then s.(sessions := s.sessions[u := s.sessions[u].(rows := map[])]) else s
  }

  /** After COMPLETE: delete the part objects one by one, and the rows if every delete worked. */
  function TidyStep(s: World, w: WorkerId, d: Deletion): World {
    if w in s.workers && s.workers[w].Tidying? then
      var x := s.workers[w];
      if x.next < |x.job.rows| then
        var key := PartKey(x.job.upload, x.job.rows[x.next].number);
        SetWorker(s.(objects := AfterDeletion(s.objects, key, d)), w, Tidying(x.job, x.next + 1, x.clean && d.Deleted?))
      else EndWorker(if x.clean then ClearRows(s, x.job.upload) else s, w)
    else s
  }

  function CrashStep(s: World, w: WorkerId): World { EndWorker(s, w) }

  function PartKeys(u: UploadId, numbers: set<nat>): set<Key> { set n | n in numbers :: PartKey(u, n) }

  /** The keys a cleanup of session `x` deletes. */
  function CleanupKeys(u: UploadId, x: Session): set<Key> {
    PartKeys(u, x.rows.Keys)
    + if x.status != Complete && x.finalKey.Some? then {x.finalKey.value} else {}
  }

  function Expire(s: World, u: UploadId): World
    requires u in s.sessions
  {
    var x := s.sessions[u];
    s.(sessions := s.sessions[u := x.(rows := map[],
                                      status := if x.status == Open || x.status == Completing then Expired else x.status)])
  }

  /** What a cleanup that raises leaves deleted: some part objects, or, if it raised on the final
      object after deleting that, all of them and the final object. */
  function LostKeys(u: UploadId, x: Session, dropped: set<nat>, final: bool): set<Key> {
    if final then CleanupKeys(u, x) else PartKeys(u, dropped * x.rows.Keys)
  }

  /** One session's cleanup, nothing of another call in between: `all` says that no delete raised. */
  function CleanUpStep(s: World, u: UploadId, dropped: set<nat>, final: bool, all: bool): World {
    if u in s.sessions && s.sessions[u].status in {Open, Completing, Complete} then
      if all then Expire(s.(objects := s.objects - CleanupKeys(u, s.sessions[u])), u)
      else s.(objects := s.objects - LostKeys(u, s.sessions[u], dropped, final))
    else s
  }

  /** A cleanup's delete of a final object alone; the cleanup read the key, and the status, earlier. */
  function SweepFinalStep(s: World, key: Key): World {
    if key.ImageKey? then s.(objects := s.objects - {key}) else s
  }

  /** A cleanup's last transaction alone. */
  function CloseCleanupStep(s: World, u: UploadId): World {
    if u in s.sessions then Expire(s, u) else s
  }

  function DropUntrackedStep(s: World, u: UploadId, part: nat): World {
    s.(objects := s.objects - {PartKey(u, part)})
  }

  /** The quota transaction of a reviewer's image invoice; its receipt id is a new uuid. */
  function ReviewerInvoiceStep(s: World, r: ReceiptId, day: Day, body: Bytes, admitted: bool): World {
    if r in s.receipts || r in s.outbox || !admitted || !QuotaAllows(s, |body|) then s
    else if exists v :: v in s.sessions && s.sessions[v].receipt == r then s
    else s.(storedBytes := s.storedBytes + |body|,
            receipts := s.receipts[r := Receipt(Reviewer, ImageKey(day, r), |body|, Sha256(body), false)],
            outbox := s.outbox + [r])
  }

  function SelectForRetentionStep(s: World, w: WorkerId, r: ReceiptId): World {
    if w !in s.workers && r in s.receipts && !s.receipts[r].imageDeleted
    then SetWorker(s.(tombstones := s.tombstones + {r}), w, Retiring(r, s.receipts[r].imageKey))
    else s
  }

  function DeleteImageStep(s: World, w: WorkerId, d: Deletion): World {
    if w in s.workers && s.workers[w].Retiring? then
      var t := s.(objects := AfterDeletion(s.objects, s.workers[w].key, d));
      if d.Deleted? then SetWorker(t, w, Retired(s.workers[w].receipt)) else EndWorker(t, w)
    else s
  }

  /** `GREATEST(0, stored_image_bytes - n)`. */
  function Refund(stored: int, n: nat): int { if stored - n < 0 then 0 else stored - n }

  /** The image-deleted mark and its refund, only if the mark was not set yet. */
  function MarkDeletedStep(s: World, w: WorkerId): World {
    if w in s.workers && s.workers[w].Retired? then
      var r := s.workers[w].receipt;
      if r in s.receipts && !s.receipts[r].imageDeleted then
        EndWorker(s.(receipts := s.receipts[r := s.receipts[r].(imageDeleted := true)],
                     storedBytes := Refund(s.storedBytes, s.receipts[r].imageBytes)), w)
      else EndWorker(s, w)
    else s
  }

  /** `DELETE ... WHERE receipt_id = ANY(ids)`. */
  function Without(log: seq<ReceiptId>, ids: set<ReceiptId>): seq<ReceiptId> {
    if log == [] then []
    else if log[0] in ids then Without(log[1..], ids)
    else [log[0]] + Without(log[1..], ids)
  }

  /** The one-year purge of receipts and everything filed under them, in one transaction. */
  function PurgeStep(s: World, ids: set<ReceiptId>): World {
    if ids <= s.receipts.Keys then
      s.(receivedAudits := Without(s.receivedAudits, ids),
         outbox := Without(s.outbox, ids),
         sessions := map u | u in s.sessions && s.sessions[u].receipt !in ids :: s.sessions[u],
         receipts := s.receipts - ids)
    else s
  }

  function Next(s: World, a: Action): World {
    match a
    case CreateSession(u, r, total, sha) => CreateSessionStep(s, u, r, total, sha)
    case BeginPut(w, u, n, body, declared) => BeginPutStep(s, w, u, n, body, declared)
    case StorePart(w) => StorePartStep(s, w)
    case InsertPart(w) => InsertPartStep(s, w)
    case Claim(w, u) => ClaimStep(s, w, u)
    case ReadPart(w) => ReadPartStep(s, w)
    case Inspect(w) => InspectStep(s, w)
    case RecordKey(w, day) => RecordKeyStep(s, w, day)
    case StoreImage(w) => StoreImageStep(s, w)
    case Commit(w, admitted, heard) => CommitStep(s, w, admitted, heard)
    case Undo(w, d) => UndoStep(s, w, d)
    case Reopen(w) => ReopenStep(s, w)
    case Fail(w) => FailStep(s, w)
    case Tidy(w, d) => TidyStep(s, w, d)
    case Crash(w) => CrashStep(s, w)
    case CleanUp(u, dropped, final, all) => CleanUpStep(s, u, dropped, final, all)
    case SweepFinal(key) => SweepFinalStep(s, key)
    case CloseCleanup(u) => CloseCleanupStep(s, u)
    case DropUntracked(u, part) => DropUntrackedStep(s, u, part)
    case ReviewerInvoice(r, day, body, admitted) => ReviewerInvoiceStep(s, r, day, body, admitted)
    case SelectForRetention(w, r) => SelectForRetentionStep(s, w, r)
    case DeleteImage(w, d) => DeleteImageStep(s, w, d)
    case MarkDeleted(w) => MarkDeletedStep(s, w)
    case Purge(ids) => PurgeStep(s, ids)
    case SetLimit(limit) => s.(storageLimit := limit)
  }

  /** Any interleaving of the calls is a sequence of actions. */
  function Run(s: World, actions: seq<Action>): World
    decreases |actions|
  {
    if actions == [] then s else Run(Next(s, actions[0]), actions[1..])
  }
}
