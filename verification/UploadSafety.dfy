/** What every run of the upload service keeps: one completion per session, one receipt, one audit
    event and one outbox row per completed session, and the image behind it. */
module UploadSafety {
  import opened Options
  import opened Reassembly
  import opened UploadWorld

  type Sessions = map<UploadId, Session>
  type Receipts = map<ReceiptId, Receipt>

  // ----- the invariant, over the parts of the state each clause depends on -----

  /** A completion that still owns its session. */
  predicate Active(x: Worker) {
    x.Reading? || x.Gathered? || x.Accepted? || x.Keyed? || x.Stored? || x.Undoing? || x.Reopening? || x.Failing?
  }

  predicate Putting(x: Worker) { x.PutChecked? || x.PutStored? }

  ghost predicate FinalKeyOf(key: Key, r: ReceiptId) { key.ImageKey? && key.receipt == r }

  ghost predicate SessionOk(x: Session) {
    && ValidRows(x.rows, x.total)
    && (x.finalKey.Some? ==> FinalKeyOf(x.finalKey.value, x.receipt))
  }

  ghost predicate SessionsOk(issued: set<UploadId>, sessions: Sessions) {
    && sessions.Keys <= issued
    && (forall u :: u in sessions ==> SessionOk(sessions[u]))
    && (forall u, v :: u in sessions && v in sessions && sessions[u].receipt == sessions[v].receipt ==> u == v)
  }

  ghost predicate PutOk(issued: set<UploadId>, sessions: Sessions, x: Worker)
    requires Putting(x)
  {
    && x.upload in issued
    && (x.upload in sessions ==>
          InRange(sessions[x.upload].total, x.number) && |x.body| == PartLength(sessions[x.upload].total, x.number))
  }

  /** The session an active completion owns is the one it claimed, and only a cleanup may have closed it. */
  ghost predicate JobOk(sessions: Sessions, j: Job) {
    && j.upload in sessions
    && var x := sessions[j.upload];
       x.receipt == j.receipt && x.total == j.total && x.sha == j.sha && (x.status == Completing || x.status == Expired)
  }

  ghost predicate BodyOk(j: Job, body: Bytes) {
    |body| == j.total && Sha256(body) == j.sha
  }

  ghost predicate KeyOk(sessions: Sessions, j: Job, key: Key) {
    && FinalKeyOf(key, j.receipt)
    && (j.upload in sessions && sessions[j.upload].status == Completing ==> sessions[j.upload].finalKey == Some(key))
  }

  /** The session of a misled call is COMPLETE, or was purged since. */
  ghost predicate MisledOk(issued: set<UploadId>, sessions: Sessions, u: UploadId) {
    u in issued && (u in sessions ==> sessions[u].status == Complete)
  }

  ghost predicate WorkerOk(issued: set<UploadId>, sessions: Sessions, tombstones: set<ReceiptId>, x: Worker) {
    && (Putting(x) ==> PutOk(issued, sessions, x))
    && (Active(x) ==> JobOk(sessions, x.job))
    && (x.Gathered? ==> |x.body| == x.job.total)
    && (x.Accepted? || x.Keyed? || x.Stored? ==> BodyOk(x.job, x.body))
    && (x.Keyed? || x.Stored? ==> KeyOk(sessions, x.job, x.key))
    && (x.Undoing? || x.Misled? ==> FinalKeyOf(x.key, x.job.receipt))
    && (x.Misled? ==> MisledOk(issued, sessions, x.job.upload))
    && (x.Retiring? ==> FinalKeyOf(x.key, x.receipt) && x.receipt in tombstones)
  }

  ghost predicate WorkersOk(issued: set<UploadId>, sessions: Sessions, tombstones: set<ReceiptId>, workers: map<WorkerId, Worker>) {
    forall w :: w in workers ==> WorkerOk(issued, sessions, tombstones, workers[w])
  }

  predicate Owns(workers: map<WorkerId, Worker>, w: WorkerId, u: UploadId) {
    w in workers && Active(workers[w]) && workers[w].job.upload == u
  }

  /** At most one live completion per session. */
  ghost predicate Exclusive(workers: map<WorkerId, Worker>) {
    forall u, w, v :: Owns(workers, w, u) && Owns(workers, v, u) ==> w == v
  }

  ghost predicate DeviceReceipt(receipts: Receipts, r: ReceiptId) {
    r in receipts && receipts[r].origin == Device
  }

  ghost predicate CompleteOf(sessions: Sessions, u: UploadId, r: ReceiptId) {
    u in sessions && sessions[u].receipt == r && sessions[u].status == Complete
  }

  /** A session is COMPLETE iff its device receipt is filed, and that receipt is the one its completion wrote. */
  ghost predicate FiledFor(receipts: Receipts, x: Session) {
    && (x.status == Complete <==> x.receipt in receipts)
    && (x.status == Complete ==>
          && DeviceReceipt(receipts, x.receipt)
          && x.finalKey == Some(receipts[x.receipt].imageKey)
          && receipts[x.receipt].imageBytes == x.total
          && receipts[x.receipt].imageSha == x.sha)
  }

  ghost predicate Filed(sessions: Sessions, receipts: Receipts) {
    && (forall u :: u in sessions ==> FiledFor(receipts, sessions[u]))
    && (forall r :: DeviceReceipt(receipts, r) ==> exists u :: CompleteOf(sessions, u, r))
    && (forall r :: r in receipts ==> FinalKeyOf(receipts[r].imageKey, r))
  }

  /** One RECEIVED event per device receipt and one outbox row per receipt, and no others. */
  ghost predicate Logged(receipts: Receipts, audits: seq<ReceiptId>, outbox: seq<ReceiptId>) {
    && (forall r :: multiset(audits)[r] == if DeviceReceipt(receipts, r) then 1 else 0)
    && (forall r :: multiset(outbox)[r] == if r in receipts then 1 else 0)
  }

  ghost predicate Holds(objects: map<Key, Bytes>, key: Key, total: nat, sha: Digest) {
    key in objects && |objects[key]| == total && Sha256(objects[key]) == sha
  }

  ghost predicate ImageIntact(objects: map<Key, Bytes>, x: Session) {
    x.finalKey.Some? && Holds(objects, x.finalKey.value, x.total, x.sha)
  }

  ghost predicate ImagesOk(sessions: Sessions, tombstones: set<ReceiptId>, objects: map<Key, Bytes>) {
    forall u :: u in sessions && sessions[u].status == Complete && sessions[u].receipt !in tombstones ==>
      ImageIntact(objects, sessions[u])
  }

  /** What a completion has stored stays stored while its session is COMPLETING. */
  ghost predicate PendingOk(sessions: Sessions, tombstones: set<ReceiptId>, objects: map<Key, Bytes>, x: Worker) {
    x.Stored? && x.job.upload in sessions && sessions[x.job.upload].status == Completing && x.job.receipt !in tombstones
    ==> Holds(objects, x.key, x.job.total, x.job.sha)
  }

  ghost predicate PendingsOk(sessions: Sessions, tombstones: set<ReceiptId>, objects: map<Key, Bytes>, workers: map<WorkerId, Worker>) {
    forall w :: w in workers ==> PendingOk(sessions, tombstones, objects, workers[w])
  }

  ghost predicate Inv(s: World) {
    && SessionsOk(s.issued, s.sessions)
    && WorkersOk(s.issued, s.sessions, s.tombstones, s.workers)
    && Exclusive(s.workers)
    && Filed(s.sessions, s.receipts)
    && Logged(s.receipts, s.receivedAudits, s.outbox)
    && ImagesOk(s.sessions, s.tombstones, s.objects)
    && PendingsOk(s.sessions, s.tombstones, s.objects, s.workers)
  }

  // ----- one call moving on -----

  ghost predicate Free(workers: map<WorkerId, Worker>, w: WorkerId, u: UploadId) {
    forall v :: Owns(workers, v, u) ==> v == w
  }

  lemma SetWorkerInv(s: World, w: WorkerId, x: Worker)
    requires Inv(s)
    requires WorkerOk(s.issued, s.sessions, s.tombstones, x) && PendingOk(s.sessions, s.tombstones, s.objects, x)
    requires Active(x) ==> Free(s.workers, w, x.job.upload)
    ensures Inv(SetWorker(s, w, x))
  {
    var t := SetWorker(s, w, x);
    assert forall v, u :: Owns(t.workers, v, u) && v != w ==> Owns(s.workers, v, u);
  }

  /** A live completion moving on within its session. */
  lemma MoveOnInv(s: World, w: WorkerId, x: Worker)
    requires Inv(s)
    requires w in s.workers && Active(s.workers[w]) && Active(x) && x.job == s.workers[w].job && !x.Stored?
    requires x.Gathered? ==> |x.body| == x.job.total
    requires x.Accepted? ==> BodyOk(x.job, x.body)
    requires x.Keyed? ==> KeyOk(s.sessions, x.job, x.key) && BodyOk(x.job, x.body)
    requires x.Undoing? ==> FinalKeyOf(x.key, x.job.receipt)
    ensures Inv(SetWorker(s, w, x))
  {
    assert WorkerOk(s.issued, s.sessions, s.tombstones, s.workers[w]);
    assert Owns(s.workers, w, x.job.upload);
    SetWorkerInv(s, w, x);
  }

  lemma EndWorkerInv(s: World, w: WorkerId)
    requires Inv(s)
    ensures Inv(EndWorker(s, w))
  {
    var t := EndWorker(s, w);
    assert forall v, u :: Owns(t.workers, v, u) ==> Owns(s.workers, v, u);
  }

  /** Moving call `w` on after a change made by it is the same as dropping it, changing, and adding it back. */
  lemma Readd(s: World, t: World, w: WorkerId, x: Worker)
    requires t.workers == s.workers
    ensures SetWorker(t, w, x) == SetWorker(t.(workers := t.workers - {w}), w, x)
    ensures EndWorker(t, w) == t.(workers := t.workers - {w})
  {
    assert t.workers[w := x] == (t.workers - {w})[w := x];
  }

  // ----- one table changing -----

  lemma ObjectsInv(s: World, objects: map<Key, Bytes>)
    requires Inv(s)
    requires forall k :: k in s.objects && k.ImageKey? ==> k in objects && objects[k] == s.objects[k]
    ensures Inv(s.(objects := objects))
  {
  }

  ghost predicate CompleteWith(s: World, u: UploadId, key: Key) {
    u in s.sessions && s.sessions[u].status == Complete && s.sessions[u].finalKey == Some(key)
  }

  ghost predicate AboutToCommit(s: World, w: WorkerId, key: Key) {
    && w in s.workers && s.workers[w].Stored? && s.workers[w].key == key
    && s.workers[w].job.upload in s.sessions && s.sessions[s.workers[w].job.upload].status == Completing
  }

  /** A COMPLETE session has its image under the key, or a completion that stored it there is about
      to commit. */
  ghost predicate Relied(s: World, key: Key) {
    (exists u :: CompleteWith(s, u, key)) || (exists w :: AboutToCommit(s, w, key))
  }

  /** Nobody minds the object going. */
  ghost predicate Spared(s: World, key: Key) {
    key.ImageKey? ==> key.receipt in s.tombstones || !Relied(s, key)
  }

  lemma ImageInv(s: World, key: Key, objects: map<Key, Bytes>)
    requires Inv(s)
    requires forall k :: k in s.objects && k != key && k.ImageKey? ==> k in objects && objects[k] == s.objects[k]
    requires Spared(s, key)
    requires key.PartKey? ==> forall k :: k in s.objects && k.ImageKey? ==> k in objects && objects[k] == s.objects[k]
    ensures Inv(s.(objects := objects))
  {
    forall u | u in s.sessions && s.sessions[u].status == Complete && s.sessions[u].receipt !in s.tombstones
      ensures ImageIntact(objects, s.sessions[u])
    {
      assert SessionOk(s.sessions[u]) && ImageIntact(s.objects, s.sessions[u]);
      assert s.sessions[u].finalKey == Some(key) ==> CompleteWith(s, u, key);
    }
    forall w | w in s.workers
      ensures PendingOk(s.sessions, s.tombstones, objects, s.workers[w])
    {
      assert WorkerOk(s.issued, s.sessions, s.tombstones, s.workers[w]);
      assert PendingOk(s.sessions, s.tombstones, s.objects, s.workers[w]);
      var committing := s.workers[w].Stored? && s.workers[w].key == key && s.workers[w].job.upload in s.sessions
                        && s.sessions[s.workers[w].job.upload].status == Completing;
      assert committing ==> AboutToCommit(s, w, key);
    }
    hide Relied;
  }

  /** A receipt that is idle relies on no image. */
  lemma IdleIsSpared(s: World, key: Key)
    requires Inv(s)
    requires key.ImageKey? && Idle(s, key.receipt)
    ensures Spared(s, key)
  {
    forall u
      ensures !CompleteWith(s, u, key)
    {
      assert u in s.sessions ==> SessionOk(s.sessions[u]);
    }
    forall w
      ensures !AboutToCommit(s, w, key)
    {
      assert w in s.workers ==> WorkerOk(s.issued, s.sessions, s.tombstones, s.workers[w]);
    }
  }

  ghost predicate Idle(s: World, r: ReceiptId) {
    && (forall u :: u in s.sessions && s.sessions[u].receipt == r ==> s.sessions[u].status != Complete)
    && (forall w :: w in s.workers && s.workers[w].Stored? && s.workers[w].job.receipt == r ==>
          s.workers[w].job.upload in s.sessions && s.sessions[s.workers[w].job.upload].status != Completing)
  }

  /** Session `x` became `y`: only its rows, status or final key changed. */
  predicate SameUpload(x: Session, y: Session) {
    x.receipt == y.receipt && x.total == y.total && x.sha == y.sha
  }

  lemma SessionsSet(issued: set<UploadId>, sessions: Sessions, u: UploadId, y: Session)
    requires SessionsOk(issued, sessions) && u in sessions && SameUpload(sessions[u], y) && SessionOk(y)
    ensures SessionsOk(issued, sessions[u := y])
  {
  }

  /** A session that is not COMPLETE may change while no live completion owns it. */
  lemma SessionInv(s: World, u: UploadId, y: Session)
    requires Inv(s)
    requires u in s.sessions && SameUpload(s.sessions[u], y) && SessionOk(y)
    requires s.sessions[u].status != Complete && y.status != Complete
    requires forall w :: !Owns(s.workers, w, u)
    ensures Inv(s.(sessions := s.sessions[u := y]))
  {
    FiledKept(s.sessions, s.sessions[u := y], s.receipts);
    WorkersAfter(s, u, y);
    SessionsSet(s.issued, s.sessions, u, y);
    hide SessionsOk, WorkersOk, PendingsOk, Filed;
  }

  lemma FiledKept(sessions: Sessions, sessions': Sessions, receipts: Receipts)
    requires Filed(sessions, receipts)
    requires sessions.Keys == sessions'.Keys
    requires forall u :: u in sessions ==>
               && SameUpload(sessions[u], sessions'[u])
               && (sessions[u].status == Complete <==> sessions'[u].status == Complete)
               && (sessions[u].status == Complete ==> sessions[u].finalKey == sessions'[u].finalKey)
    ensures Filed(sessions', receipts)
  {
    forall r | DeviceReceipt(receipts, r)
      ensures exists v :: CompleteOf(sessions', v, r)
    {
      var v :| CompleteOf(sessions, v, r);
      assert CompleteOf(sessions', v, r);
    }
    forall u | u in sessions'
      ensures FiledFor(receipts, sessions'[u])
    {
      assert FiledFor(receipts, sessions[u]);
    }
  }

  lemma RowsInv(s: World, u: UploadId, rows: map<nat, PartRow>)
    requires Inv(s)
    requires u in s.sessions && ValidRows(rows, s.sessions[u].total)
    ensures Inv(s.(sessions := s.sessions[u := s.sessions[u].(rows := rows)]))
  {
    var y := s.sessions[u].(rows := rows);
    SessionKnown(s, u);
    FiledKept(s.sessions, s.sessions[u := y], s.receipts);
    SessionsSet(s.issued, s.sessions, u, y);
    WorkersKept(s, u, y);
    hide SessionsOk, Filed, WorkersOk, PendingsOk;
  }

  /** No call minds a session's rows going, or its expiry. */
  lemma WorkersKept(s: World, u: UploadId, y: Session)
    requires Inv(s)
    requires u in s.sessions && SameUpload(s.sessions[u], y) && y.finalKey == s.sessions[u].finalKey
    requires y.status == s.sessions[u].status || (y.status == Expired && s.sessions[u].status != Complete)
    ensures WorkersOk(s.issued, s.sessions[u := y], s.tombstones, s.workers)
    ensures PendingsOk(s.sessions[u := y], s.tombstones, s.objects, s.workers)
  {
    var sessions := s.sessions[u := y];
    forall w | w in s.workers
      ensures WorkerOk(s.issued, sessions, s.tombstones, s.workers[w])
      ensures PendingOk(sessions, s.tombstones, s.objects, s.workers[w])
    {
      assert WorkerOk(s.issued, s.sessions, s.tombstones, s.workers[w]);
      assert PendingOk(s.sessions, s.tombstones, s.objects, s.workers[w]);
    }
  }

  // ----- every action -----

  lemma FiledAdd(sessions: Sessions, receipts: Receipts, u: UploadId, x: Session)
    requires Filed(sessions, receipts)
    requires u !in sessions && x.status != Complete && x.receipt !in receipts
    ensures Filed(sessions[u := x], receipts)
  {
    var sessions' := sessions[u := x];
    forall r | DeviceReceipt(receipts, r)
      ensures exists v :: CompleteOf(sessions', v, r)
    {
      var v :| CompleteOf(sessions, v, r);
      assert CompleteOf(sessions', v, r);
    }
  }

  lemma NewSessionInv(s: World, u: UploadId, x: Session)
    requires Inv(s)
    requires u !in s.issued && SessionOk(x) && x.status == Open && x.receipt !in s.receipts
    requires forall v :: v in s.sessions ==> s.sessions[v].receipt != x.receipt
    ensures Inv(s.(issued := s.issued + {u}, sessions := s.sessions[u := x]))
  {
    var sessions := s.sessions[u := x];
    FiledAdd(s.sessions, s.receipts, u, x);
    forall w | w in s.workers
      ensures WorkerOk(s.issued + {u}, sessions, s.tombstones, s.workers[w])
      ensures PendingOk(sessions, s.tombstones, s.objects, s.workers[w])
    {
      assert WorkerOk(s.issued, s.sessions, s.tombstones, s.workers[w]);
      assert PendingOk(s.sessions, s.tombstones, s.objects, s.workers[w]);
    }
  }

  lemma CreateSessionInv(s: World, u: UploadId, r: ReceiptId, total: nat, sha: Digest)
    requires Inv(s)
    ensures Inv(CreateSessionStep(s, u, r, total, sha))
  {
    hide Inv;
    if CreateSessionStep(s, u, r, total, sha) != s {
      NewSessionInv(s, u, Session(r, total, sha, Open, map[], None));
    }
  }

  lemma BeginPutInv(s: World, w: WorkerId, u: UploadId, n: int, body: Bytes, declared: Digest)
    requires Inv(s)
    ensures Inv(BeginPutStep(s, w, u, n, body, declared))
  {
    if BeginPutStep(s, w, u, n, body, declared) != s {
      SetWorkerInv(s, w, PutChecked(u, n, body));
    }
  }

  lemma StorePartInv(s: World, w: WorkerId)
    requires Inv(s)
    ensures Inv(StorePartStep(s, w))
  {
    if w in s.workers && s.workers[w].PutChecked? {
      var x := s.workers[w];
      assert WorkerOk(s.issued, s.sessions, s.tombstones, x);
      var objects := s.objects[PartKey(x.upload, x.number) := x.body];
      ObjectsInv(s, objects);
      SetWorkerInv(s.(objects := objects), w, PutStored(x.upload, x.number, x.body));
    }
  }

  lemma InsertPartInv(s: World, w: WorkerId)
    requires Inv(s)
    ensures Inv(InsertPartStep(s, w))
  {
    if w in s.workers && s.workers[w].PutStored? {
      var x := s.workers[w];
      assert WorkerOk(s.issued, s.sessions, s.tombstones, x);
      if x.upload in s.sessions && x.number !in s.sessions[x.upload].rows {
        assert SessionOk(s.sessions[x.upload]);
        var rows := s.sessions[x.upload].rows[x.number := NewRow(x.number, x.body)];
        RowsInv(s, x.upload, rows);
        EndWorkerInv(s.(sessions := s.sessions[x.upload := s.sessions[x.upload].(rows := rows)]), w);
      } else {
        EndWorkerInv(s, w);
      }
    }
  }

  lemma ClaimInv(s: World, w: WorkerId, u: UploadId)
    requires Inv(s)
    ensures Inv(ClaimStep(s, w, u))
  {
    if ClaimStep(s, w, u) != s {
      var x := s.sessions[u];
      assert SessionOk(x);
      forall v
        ensures !Owns(s.workers, v, u)
      {
        assert v in s.workers ==> WorkerOk(s.issued, s.sessions, s.tombstones, s.workers[v]);
      }
      SessionInv(s, u, x.(status := Completing));
      SetWorkerInv(SetStatus(s, u, Open, Completing), w,
                   Reading(Job(u, x.receipt, x.total, x.sha, OrderedRows(x.rows, x.total)), 0, []));
    }
  }

  lemma ReadPartInv(s: World, w: WorkerId)
    requires Inv(s)
    ensures Inv(ReadPartStep(s, w))
  {
    hide Inv;
    if w in s.workers && s.workers[w].Reading? {
      MoveOnInv(s, w, ReadPartStep(s, w).workers[w]);
    }
  }

  lemma WorkerKnown(s: World, w: WorkerId)
    requires Inv(s) && w in s.workers
    ensures WorkerOk(s.issued, s.sessions, s.tombstones, s.workers[w])
    ensures PendingOk(s.sessions, s.tombstones, s.objects, s.workers[w])
    ensures Active(s.workers[w]) ==> Free(s.workers, w, s.workers[w].job.upload)
  {
    if Active(s.workers[w]) {
      assert Owns(s.workers, w, s.workers[w].job.upload);
    }
  }

  lemma InspectInv(s: World, w: WorkerId)
    requires Inv(s)
    ensures Inv(InspectStep(s, w))
  {
    if w in s.workers && s.workers[w].Gathered? {
      WorkerKnown(s, w);
      hide Inv;
      MoveOnInv(s, w, InspectStep(s, w).workers[w]);
    }
  }

  lemma RecordKeyInv(s: World, w: WorkerId, day: Day)
    requires Inv(s)
    ensures Inv(RecordKeyStep(s, w, day))
  {
    if w in s.workers && s.workers[w].Accepted? {
      var x := s.workers[w];
      var u := x.job.upload;
      var key := ImageKey(day, x.job.receipt);
      assert WorkerOk(s.issued, s.sessions, s.tombstones, x) && Owns(s.workers, w, u);
      if s.sessions[u].status == Completing {
        EndWorkerInv(s, w);
        var s0 := EndWorker(s, w);
        assert forall v :: Owns(s0.workers, v, u) ==> Owns(s.workers, v, u);
        assert SessionOk(s.sessions[u]);
        SessionInv(s0, u, s.sessions[u].(finalKey := Some(key)));
        var s1 := s0.(sessions := s.sessions[u := s.sessions[u].(finalKey := Some(key))]);
        SetWorkerInv(s1, w, Keyed(x.job, x.body, key));
        Readd(s, s1.(workers := s.workers), w, Keyed(x.job, x.body, key));
      } else {
        SetWorkerInv(s, w, Keyed(x.job, x.body, key));
      }
    }
  }

  /** A live completion is the only one to rely on its receipt's image, and its session is not COMPLETE. */
  lemma OwnerIdle(s: World, w: WorkerId)
    requires Inv(s)
    requires w in s.workers && Active(s.workers[w]) && !s.workers[w].Stored?
    ensures Idle(s, s.workers[w].job.receipt)
  {
    var j := s.workers[w].job;
    assert WorkerOk(s.issued, s.sessions, s.tombstones, s.workers[w]) && Owns(s.workers, w, j.upload);
    forall v | v in s.workers && s.workers[v].Stored?
      ensures s.workers[v].job.receipt != j.receipt
    {
      assert WorkerOk(s.issued, s.sessions, s.tombstones, s.workers[v]);
      assert Owns(s.workers, v, s.workers[v].job.upload);
    }
  }

  lemma StoreImageInv(s: World, w: WorkerId)
    requires Inv(s)
    ensures Inv(StoreImageStep(s, w))
  {
    if w in s.workers && s.workers[w].Keyed? {
      var x := s.workers[w];
      assert WorkerOk(s.issued, s.sessions, s.tombstones, x) && Owns(s.workers, w, x.job.upload);
      OwnerIdle(s, w);
      IdleIsSpared(s, x.key);
      var objects := s.objects[x.key := x.body];
      ImageInv(s, x.key, objects);
      SetWorkerInv(s.(objects := objects), w, Stored(x.job, x.body, x.key));
    }
  }

  /** The except branch of a failed transaction, or of one whose answer was lost while nobody relies
      on the image. */
  lemma UndoInv(s: World, w: WorkerId, d: Deletion)
    requires Inv(s)
    requires w in s.workers && s.workers[w].Misled? && Removes(d) ==> Spared(s, s.workers[w].key)
    ensures Inv(UndoStep(s, w, d))
  {
    if w in s.workers && (s.workers[w].Undoing? || s.workers[w].Misled?) {
      var x := s.workers[w];
      WorkerKnown(s, w);
      if x.Undoing? {
        OwnerIdle(s, w);
        IdleIsSpared(s, x.key);
      }
      hide Inv, Spared;
      var objects := AfterDeletion(s.objects, x.key, d);
      if Removes(d) {
        ImageInv(s, x.key, objects);
      }
      var t := s.(objects := objects);
      assert Inv(t);
      if x.Undoing? {
        SetWorkerInv(t, w, Reopening(x.job));
      } else {
        EndWorkerInv(t, w);
      }
    }
  }

  lemma ReopenInv(s: World, w: WorkerId)
    requires Inv(s)
    ensures Inv(ReopenStep(s, w)) && Inv(FailStep(s, w))
  {
    if w in s.workers && (s.workers[w].Reopening? || s.workers[w].Failing?) {
      var u := s.workers[w].job.upload;
      var next := if s.workers[w].Reopening? then Open else Failed;
      assert Owns(s.workers, w, u);
      EndWorkerInv(s, w);
      var s0 := EndWorker(s, w);
      assert forall v :: Owns(s0.workers, v, u) ==> Owns(s.workers, v, u);
      if u in s.sessions && s.sessions[u].status == Completing {
        assert SessionOk(s.sessions[u]);
        SessionInv(s0, u, s.sessions[u].(status := next));
      }
      assert EndWorker(SetStatus(s, u, Completing, next), w) == SetStatus(s0, u, Completing, next);
    }
  }

  /** Filing the receipt of a COMPLETING session and completing it. */
  lemma FiledComplete(sessions: Sessions, receipts: Receipts, u: UploadId, key: Key)
    requires Filed(sessions, receipts)
    requires forall v, v' :: v in sessions && v' in sessions && sessions[v].receipt == sessions[v'].receipt ==> v == v'
    requires u in sessions && sessions[u].status != Complete && sessions[u].finalKey == Some(key)
    requires FinalKeyOf(key, sessions[u].receipt)
    requires sessions[u].receipt !in receipts
    ensures
      var x := sessions[u];
      Filed(sessions[u := x.(status := Complete)], receipts[x.receipt := Receipt(Device, key, x.total, x.sha, false)])
  {
    var x := sessions[u];
    var sessions' := sessions[u := x.(status := Complete)];
    var receipts' := receipts[x.receipt := Receipt(Device, key, x.total, x.sha, false)];
    forall r | DeviceReceipt(receipts', r)
      ensures exists v :: CompleteOf(sessions', v, r)
    {
      if r == x.receipt {
        assert CompleteOf(sessions', u, r);
      } else {
        assert DeviceReceipt(receipts, r);
        var v :| CompleteOf(sessions, v, r);
        assert CompleteOf(sessions', v, r);
      }
    }
    forall v | v in sessions'
      ensures FiledFor(receipts', sessions'[v])
    {
      assert FiledFor(receipts, sessions[v]);
    }
  }

  lemma LoggedComplete(receipts: Receipts, audits: seq<ReceiptId>, outbox: seq<ReceiptId>, r: ReceiptId, x: Receipt)
    requires Logged(receipts, audits, outbox) && r !in receipts && x.origin == Device
    ensures Logged(receipts[r := x], audits + [r], outbox + [r])
  {
    assert forall q :: q != r ==> (DeviceReceipt(receipts[r := x], q) <==> DeviceReceipt(receipts, q));
  }

  /** The world after the receipt transaction, the completion itself aside. */
  function Completed(s: World, u: UploadId, key: Key): World
    requires u in s.sessions
  {
    var x := s.sessions[u];
    s.(sessions := s.sessions[u := x.(status := Complete)],
       storedBytes := s.storedBytes + x.total,
       receipts := s.receipts[x.receipt := Receipt(Device, key, x.total, x.sha, false)],
       receivedAudits := s.receivedAudits + [x.receipt],
       outbox := s.outbox + [x.receipt])
  }

  lemma CompleteInv(s: World, u: UploadId, key: Key)
    requires Inv(s)
    requires u in s.sessions && s.sessions[u].status == Completing && s.sessions[u].finalKey == Some(key)
    requires s.sessions[u].receipt !in s.receipts
    requires s.sessions[u].receipt in s.tombstones || ImageIntact(s.objects, s.sessions[u])
    requires forall w :: !Owns(s.workers, w, u)
    ensures Inv(Completed(s, u, key))
  {
    var x := s.sessions[u];
    var t := Completed(s, u, key);
    assert SessionOk(x);
    FiledComplete(s.sessions, s.receipts, u, key);
    LoggedComplete(s.receipts, s.receivedAudits, s.outbox, x.receipt, t.receipts[x.receipt]);
    WorkersAfter(s, u, x.(status := Complete));
    ImagesComplete(s, u);
    SessionsSet(s.issued, s.sessions, u, x.(status := Complete));
    hide SessionsOk, Filed, Logged, WorkersOk, PendingsOk, ImagesOk, FiledFor, Exclusive;
  }

  lemma ImagesComplete(s: World, u: UploadId)
    requires ImagesOk(s.sessions, s.tombstones, s.objects) && u in s.sessions
    requires s.sessions[u].receipt in s.tombstones || ImageIntact(s.objects, s.sessions[u])
    ensures ImagesOk(s.sessions[u := s.sessions[u].(status := Complete)], s.tombstones, s.objects)
  {
  }

  /** The calls that do not own a session do not mind what becomes of it. */
  lemma WorkersAfter(s: World, u: UploadId, y: Session)
    requires Inv(s)
    requires u in s.sessions && SameUpload(s.sessions[u], y) && s.sessions[u].status != Complete
    requires forall w :: !Owns(s.workers, w, u)
    ensures WorkersOk(s.issued, s.sessions[u := y], s.tombstones, s.workers)
    ensures PendingsOk(s.sessions[u := y], s.tombstones, s.objects, s.workers)
  {
    var sessions := s.sessions[u := y];
    forall w | w in s.workers
      ensures WorkerOk(s.issued, sessions, s.tombstones, s.workers[w])
      ensures PendingOk(sessions, s.tombstones, s.objects, s.workers[w])
    {
      assert WorkerOk(s.issued, s.sessions, s.tombstones, s.workers[w]);
      assert PendingOk(s.sessions, s.tombstones, s.objects, s.workers[w]);
      assert Active(s.workers[w]) && s.workers[w].job.upload == u ==> Owns(s.workers, w, u);
    }
  }

  predicate Commits(s: World, w: WorkerId, admitted: bool) {
    w in s.workers && s.workers[w].Stored? && CommitStep(s, w, admitted, true).workers[w].Tidying?
  }

  function AfterCommit(x: Worker, heard: bool): Worker
    requires x.Stored?
  {
    if heard then Tidying(x.job, 0, true) else Misled(x.job, x.key)
  }

  lemma CommitIs(s: World, w: WorkerId, admitted: bool, heard: bool)
    requires Commits(s, w, admitted)
    requires BodyOk(s.workers[w].job, s.workers[w].body) && JobOk(s.sessions, s.workers[w].job)
    ensures
      var x := s.workers[w];
      CommitStep(s, w, admitted, heard) == SetWorker(Completed(EndWorker(s, w), x.job.upload, x.key), w, AfterCommit(x, heard))
  {
    var x := s.workers[w];
    Readd(s, Completed(s, x.job.upload, x.key), w, AfterCommit(x, heard));
  }

  lemma CommitInv(s: World, w: WorkerId, admitted: bool, heard: bool)
    requires Inv(s)
    ensures Inv(CommitStep(s, w, admitted, heard))
  {
    if w in s.workers && s.workers[w].Stored? {
      var x := s.workers[w];
      WorkerKnown(s, w);
      if Commits(s, w, admitted) {
        CommittedInv(s, w, admitted, heard);
      } else {
        hide Inv;
        SetWorkerInv(s, w, Undoing(x.job, x.key));
      }
    }
  }

  lemma CommittedInv(s: World, w: WorkerId, admitted: bool, heard: bool)
    requires Inv(s) && Commits(s, w, admitted)
    ensures Inv(CommitStep(s, w, admitted, heard))
  {
    hide Inv;
    var x, u := s.workers[w], s.workers[w].job.upload;
    var s0 := EndWorker(s, w);
    WorkerKnown(s, w);
    EndWorkerInv(s, w);
    SessionKnown(s, u);
    CommitIs(s, w, admitted, heard);
    assert s.sessions[u].status == Completing && x.job.receipt !in s.receipts;
    hide CommitStep, SessionOk, FiledFor, ValidRows, Commits;
    forall v
      ensures !Owns(s0.workers, v, u)
    {
      assert Owns(s0.workers, v, u) ==> Owns(s.workers, v, u);
    }
    CompleteInv(s0, u, x.key);
    var done := Completed(s0, u, x.key);
    assert done.issued == s.issued && done.sessions[u].status == Complete;
    SetWorkerInv(done, w, AfterCommit(x, heard));
  }

  lemma TidyInv(s: World, w: WorkerId, d: Deletion)
    requires Inv(s)
    ensures Inv(TidyStep(s, w, d))
  {
    hide Inv;
    if w in s.workers && s.workers[w].Tidying? {
      var x := s.workers[w];
      if x.next < |x.job.rows| {
        var key := PartKey(x.job.upload, x.job.rows[x.next].number);
        var objects := AfterDeletion(s.objects, key, d);
        ObjectsInv(s, objects);
        SetWorkerInv(s.(objects := objects), w, Tidying(x.job, x.next + 1, x.clean && d.Deleted?));
      } else {
        if x.clean && x.job.upload in s.sessions {
          RowsInv(s, x.job.upload, map[]);
        }
        EndWorkerInv(if x.clean then ClearRows(s, x.job.upload) else s, w);
      }
    }
  }

  lemma ExpireInv(s: World, u: UploadId)
    requires Inv(s)
    requires u in s.sessions
    ensures Inv(Expire(s, u))
  {
    hide SessionsOk, Filed, WorkersOk, PendingsOk, ImagesOk, Logged, Exclusive, ValidRows;
    var y := Expire(s, u).sessions[u];
    SessionKnown(s, u);
    NoRows(y.total);
    FiledKept(s.sessions, s.sessions[u := y], s.receipts);
    SessionsSet(s.issued, s.sessions, u, y);
    WorkersKept(s, u, y);
    ImagesKept(s, u, y);
  }

  lemma NoRows(total: nat)
    ensures ValidRows(map[], total)
  {
  }

  lemma ImagesKept(s: World, u: UploadId, y: Session)
    requires ImagesOk(s.sessions, s.tombstones, s.objects)
    requires u in s.sessions && SameUpload(s.sessions[u], y) && y.finalKey == s.sessions[u].finalKey
    requires y.status == Complete ==> s.sessions[u].status == Complete
    ensures ImagesOk(s.sessions[u := y], s.tombstones, s.objects)
  {
    assert y.status == Complete ==> (ImageIntact(s.objects, y) <==> ImageIntact(s.objects, s.sessions[u]));
  }

  /** Once a session is EXPIRED nothing relies on its final object any more. */
  lemma ExpiredIdle(s: World, u: UploadId)
    requires Inv(s)
    requires u in s.sessions && s.sessions[u].status == Expired
    ensures Idle(s, s.sessions[u].receipt)
  {
    forall w | w in s.workers && s.workers[w].Stored? && s.workers[w].job.receipt == s.sessions[u].receipt
      ensures s.workers[w].job.upload == u
    {
      assert WorkerOk(s.issued, s.sessions, s.tombstones, s.workers[w]);
    }
  }

  lemma SessionKnown(s: World, u: UploadId)
    requires Inv(s) && u in s.sessions
    ensures u in s.issued && SessionOk(s.sessions[u]) && FiledFor(s.receipts, s.sessions[u])
  {
  }

  /** The final object of a session that is not COMPLETE. */
  predicate Sweeps(s: World, u: UploadId) {
    u in s.sessions && s.sessions[u].status in {Open, Completing} && s.sessions[u].finalKey.Some?
  }

  lemma CleanUpInv(s: World, u: UploadId, dropped: set<nat>, final: bool, all: bool)
    requires Inv(s)
    requires !all && final && Sweeps(s, u) ==> Spared(s, s.sessions[u].finalKey.value)
    ensures Inv(CleanUpStep(s, u, dropped, final, all))
  {
    if u in s.sessions {
      SessionKnown(s, u);
    }
    hide Inv, Spared;
    if u in s.sessions && s.sessions[u].status in {Open, Completing, Complete} {
      var x := s.sessions[u];
      if all {
        ExpireInv(s, u);
        var s1 := Expire(s, u);
        var objects := s.objects - CleanupKeys(u, x);
        if Sweeps(s, u) {
          ExpiredIdle(s1, u);
          IdleIsSpared(s1, x.finalKey.value);
          ImageInv(s1, x.finalKey.value, objects);
        } else {
          ObjectsInv(s1, objects);
        }
        assert CleanUpStep(s, u, dropped, final, all) == s1.(objects := objects);
      } else {
        var objects := s.objects - LostKeys(u, x, dropped, final);
        if final && Sweeps(s, u) {
          ImageInv(s, x.finalKey.value, objects);
        } else {
          ObjectsInv(s, objects);
        }
      }
    }
  }

  lemma SweepFinalInv(s: World, key: Key)
    requires Inv(s)
    requires Spared(s, key)
    ensures Inv(SweepFinalStep(s, key))
  {
    if key.ImageKey? {
      ImageInv(s, key, s.objects - {key});
    }
  }

  lemma CloseCleanupInv(s: World, u: UploadId)
    requires Inv(s)
    ensures Inv(CloseCleanupStep(s, u))
  {
    hide Inv;
    if u in s.sessions {
      ExpireInv(s, u);
    }
  }

  lemma ReviewerInvoiceInv(s: World, r: ReceiptId, day: Day, body: Bytes, admitted: bool)
    requires Inv(s)
    ensures Inv(ReviewerInvoiceStep(s, r, day, body, admitted))
  {
    var t := ReviewerInvoiceStep(s, r, day, body, admitted);
    if t != s {
      assert forall r' :: DeviceReceipt(t.receipts, r') ==> DeviceReceipt(s.receipts, r');
      forall u | u in s.sessions
        ensures FiledFor(t.receipts, s.sessions[u])
      {
        assert FiledFor(s.receipts, s.sessions[u]);
      }
    }
  }

  lemma SelectInv(s: World, w: WorkerId, r: ReceiptId)
    requires Inv(s)
    ensures Inv(SelectForRetentionStep(s, w, r))
  {
    if SelectForRetentionStep(s, w, r) != s {
      var s0 := s.(tombstones := s.tombstones + {r});
      assert Inv(s0);
      assert FinalKeyOf(s.receipts[r].imageKey, r);
      hide Inv;
      SetWorkerInv(s0, w, Retiring(r, s.receipts[r].imageKey));
    }
  }

  lemma DeleteImageInv(s: World, w: WorkerId, d: Deletion)
    requires Inv(s)
    ensures Inv(DeleteImageStep(s, w, d))
  {
    if w in s.workers && s.workers[w].Retiring? {
      var x := s.workers[w];
      WorkerKnown(s, w);
      assert Spared(s, x.key);
      hide Inv, Spared;
      var objects := AfterDeletion(s.objects, x.key, d);
      ImageInv(s, x.key, objects);
      if d.Deleted? {
        SetWorkerInv(s.(objects := objects), w, Retired(x.receipt));
      } else {
        EndWorkerInv(s.(objects := objects), w);
      }
    }
  }

  lemma MarkDeletedInv(s: World, w: WorkerId)
    requires Inv(s)
    ensures Inv(MarkDeletedStep(s, w))
  {
    if w in s.workers && s.workers[w].Retired? {
      var x := s.workers[w];
      EndWorkerInv(s, w);
      if x.receipt in s.receipts {
        var receipts := s.receipts[x.receipt := s.receipts[x.receipt].(imageDeleted := true)];
        assert forall q :: DeviceReceipt(receipts, q) <==> DeviceReceipt(s.receipts, q);
        assert forall y :: FiledFor(s.receipts, y) ==> FiledFor(receipts, y);
      }
    }
  }

  function Purged(sessions: Sessions, ids: set<ReceiptId>): Sessions {
    map u | u in sessions && sessions[u].receipt !in ids :: sessions[u]
  }

  lemma FiledPurge(sessions: Sessions, receipts: Receipts, ids: set<ReceiptId>)
    requires Filed(sessions, receipts)
    ensures Filed(Purged(sessions, ids), receipts - ids)
  {
    var sessions' := Purged(sessions, ids);
    forall r | DeviceReceipt(receipts - ids, r)
      ensures exists v :: CompleteOf(sessions', v, r)
    {
      assert DeviceReceipt(receipts, r);
      var v :| CompleteOf(sessions, v, r);
      assert CompleteOf(sessions', v, r);
    }
    forall u | u in sessions'
      ensures FiledFor(receipts - ids, sessions'[u])
    {
      assert FiledFor(receipts, sessions[u]);
    }
  }

  lemma LoggedPurge(receipts: Receipts, audits: seq<ReceiptId>, outbox: seq<ReceiptId>, ids: set<ReceiptId>)
    requires Logged(receipts, audits, outbox)
    ensures Logged(receipts - ids, Without(audits, ids), Without(outbox, ids))
  {
    forall r
      ensures multiset(Without(audits, ids))[r] == if DeviceReceipt(receipts - ids, r) then 1 else 0
      ensures multiset(Without(outbox, ids))[r] == if r in receipts - ids then 1 else 0
    {
      WithoutCount(audits, ids, r);
      WithoutCount(outbox, ids, r);
    }
  }

  lemma WorkersPurge(s: World, ids: set<ReceiptId>)
    requires Inv(s) && ids <= s.receipts.Keys
    ensures WorkersOk(s.issued, Purged(s.sessions, ids), s.tombstones, s.workers)
    ensures PendingsOk(Purged(s.sessions, ids), s.tombstones, s.objects, s.workers)
  {
    forall w | w in s.workers
      ensures WorkerOk(s.issued, Purged(s.sessions, ids), s.tombstones, s.workers[w])
      ensures PendingOk(Purged(s.sessions, ids), s.tombstones, s.objects, s.workers[w])
    {
      var x := s.workers[w];
      assert WorkerOk(s.issued, s.sessions, s.tombstones, x);
      assert PendingOk(s.sessions, s.tombstones, s.objects, x);
      if Active(x) {
        assert FiledFor(s.receipts, s.sessions[x.job.upload]);
      }
    }
  }

  lemma PurgeInv(s: World, ids: set<ReceiptId>)
    requires Inv(s)
    ensures Inv(PurgeStep(s, ids))
  {
    if ids <= s.receipts.Keys {
      FiledPurge(s.sessions, s.receipts, ids);
      LoggedPurge(s.receipts, s.receivedAudits, s.outbox, ids);
      WorkersPurge(s, ids);
      assert PurgeStep(s, ids).sessions == Purged(s.sessions, ids);
    }
  }

  lemma WithoutCount(log: seq<ReceiptId>, ids: set<ReceiptId>, r: ReceiptId)
    ensures multiset(Without(log, ids))[r] == if r in ids then 0 else multiset(log)[r]
  {
    if log != [] {
      assert log == [log[0]] + log[1..];
      WithoutCount(log[1..], ids, r);
    }
  }

  predicate UploadAction(a: Action) {
    a.CreateSession? || a.BeginPut? || a.StorePart? || a.InsertPart? || a.Claim? || a.ReadPart? || a.Inspect? || a.RecordKey?
  }

  predicate CompletionAction(a: Action) {
    a.StoreImage? || a.Commit? || a.Undo? || a.Reopen? || a.Fail? || a.Tidy? || a.Crash?
  }

  predicate SweepAction(a: Action) {
    a.CleanUp? || a.SweepFinal? || a.CloseCleanup? || a.DropUntracked? || a.SetLimit?
  }

  /** The final object an action deletes outside the protocol's own order: in a cleanup that then
      raises, in a cleanup that read the session earlier, or in the except branch of a transaction
      that had gone through. */
  function FinalDelete(s: World, a: Action): Option<Key> {
    match a
    case CleanUp(u, _, final, all) => if !all && final && Sweeps(s, u) then s.sessions[u].finalKey else None
    case SweepFinal(key) => Some(key)
    case Undo(w, d) => if w in s.workers && s.workers[w].Misled? && Removes(d) then Some(s.workers[w].key) else None
    case _ => None
  }

  /** Such a delete is safe if no COMPLETE session outside retention has its image under the key and
      no completion stands between storing it there and committing. */
  ghost predicate Safe(s: World, a: Action) {
    FinalDelete(s, a).Some? ==> Spared(s, FinalDelete(s, a).value)
  }

  lemma UploadActionInv(s: World, a: Action)
    requires Inv(s) && UploadAction(a)
    ensures Inv(Next(s, a))
  {
    hide Inv, CreateSessionStep, BeginPutStep, StorePartStep, InsertPartStep, ClaimStep, ReadPartStep, InspectStep, RecordKeyStep;
    match a
    case CreateSession(u, r, total, sha) => CreateSessionInv(s, u, r, total, sha);
    case BeginPut(w, u, n, body, declared) => BeginPutInv(s, w, u, n, body, declared);
    case StorePart(w) => StorePartInv(s, w);
    case InsertPart(w) => InsertPartInv(s, w);
    case Claim(w, u) => ClaimInv(s, w, u);
    case ReadPart(w) => ReadPartInv(s, w);
    case Inspect(w) => InspectInv(s, w);
    case RecordKey(w, day) => RecordKeyInv(s, w, day);
  }

  lemma CompletionActionInv(s: World, a: Action)
    requires Inv(s) && CompletionAction(a) && Safe(s, a)
    ensures Inv(Next(s, a))
  {
    hide Inv, Spared, StoreImageStep, CommitStep, UndoStep, ReopenStep, FailStep, TidyStep;
    match a
    case StoreImage(w) => StoreImageInv(s, w);
    case Commit(w, admitted, heard) => CommitInv(s, w, admitted, heard);
    case Undo(w, d) => UndoInv(s, w, d);
    case Reopen(w) => ReopenInv(s, w);
    case Fail(w) => ReopenInv(s, w);
    case Tidy(w, d) => TidyInv(s, w, d);
    case Crash(w) => EndWorkerInv(s, w);
  }

  lemma SweepActionInv(s: World, a: Action)
    requires Inv(s) && SweepAction(a) && Safe(s, a)
    ensures Inv(Next(s, a))
  {
    hide Inv, Spared, CleanUpStep, SweepFinalStep, CloseCleanupStep, DropUntrackedStep;
    match a
    case CleanUp(u, dropped, final, all) => CleanUpInv(s, u, dropped, final, all);
    case SweepFinal(key) => SweepFinalInv(s, key);
    case CloseCleanup(u) => CloseCleanupInv(s, u);
    case DropUntracked(u, part) => DropUntrackedInv(s, u, part);
    case SetLimit(limit) => LimitInv(s, limit);
  }

  lemma DropUntrackedInv(s: World, u: UploadId, part: nat)
    requires Inv(s)
    ensures Inv(DropUntrackedStep(s, u, part))
  {
    hide Inv;
    ObjectsInv(s, s.objects - {PartKey(u, part)});
  }

  lemma LimitInv(s: World, limit: nat)
    requires Inv(s)
    ensures Inv(s.(storageLimit := limit))
  {
  }

  lemma UpkeepActionInv(s: World, a: Action)
    requires Inv(s) && !UploadAction(a) && !CompletionAction(a) && !SweepAction(a)
    ensures Inv(Next(s, a))
  {
    hide Inv, ReviewerInvoiceStep, PurgeStep, SelectForRetentionStep, DeleteImageStep, MarkDeletedStep;
    match a
    case ReviewerInvoice(r, day, body, admitted) => ReviewerInvoiceInv(s, r, day, body, admitted);
    case SelectForRetention(w, r) => SelectInv(s, w, r);
    case DeleteImage(w, d) => DeleteImageInv(s, w, d);
    case MarkDeleted(w) => MarkDeletedInv(s, w);
    case Purge(ids) => PurgeInv(s, ids);
  }

  lemma NextInv(s: World, a: Action)
    requires Inv(s) && Safe(s, a)
    ensures Inv(Next(s, a))
  {
    hide Inv, Next, Safe;
    if UploadAction(a) {
      UploadActionInv(s, a);
    } else if CompletionAction(a) {
      CompletionActionInv(s, a);
    } else if SweepAction(a) {
      SweepActionInv(s, a);
    } else {
      UpkeepActionInv(s, a);
    }
  }

  ghost predicate SafeRun(s: World, actions: seq<Action>)
    decreases |actions|
  {
    actions != [] ==> Safe(s, actions[0]) && SafeRun(Next(s, actions[0]), actions[1..])
  }

  lemma {:induction false} RunInv(s: World, actions: seq<Action>)
    requires Inv(s) && SafeRun(s, actions)
    ensures Inv(Run(s, actions))
    decreases |actions|
  {
    hide Inv, Safe;
    if actions != [] {
      NextInv(s, actions[0]);
      RunInv(Next(s, actions[0]), actions[1..]);
    }
  }

  // ----- runs with unsafe deletes: the invariant with some receipts waived -----

  /** The state as if retention had already asked for the images in `hit`. */
  function Waive(s: World, hit: set<ReceiptId>): World { s.(tombstones := s.tombstones + hit) }

  ghost function Hit(s: World, a: Action): set<ReceiptId> {
    if Safe(s, a) then {} else {FinalDelete(s, a).value.receipt}
  }

  /** The receipts whose image an unsafe delete has hit during a run. */
  ghost function Hits(s: World, actions: seq<Action>): set<ReceiptId>
    decreases |actions|
  {
    if actions == [] then {} else Hit(s, actions[0]) + Hits(Next(s, actions[0]), actions[1..])
  }

  lemma WaivePut(s: World, hit: set<ReceiptId>, a: Action)
    requires a.CreateSession? || a.BeginPut? || a.StorePart?
    ensures Next(Waive(s, hit), a) == Waive(Next(s, a), hit)
  {
  }

  lemma WaiveClaim(s: World, hit: set<ReceiptId>, a: Action)
    requires a.InsertPart? || a.Claim?
    ensures Next(Waive(s, hit), a) == Waive(Next(s, a), hit)
  {
  }

  lemma WaiveRead(s: World, hit: set<ReceiptId>, a: Action)
    requires a.ReadPart?
    ensures Next(Waive(s, hit), a) == Waive(Next(s, a), hit)
  {
    hide GatherOne;
  }

  lemma WaiveInspect(s: World, hit: set<ReceiptId>, a: Action)
    requires a.Inspect?
    ensures Next(Waive(s, hit), a) == Waive(Next(s, a), hit)
  {
    hide IsWebp;
  }

  lemma WaiveRecord(s: World, hit: set<ReceiptId>, a: Action)
    requires a.RecordKey?
    ensures Next(Waive(s, hit), a) == Waive(Next(s, a), hit)
  {
  }

  lemma WaiveCommit(s: World, hit: set<ReceiptId>, a: Action)
    requires a.StoreImage? || a.Commit?
    ensures Next(Waive(s, hit), a) == Waive(Next(s, a), hit)
  {
  }

  lemma WaiveUndo(s: World, hit: set<ReceiptId>, a: Action)
    requires a.Undo?
    ensures Next(Waive(s, hit), a) == Waive(Next(s, a), hit)
  {
    hide AfterDeletion;
  }

  lemma WaiveReopen(s: World, hit: set<ReceiptId>, a: Action)
    requires a.Reopen? || a.Fail?
    ensures Next(Waive(s, hit), a) == Waive(Next(s, a), hit)
  {
    if a.w in s.workers && (s.workers[a.w].Reopening? || s.workers[a.w].Failing?) {
      WaiveStatus(s, hit, s.workers[a.w].job.upload, if a.Reopen? then Open else Failed);
    }
    hide SetStatus;
  }

  lemma WaiveStatus(s: World, hit: set<ReceiptId>, u: UploadId, status: Status)
    ensures SetStatus(Waive(s, hit), u, Completing, status) == Waive(SetStatus(s, u, Completing, status), hit)
    ensures SetStatus(s, u, Completing, status).workers == s.workers
  {
  }

  lemma WaiveRows(s: World, hit: set<ReceiptId>, u: UploadId)
    ensures ClearRows(Waive(s, hit), u) == Waive(ClearRows(s, u), hit)
    ensures ClearRows(s, u).workers == s.workers
  {
  }

  lemma WaiveTidy(s: World, hit: set<ReceiptId>, a: Action)
    requires a.Tidy?
    ensures Next(Waive(s, hit), a) == Waive(Next(s, a), hit)
  {
    if a.w in s.workers && s.workers[a.w].Tidying? {
      WaiveRows(s, hit, s.workers[a.w].job.upload);
    }
    hide AfterDeletion, ClearRows;
  }

  lemma WaiveCleanUp(s: World, hit: set<ReceiptId>, a: Action)
    requires a.Crash? || a.CleanUp?
    ensures Next(Waive(s, hit), a) == Waive(Next(s, a), hit)
  {
    hide LostKeys, CleanupKeys;
  }

  lemma WaiveSweep(s: World, hit: set<ReceiptId>, a: Action)
    requires a.SweepFinal? || a.CloseCleanup? || a.DropUntracked? || a.SetLimit?
    ensures Next(Waive(s, hit), a) == Waive(Next(s, a), hit)
  {
  }

  lemma WaiveInvoice(s: World, hit: set<ReceiptId>, a: Action)
    requires a.ReviewerInvoice? || a.Purge?
    ensures Next(Waive(s, hit), a) == Waive(Next(s, a), hit)
  {
    hide Without;
  }

  lemma WaiveRetention(s: World, hit: set<ReceiptId>, a: Action)
    requires a.SelectForRetention? || a.DeleteImage? || a.MarkDeleted?
    ensures Next(Waive(s, hit), a) == Waive(Next(s, a), hit)
  {
    hide AfterDeletion;
    if a.SelectForRetention? {
      assert s.tombstones + {a.r} + hit == s.tombstones + hit + {a.r};
    }
  }

  lemma WaiveNext(s: World, hit: set<ReceiptId>, a: Action)
    ensures Next(Waive(s, hit), a) == Waive(Next(s, a), hit)
  {
    hide Next, Waive;
    if a.CreateSession? || a.BeginPut? || a.StorePart? {
      WaivePut(s, hit, a);
    } else if a.InsertPart? || a.Claim? {
      WaiveClaim(s, hit, a);
    } else if a.ReadPart? {
      WaiveRead(s, hit, a);
    } else if a.Inspect? {
      WaiveInspect(s, hit, a);
    } else if a.RecordKey? {
      WaiveRecord(s, hit, a);
    } else if a.StoreImage? || a.Commit? {
      WaiveCommit(s, hit, a);
    } else if a.Undo? {
      WaiveUndo(s, hit, a);
    } else if a.Reopen? || a.Fail? {
      WaiveReopen(s, hit, a);
    } else if a.Tidy? {
      WaiveTidy(s, hit, a);
    } else if a.Crash? || a.CleanUp? {
      WaiveCleanUp(s, hit, a);
    } else if a.SweepFinal? || a.CloseCleanup? || a.DropUntracked? || a.SetLimit? {
      WaiveSweep(s, hit, a);
    } else if a.ReviewerInvoice? || a.Purge? {
      WaiveInvoice(s, hit, a);
    } else {
      WaiveRetention(s, hit, a);
    }
  }

  lemma WaiveMore(s: World, hit: set<ReceiptId>, more: set<ReceiptId>)
    requires Inv(Waive(s, hit))
    ensures Inv(Waive(s, hit + more))
  {
    var t := Waive(s, hit);
    forall w | w in s.workers
      ensures WorkerOk(s.issued, s.sessions, s.tombstones + (hit + more), s.workers[w])
      ensures PendingOk(s.sessions, s.tombstones + (hit + more), s.objects, s.workers[w])
    {
      assert WorkerOk(t.issued, t.sessions, t.tombstones, t.workers[w]);
      assert PendingOk(t.sessions, t.tombstones, t.objects, t.workers[w]);
    }
  }

  lemma WaivedIsSafe(s: World, hit: set<ReceiptId>, a: Action)
    ensures Safe(Waive(s, hit + Hit(s, a)), a)
  {
    var t := Waive(s, hit + Hit(s, a));
    assert FinalDelete(t, a) == FinalDelete(s, a);
    if FinalDelete(s, a).Some? && Safe(s, a) {
      var key := FinalDelete(s, a).value;
      assert forall u :: CompleteWith(t, u, key) <==> CompleteWith(s, u, key);
      assert forall w :: AboutToCommit(t, w, key) <==> AboutToCommit(s, w, key);
    }
  }

  lemma WaivedStep(s: World, hit: set<ReceiptId>, a: Action)
    requires Inv(Waive(s, hit))
    ensures Inv(Waive(Next(s, a), hit + Hit(s, a)))
  {
    hide *;
    WaiveMore(s, hit, Hit(s, a));
    WaivedIsSafe(s, hit, a);
    NextInv(Waive(s, hit + Hit(s, a)), a);
    WaiveNext(s, hit + Hit(s, a), a);
  }

  lemma {:induction false} WaivedRun(s: World, hit: set<ReceiptId>, actions: seq<Action>)
    requires Inv(Waive(s, hit))
    ensures Inv(Waive(Run(s, actions), hit + Hits(s, actions)))
    decreases |actions|
  {
    hide Inv, Waive, Hit;
    if actions == [] {
      assert hit + {} == hit;
    } else {
      WaivedStep(s, hit, actions[0]);
      WaivedRun(Next(s, actions[0]), hit + Hit(s, actions[0]), actions[1..]);
      assert hit + Hit(s, actions[0]) + Hits(Next(s, actions[0]), actions[1..]) == hit + Hits(s, actions);
    }
  }

  lemma InitInv(storageLimit: nat)
    ensures Inv(Init(storageLimit)) && Inv(Waive(Init(storageLimit), {}))
  {
  }

  // ----- the theorems -----

  function Count(log: seq<ReceiptId>, r: ReceiptId): nat { multiset(log)[r] }

  /** Exactly-once completion, in every run of creations, part puts, concurrent completions,
      failures, lost answers, crashes, cleanups, retention passes and purges: a session is COMPLETE
      iff its receipt is filed, and exactly one RECEIVED event and one outbox row exist for it then
      and none before. Until retention its final object has the declared length and digest, unless
      an unsafe delete hit it. */
  lemma ExactlyOnce(storageLimit: nat, actions: seq<Action>)
    ensures
      var s := Run(Init(storageLimit), actions);
      forall u :: u in s.sessions ==>
        var x := s.sessions[u];
        && (x.status == Complete <==> x.receipt in s.receipts)
        && Count(s.receivedAudits, x.receipt) == (if x.status == Complete then 1 else 0)
        && Count(s.outbox, x.receipt) == (if x.status == Complete then 1 else 0)
        && (x.status == Complete ==>
              && s.receipts[x.receipt].imageBytes == x.total
              && s.receipts[x.receipt].imageSha == x.sha
              && x.finalKey == Some(s.receipts[x.receipt].imageKey))
        && (x.status == Complete && x.receipt !in s.tombstones && x.receipt !in Hits(Init(storageLimit), actions) ==>
              ImageIntact(s.objects, x))
  {
    InitInv(storageLimit);
    WaivedRun(Init(storageLimit), {}, actions);
    var s := Run(Init(storageLimit), actions);
    var hits := Hits(Init(storageLimit), actions);
    assert {} + hits == hits;
    hide Hits, Run;
    forall u | u in s.sessions
      ensures FiledFor(s.receipts, s.sessions[u])
    {
    }
  }

  /** No session ever has two live completions, and an OPEN, COMPLETE or FAILED one has none. */
  lemma OneCompletionAtATime(storageLimit: nat, actions: seq<Action>)
    ensures
      var s := Run(Init(storageLimit), actions);
      && Exclusive(s.workers)
      && forall w, u :: Owns(s.workers, w, u) ==> u in s.sessions && s.sessions[u].status in {Completing, Expired}
  {
    InitInv(storageLimit);
    WaivedRun(Init(storageLimit), {}, actions);
    var s := Run(Init(storageLimit), actions);
    var waived := Waive(s, {} + Hits(Init(storageLimit), actions));
    hide Hits, Run;
    forall w, u | Owns(s.workers, w, u)
      ensures u in s.sessions && s.sessions[u].status in {Completing, Expired}
    {
      assert WorkerOk(waived.issued, waived.sessions, waived.tombstones, waived.workers[w]);
    }
  }

  predicate Closed(status: Status) { status == Complete || status == Failed || status == Expired }

  /** What happens to a closed session `u`: nothing, or the purge of its receipt if it is COMPLETE. */
  ghost predicate ClosedKept(s: World, t: World, u: UploadId, purging: bool) {
    && u in t.issued
    && (u !in s.sessions ==> u !in t.sessions)
    && (u in s.sessions && u in t.sessions ==>
          t.sessions[u].status == s.sessions[u].status && t.sessions[u].finalKey == s.sessions[u].finalKey)
    && (u in s.sessions && u !in t.sessions ==> purging && s.sessions[u].status == Complete)
  }

  ghost predicate ClosedOrGone(s: World, u: UploadId) {
    u in s.issued && (u in s.sessions ==> Closed(s.sessions[u].status) && FiledFor(s.receipts, s.sessions[u]))
  }

  lemma ClosedSame(s: World, t: World, u: UploadId)
    requires ClosedOrGone(s, u) && t.sessions == s.sessions && t.issued == s.issued
    ensures ClosedKept(s, t, u, false) && ClosedKept(s, t, u, true)
  {
  }

  lemma ClosedUpload(s: World, a: Action, u: UploadId)
    requires ClosedOrGone(s, u)
    requires a.CreateSession? || a.InsertPart? || a.Claim? || a.RecordKey? || a.Purge?
    ensures ClosedKept(s, Next(s, a), u, a.Purge?)
  {
  }

  lemma ClosedCompletion(s: World, a: Action, u: UploadId)
    requires ClosedOrGone(s, u)
    requires a.Commit? || a.Reopen? || a.Fail?
    ensures ClosedKept(s, Next(s, a), u, false)
  {
  }

  lemma ClosedTidying(s: World, a: Action, u: UploadId)
    requires ClosedOrGone(s, u)
    requires a.Tidy? || a.CleanUp? || a.CloseCleanup?
    ensures ClosedKept(s, Next(s, a), u, false)
  {
  }

  lemma SessionsUntouched(s: World, a: Action)
    requires a.BeginPut? || a.StorePart? || a.ReadPart? || a.Inspect? || a.StoreImage? || a.Undo? || a.Crash?
    ensures Next(s, a).sessions == s.sessions && Next(s, a).issued == s.issued
  {
    hide GatherOne, IsWebp, CheckPut, AfterDeletion;
  }

  lemma SessionsLeftAlone(s: World, a: Action)
    requires a.SweepFinal? || a.DropUntracked? || a.ReviewerInvoice? || a.SelectForRetention? || a.DeleteImage? || a.MarkDeleted? || a.SetLimit?
    ensures Next(s, a).sessions == s.sessions && Next(s, a).issued == s.issued
  {
    hide AfterDeletion;
  }

  /** COMPLETE, FAILED and EXPIRED are absorbing: nothing but the purge of a COMPLETE session's
      receipt touches them, and a purged upload id never comes back. */
  lemma ClosedStep(s: World, a: Action, u: UploadId)
    requires ClosedOrGone(s, u)
    ensures ClosedKept(s, Next(s, a), u, a.Purge?)
  {
    hide ClosedKept, ClosedOrGone, Next;
    if a.CreateSession? || a.InsertPart? || a.Claim? || a.RecordKey? || a.Purge? {
      ClosedUpload(s, a, u);
    } else if a.Commit? || a.Reopen? || a.Fail? {
      ClosedCompletion(s, a, u);
    } else if a.Tidy? || a.CleanUp? || a.CloseCleanup? {
      ClosedTidying(s, a, u);
    } else {
      if a.BeginPut? || a.StorePart? || a.ReadPart? || a.Inspect? || a.StoreImage? || a.Undo? || a.Crash? {
        SessionsUntouched(s, a);
      } else {
        SessionsLeftAlone(s, a);
      }
      ClosedSame(s, Next(s, a), u);
    }
  }

  lemma ClosedKnown(s: World, hit: set<ReceiptId>, u: UploadId)
    requires Inv(Waive(s, hit))
    ensures u in s.sessions && Closed(s.sessions[u].status) ==> ClosedOrGone(s, u)
    ensures u in s.issued && u !in s.sessions ==> ClosedOrGone(s, u)
  {
    if u in s.sessions {
      SessionKnown(Waive(s, hit), u);
    }
  }

  lemma {:induction false} ClosedForever(s: World, hit: set<ReceiptId>, actions: seq<Action>, u: UploadId)
    requires Inv(Waive(s, hit))
    requires u in s.sessions && Closed(s.sessions[u].status)
    ensures
      var t := Run(s, actions);
      && (u in t.sessions ==> t.sessions[u].status == s.sessions[u].status)
      && (u !in t.sessions ==> s.sessions[u].status == Complete)
    decreases |actions|
  {
    ClosedKnown(s, hit, u);
    hide Inv, Waive, Hit;
    if actions != [] {
      var t := Next(s, actions[0]);
      ClosedStep(s, actions[0], u);
      WaivedStep(s, hit, actions[0]);
      hide Next;
      if u in t.sessions {
        ClosedForever(t, hit + Hit(s, actions[0]), actions[1..], u);
      } else {
        GoneForever(t, hit + Hit(s, actions[0]), actions[1..], u);
      }
    }
  }

  lemma {:induction false} GoneForever(s: World, hit: set<ReceiptId>, actions: seq<Action>, u: UploadId)
    requires Inv(Waive(s, hit))
    requires u in s.issued && u !in s.sessions
    ensures u !in Run(s, actions).sessions
    decreases |actions|
  {
    ClosedKnown(s, hit, u);
    hide Inv, Waive, Hit;
    if actions != [] {
      ClosedStep(s, actions[0], u);
      WaivedStep(s, hit, actions[0]);
      hide Next;
      GoneForever(Next(s, actions[0]), hit + Hit(s, actions[0]), actions[1..], u);
    }
  }

  // ----- exactly when a delete loses an image -----

  lemma FinalDeleted(s: World, a: Action)
    requires FinalDelete(s, a).Some? && FinalDelete(s, a).value.ImageKey?
    ensures
      var t := Next(s, a);
      && t.sessions == s.sessions && t.receipts == s.receipts && t.outbox == s.outbox && t.tombstones == s.tombstones
      && FinalDelete(s, a).value !in t.objects
      && forall w :: w in s.workers && s.workers[w].Stored? ==> w in t.workers && t.workers[w] == s.workers[w]
  {
    if a.CleanUp? {
      assert FinalDelete(s, a).value in CleanupKeys(a.u, s.sessions[a.u]);
    }
  }

  lemma EnoughRoom(s: World, n: nat) returns (limit: nat)
    ensures QuotaAllows(s.(storageLimit := limit), n)
  {
    var needed := s.storedBytes + n;
    limit := if needed < 0 then 0 else 2 * needed;
  }

  lemma RunTwo(s: World, a: Action, b: Action)
    ensures Run(s, [a, b]) == Next(Next(s, a), b)
    ensures SafeRun(s, [a, b]) <==> Safe(s, a) && Safe(Next(s, a), b)
  {
    hide Next, Safe;
    assert [a, b][1..] == [b] && [b][1..] == [];
    assert Run(Next(s, a), [b]) == Run(Next(Next(s, a), b), []);
    assert SafeRun(Next(s, a), [b]) <==> Safe(Next(s, a), b);
  }

  /** A completion that commits without its object: once the storage limit allows it. */
  lemma CommitsWithout(t: World, w: WorkerId) returns (actions: seq<Action>)
    requires w in t.workers && t.workers[w].Stored?
    requires
      var x := t.workers[w];
      && x.job.upload in t.sessions && t.sessions[x.job.upload].status == Completing
      && x.job.receipt !in t.receipts && x.job.receipt !in t.outbox
      && t.sessions[x.job.upload].finalKey == Some(x.key) && x.key !in t.objects
    ensures
      var u, end := t.workers[w].job.upload, Run(t, actions);
      && SafeRun(t, actions) && end.tombstones == t.tombstones
      && u in end.sessions && end.sessions[u] == t.sessions[u].(status := Complete) && !ImageIntact(end.objects, end.sessions[u])
  {
    var x := t.workers[w];
    var limit := EnoughRoom(t, |x.body|);
    actions := [SetLimit(limit), Commit(w, true, true)];
    RunTwo(t, SetLimit(limit), Commit(w, true, true));
    var t1 := Next(t, SetLimit(limit));
    assert Next(t1, Commit(w, true, true)) == CommitStep(t1, w, true, true);
    assert CommitStep(t1, w, true, true).sessions == t.sessions[x.job.upload := t.sessions[x.job.upload].(status := Complete)];
  }

  ghost predicate Lossy(s: World, u: UploadId) {
    u in s.sessions && s.sessions[u].status == Complete && s.sessions[u].receipt !in s.tombstones && !ImageIntact(s.objects, s.sessions[u])
  }

  lemma UnsafeLoses(s: World, a: Action) returns (actions: seq<Action>, u: UploadId)
    requires Inv(s) && !Safe(s, a)
    ensures SafeRun(Next(s, a), actions) && Lossy(Run(Next(s, a), actions), u)
  {
    var key := FinalDelete(s, a).value;
    var t := Next(s, a);
    FinalDeleted(s, a);
    hide Next;
    if w :| AboutToCommit(s, w, key) {
      var x := s.workers[w];
      u := x.job.upload;
      WorkerKnown(s, w);
      SessionKnown(s, u);
      assert multiset(s.outbox)[x.job.receipt] == 0;
      hide Inv;
      actions := CommitsWithout(t, w);
    } else {
      u :| CompleteWith(s, u, key);
      SessionKnown(s, u);
      hide Inv;
      actions := [];
    }
  }

  /** An action is harmless in every safe continuation exactly if it is safe: else some continuation,
      of no further unsafe delete, ends with a COMPLETE session whose image is gone. */
  lemma HarmlessIff(s: World, a: Action)
    requires Inv(s)
    ensures Safe(s, a) <==>
            forall actions, u :: SafeRun(Next(s, a), actions) ==> !Lossy(Run(Next(s, a), actions), u)
  {
    var t := Next(s, a);
    if Safe(s, a) {
      NextInv(s, a);
      hide Next, Safe;
      forall actions, u | SafeRun(t, actions)
        ensures !Lossy(Run(t, actions), u)
      {
        RunInv(t, actions);
        hide Run, SafeRun;
      }
    } else {
      var actions, u := UnsafeLoses(s, a);
    }
  }

  /** A receipt transaction that went through unheard, with the except branch right after it, loses the
      image exactly if the delete takes effect and no retention pass has asked for that image yet. */
  lemma LostAnswerIff(s: World, w: WorkerId, d: Deletion)
    requires Inv(s) && Commits(s, w, true)
    ensures
      var end := Next(Next(s, Commit(w, true, false)), Undo(w, d));
      Lossy(end, s.workers[w].job.upload) <==> Removes(d) && s.workers[w].job.receipt !in s.tombstones
  {
    var x := s.workers[w];
    WorkerKnown(s, w);
    SessionKnown(s, x.job.upload);
    CommitIs(s, w, true, false);
    assert PendingOk(s.sessions, s.tombstones, s.objects, x);
    hide Inv, CommitStep, Commits;
    UndoneMisled(Completed(EndWorker(s, w), x.job.upload, x.key), w, x.job, x.key, d);
  }

  lemma UndoneMisled(s: World, w: WorkerId, job: Job, key: Key, d: Deletion)
    ensures
      var end := UndoStep(SetWorker(s, w, Misled(job, key)), w, d);
      end.sessions == s.sessions && end.tombstones == s.tombstones && end.objects == AfterDeletion(s.objects, key, d)
  {
  }
}
