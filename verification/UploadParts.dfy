/** What the lock on a part guarantees in every run: one put of it at a time, and a recorded part whose
    object is stored has the object that was recorded. */
module UploadParts {
  import opened Options
  import opened Reassembly
  import opened UploadWorld

  predicate Puts(x: Worker, u: UploadId, n: nat) { (x.PutChecked? || x.PutStored?) && x.upload == u && x.number == n }

  ghost predicate OnePutAtATime(workers: map<WorkerId, Worker>) {
    forall v, w, u, n :: v in workers && w in workers && Puts(workers[v], u, n) && Puts(workers[w], u, n) ==> v == w
  }

  /** A part that is being put is not recorded yet. */
  ghost predicate PutsAreNew(workers: map<WorkerId, Worker>, sessions: map<UploadId, Session>) {
    forall w, u, n :: w in workers && Puts(workers[w], u, n) && u in sessions ==> n !in sessions[u].rows
  }

  /** Between storing the object and recording it, the object is the call's own, or deleted. */
  ghost predicate PutsStored(workers: map<WorkerId, Worker>, objects: map<Key, Bytes>) {
    forall w :: w in workers && workers[w].PutStored? && PartKey(workers[w].upload, workers[w].number) in objects ==>
      objects[PartKey(workers[w].upload, workers[w].number)] == workers[w].body
  }

  /** Every recorded part whose object is stored has the recorded one. */
  ghost predicate RecordedStored(sessions: map<UploadId, Session>, objects: map<Key, Bytes>) {
    forall u, n :: u in sessions && n in sessions[u].rows && PartKey(u, n) in objects ==>
      Sha256(objects[PartKey(u, n)]) == sessions[u].rows[n].sha && |objects[PartKey(u, n)]| == sessions[u].rows[n].length
  }

  /** No completion stores its image over a part. */
  ghost predicate ImagesApart(workers: map<WorkerId, Worker>) {
    forall w :: w in workers && workers[w].Keyed? ==> workers[w].key.ImageKey?
  }

  ghost predicate PartsOk(s: World) {
    && ImagesApart(s.workers) && OnePutAtATime(s.workers) && PutsAreNew(s.workers, s.sessions)
    && PutsStored(s.workers, s.objects) && RecordedStored(s.sessions, s.objects)
  }

  ghost predicate FewerPuts(workers: map<WorkerId, Worker>, after: map<WorkerId, Worker>) {
    forall w :: w in after && (after[w].PutChecked? || after[w].PutStored?) ==> w in workers && after[w] == workers[w]
  }

  ghost predicate FewerRows(sessions: map<UploadId, Session>, after: map<UploadId, Session>) {
    forall u :: u in after ==>
      if u in sessions then forall n :: n in after[u].rows ==> n in sessions[u].rows && after[u].rows[n] == sessions[u].rows[n]
      else after[u].rows == map[]
  }

  ghost predicate FewerObjects(objects: map<Key, Bytes>, after: map<Key, Bytes>) {
    forall k :: k in after && k.PartKey? ==> k in objects && after[k] == objects[k]
  }

  /** The calls that put parts, the rows and the part objects are the same or fewer. */
  ghost predicate Fewer(s: World, t: World) {
    FewerPuts(s.workers, t.workers) && ImagesApart(t.workers) && FewerRows(s.sessions, t.sessions) && FewerObjects(s.objects, t.objects)
  }

  lemma FewerKeeps(s: World, t: World)
    requires PartsOk(s) && Fewer(s, t)
    ensures PartsOk(t)
  {
  }

  lemma SessionsFewer(s: World, a: Action)
    requires ImagesApart(s.workers) && (a.CreateSession? || a.Claim?)
    ensures Fewer(s, Next(s, a))
  {
    hide OrderedRows;
  }

  lemma ReadFewer(s: World, a: Action)
    requires ImagesApart(s.workers) && (a.ReadPart?)
    ensures Fewer(s, Next(s, a))
  {
    hide GatherOne;
  }

  lemma InspectFewer(s: World, a: Action)
    requires ImagesApart(s.workers) && (a.Inspect?)
    ensures Fewer(s, Next(s, a))
  {
    hide IsWebp;
  }

  lemma ImageFewer(s: World, a: Action)
    requires ImagesApart(s.workers) && (a.RecordKey? || a.StoreImage?)
    ensures Fewer(s, Next(s, a))
  {
  }

  lemma CommitFewer(s: World, a: Action)
    requires ImagesApart(s.workers) && (a.Commit?)
    ensures Fewer(s, Next(s, a))
  {
  }

  lemma UndoFewer(s: World, a: Action)
    requires ImagesApart(s.workers) && (a.Undo?)
    ensures Fewer(s, Next(s, a))
  {
  }

  lemma EndsFewer(s: World, a: Action)
    requires ImagesApart(s.workers) && (a.Reopen? || a.Fail? || a.Crash?)
    ensures Fewer(s, Next(s, a))
  {
  }

  lemma TidyFewer(s: World, a: Action)
    requires ImagesApart(s.workers) && (a.Tidy?)
    ensures Fewer(s, Next(s, a))
  {
  }

  lemma SweepsFewer(s: World, a: Action)
    requires ImagesApart(s.workers) && (a.CleanUp? || a.SweepFinal? || a.CloseCleanup? || a.DropUntracked? || a.SetLimit?)
    ensures Fewer(s, Next(s, a))
  {
    hide LostKeys, CleanupKeys;
  }

  lemma RetentionFewer(s: World, a: Action)
    requires ImagesApart(s.workers) && (a.ReviewerInvoice? || a.SelectForRetention? || a.DeleteImage? || a.MarkDeleted? || a.Purge?)
    ensures Fewer(s, Next(s, a))
  {
    hide Without;
  }

  /** The three actions of a put. */
  lemma BeginPutKeeps(s: World, a: Action)
    requires PartsOk(s) && a.BeginPut?
    ensures PartsOk(Next(s, a))
  {
    var t := Next(s, a);
    if t != s {
      assert !PutLocked(s, a.u, a.n);
      forall w, n: nat | w in s.workers && Puts(s.workers[w], a.u, n)
        ensures n != a.n
      {
      }
    }
  }

  lemma StorePartKeeps(s: World, a: Action)
    requires PartsOk(s) && a.StorePart?
    ensures PartsOk(Next(s, a))
  {
    if a.w in s.workers && s.workers[a.w].PutChecked? {
      assert Puts(s.workers[a.w], s.workers[a.w].upload, s.workers[a.w].number);
    }
  }

  lemma InsertPartKeeps(s: World, a: Action)
    requires PartsOk(s) && a.InsertPart?
    ensures PartsOk(Next(s, a))
  {
    if a.w in s.workers && s.workers[a.w].PutStored? {
      assert Puts(s.workers[a.w], s.workers[a.w].upload, s.workers[a.w].number);
    }
  }

  lemma ApartKnown(s: World)
    requires PartsOk(s)
    ensures ImagesApart(s.workers)
  {
  }

  lemma PartsStep(s: World, a: Action)
    requires PartsOk(s)
    ensures PartsOk(Next(s, a))
  {
    hide Next, PartsOk, Fewer;
    if a.BeginPut? {
      BeginPutKeeps(s, a);
    } else if a.StorePart? {
      StorePartKeeps(s, a);
    } else if a.InsertPart? {
      InsertPartKeeps(s, a);
    } else {
      ApartKnown(s);
      if a.CreateSession? || a.Claim? {
        SessionsFewer(s, a);
      } else if a.ReadPart? {
        ReadFewer(s, a);
      } else if a.Inspect? {
        InspectFewer(s, a);
      } else if a.RecordKey? || a.StoreImage? {
        ImageFewer(s, a);
      } else if a.Commit? {
        CommitFewer(s, a);
      } else if a.Undo? {
        UndoFewer(s, a);
      } else if a.Reopen? || a.Fail? || a.Crash? {
        EndsFewer(s, a);
      } else if a.Tidy? {
        TidyFewer(s, a);
      } else if a.CleanUp? || a.SweepFinal? || a.CloseCleanup? || a.DropUntracked? || a.SetLimit? {
        SweepsFewer(s, a);
      } else {
        RetentionFewer(s, a);
      }
      FewerKeeps(s, Next(s, a));
    }
  }

  lemma {:induction false} PartsRun(s: World, actions: seq<Action>)
    requires PartsOk(s)
    ensures PartsOk(Run(s, actions))
    decreases |actions|
  {
    hide Next, PartsOk;
    if actions != [] {
      PartsStep(s, actions[0]);
      PartsRun(Next(s, actions[0]), actions[1..]);
    }
  }

  /** In every run from a new tenant no two calls put the same part at a time, and what is stored for a
      recorded part is what was recorded, concurrent puts of other contents, crashes between the
      object and its row, repetitions and cleanups included. */
  lemma PartsIntact(storageLimit: nat, actions: seq<Action>)
    ensures
      var s := Run(Init(storageLimit), actions);
      && (forall v, w, u, n :: v in s.workers && w in s.workers && Puts(s.workers[v], u, n) && Puts(s.workers[w], u, n) ==> v == w)
      && (forall u, n :: u in s.sessions && n in s.sessions[u].rows && PartKey(u, n) in s.objects ==>
            && Sha256(s.objects[PartKey(u, n)]) == s.sessions[u].rows[n].sha
            && |s.objects[PartKey(u, n)]| == s.sessions[u].rows[n].length)
  {
    PartsRun(Init(storageLimit), actions);
  }
}
