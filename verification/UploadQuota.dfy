/** The byte quota over the same runs as the upload protocol: what is charged, what is refunded,
    and when the counter equals the bytes still stored. */
module UploadQuota {
  import opened Options
  import opened Reassembly
  import opened UploadWorld
  import Sums

  /** What a receipt still weighs: nothing once its image is marked deleted. */
  function Weight(x: Receipt): nat { if x.imageDeleted then 0 else x.imageBytes }

  function Weights(receipts: map<ReceiptId, Receipt>): map<ReceiptId, int> {
    map r | r in receipts :: Weight(receipts[r])
  }

  /** The bytes of all receipts whose image was not deleted. */
  ghost function Live(receipts: map<ReceiptId, Receipt>): int { Sums.Total(Weights(receipts)) }

  /** The counter covers the live bytes and is within nine tenths of `limit`, the highest storage
      limit so far. */
  ghost predicate QuotaOk(s: World, limit: nat) {
    Live(s.receipts) <= s.storedBytes && 10 * s.storedBytes <= 9 * limit && s.storageLimit <= limit
  }

  function Max(a: nat, b: nat): nat { if a >= b then a else b }

  function Raised(limit: nat, a: Action): nat { if a.SetLimit? then Max(limit, a.limit) else limit }

  /** The highest storage limit in force during a run. */
  function Highest(limit: nat, actions: seq<Action>): nat
    decreases |actions|
  {
    if actions == [] then limit else Highest(Raised(limit, actions[0]), actions[1..])
  }

  ghost predicate Exact(s: World) { s.storedBytes == Live(s.receipts) }

  lemma LiveSet(receipts: map<ReceiptId, Receipt>, r: ReceiptId, x: Receipt)
    ensures Live(receipts[r := x]) == Live(receipts) + Weight(x) - if r in receipts then Weight(receipts[r]) else 0
  {
    Sums.TotalSet(Weights(receipts), r, Weight(x));
    assert Weights(receipts[r := x]) == Weights(receipts)[r := Weight(x)];
  }

  lemma LiveBounds(receipts: map<ReceiptId, Receipt>)
    ensures 0 <= Live(receipts)
    ensures forall r :: r in receipts ==> Weight(receipts[r]) <= Live(receipts)
  {
    Sums.TotalNonNegative(Weights(receipts));
    assert forall r :: r in receipts ==> r in Weights(receipts) && Weights(receipts)[r] == Weight(receipts[r]);
  }

  /** The receipts a purge of `ids` takes. */
  function Taken(receipts: map<ReceiptId, Receipt>, ids: set<ReceiptId>): map<ReceiptId, Receipt> {
    map r | r in receipts && r in ids :: receipts[r]
  }

  lemma LivePurge(receipts: map<ReceiptId, Receipt>, ids: set<ReceiptId>)
    ensures Live(receipts) == Live(receipts - ids) + Live(Taken(receipts, ids))
  {
    var kept := Weights(receipts - ids);
    var taken := Weights(Taken(receipts, ids));
    Sums.TotalUnion(kept, taken);
    assert kept + taken == Weights(receipts);
  }

  /** The image of every receipt in `ids` was deleted before. */
  ghost predicate ImagesGone(receipts: map<ReceiptId, Receipt>, ids: set<ReceiptId>) {
    forall r :: r in receipts && r in ids ==> Weight(receipts[r]) == 0
  }

  lemma {:induction false} AllZero(receipts: map<ReceiptId, Receipt>)
    ensures Live(receipts) == 0 <==> forall r :: r in receipts ==> Weight(receipts[r]) == 0
    decreases |receipts|
  {
    LiveBounds(receipts);
    if receipts != map[] && forall r :: r in receipts ==> Weight(receipts[r]) == 0 {
      var r :| r in receipts;
      var rest := receipts - {r};
      AllZero(rest);
      LiveSet(rest, r, receipts[r]);
      assert rest[r := receipts[r]] == receipts;
    }
  }

  predicate SameBytes(s: World, t: World) {
    t.receipts == s.receipts && t.storedBytes == s.storedBytes && t.storageLimit == s.storageLimit
  }

  lemma QuietUploads(s: World, a: Action)
    requires a.CreateSession? || a.BeginPut? || a.StorePart? || a.InsertPart? || a.Claim? || a.ReadPart? || a.Inspect? || a.RecordKey? || a.StoreImage?
    ensures SameBytes(s, Next(s, a))
  {
  }

  lemma QuietEnds(s: World, a: Action)
    requires a.Undo? || a.Reopen? || a.Fail? || a.Tidy? || a.Crash?
    ensures SameBytes(s, Next(s, a))
  {
  }

  lemma QuietSweeps(s: World, a: Action)
    requires a.CleanUp? || a.SweepFinal? || a.CloseCleanup? || a.DropUntracked? || a.SelectForRetention? || a.DeleteImage?
    ensures SameBytes(s, Next(s, a))
  {
  }

  /** The difference between the counter and the live bytes. */
  ghost function Slack(s: World): int { s.storedBytes - Live(s.receipts) }

  /** With everything else in order, a new session is opened exactly if its bytes would leave the
      counter within nine tenths of the limit. */
  lemma SessionAdmittedIff(s: World, u: UploadId, r: ReceiptId, total: nat, sha: Digest)
    requires u !in s.issued && u !in s.sessions && total > 0 && r !in s.receipts
    requires forall v :: v in s.sessions ==> s.sessions[v].receipt != r
    ensures u in Next(s, CreateSession(u, r, total, sha)).sessions <==> 10 * (s.storedBytes + total) <= 9 * s.storageLimit
    ensures u in Next(s, CreateSession(u, r, total, sha)).sessions ==>
              Next(s, CreateSession(u, r, total, sha)) ==
              s.(issued := s.issued + {u}, sessions := s.sessions[u := Session(r, total, sha, Open, map[], None)])
  {
  }

  /** So is a completion's receipt filed and charged. */
  lemma CompletionAdmittedIff(s: World, w: WorkerId, heard: bool)
    requires w in s.workers && s.workers[w].Stored?
    requires
      var job := s.workers[w].job;
      && job.upload in s.sessions && s.sessions[job.upload].status == Completing
      && job.receipt !in s.receipts && job.receipt !in s.outbox
    ensures
      var job, n, t := s.workers[w].job, |s.workers[w].body|, Next(s, Commit(w, true, heard));
      && (job.receipt in t.receipts <==> 10 * (s.storedBytes + n) <= 9 * s.storageLimit)
      && t.storedBytes == s.storedBytes + if job.receipt in t.receipts then n else 0
  {
  }

  /** So is an image invoice made at the dashboard. */
  lemma InvoiceAdmittedIff(s: World, r: ReceiptId, day: Day, body: Bytes)
    requires r !in s.receipts && r !in s.outbox && forall v :: v in s.sessions ==> s.sessions[v].receipt != r
    ensures
      var t := Next(s, ReviewerInvoice(r, day, body, true));
      && (r in t.receipts <==> 10 * (s.storedBytes + |body|) <= 9 * s.storageLimit)
      && t.storedBytes == s.storedBytes + if r in t.receipts then |body| else 0
  {
  }

  lemma CommitQuota(s: World, w: WorkerId, admitted: bool, heard: bool, limit: nat)
    requires QuotaOk(s, limit)
    ensures QuotaOk(CommitStep(s, w, admitted, heard), limit) && Slack(CommitStep(s, w, admitted, heard)) == Slack(s)
  {
    var t := CommitStep(s, w, admitted, heard);
    if t.receipts != s.receipts {
      var x := s.workers[w];
      LiveSet(s.receipts, x.job.receipt, t.receipts[x.job.receipt]);
    }
  }

  lemma ReviewerQuota(s: World, r: ReceiptId, day: Day, body: Bytes, admitted: bool, limit: nat)
    requires QuotaOk(s, limit)
    ensures QuotaOk(ReviewerInvoiceStep(s, r, day, body, admitted), limit)
    ensures Slack(ReviewerInvoiceStep(s, r, day, body, admitted)) == Slack(s)
  {
    var t := ReviewerInvoiceStep(s, r, day, body, admitted);
    if t != s {
      LiveSet(s.receipts, r, t.receipts[r]);
    }
  }

  lemma MarkQuota(s: World, w: WorkerId, limit: nat)
    requires QuotaOk(s, limit)
    ensures QuotaOk(MarkDeletedStep(s, w), limit) && Slack(MarkDeletedStep(s, w)) == Slack(s)
  {
    var t := MarkDeletedStep(s, w);
    if t.receipts != s.receipts {
      var r := s.workers[w].receipt;
      LiveBounds(s.receipts);
      LiveSet(s.receipts, r, t.receipts[r]);
    }
  }

  lemma PurgeQuota(s: World, ids: set<ReceiptId>, limit: nat)
    requires QuotaOk(s, limit)
    ensures QuotaOk(PurgeStep(s, ids), limit)
  {
    if ids <= s.receipts.Keys {
      LivePurge(s.receipts, ids);
      LiveBounds(Taken(s.receipts, ids));
    }
  }

  lemma QuietStep(s: World, a: Action)
    requires !a.Commit? && !a.ReviewerInvoice? && !a.MarkDeleted? && !a.Purge? && !a.SetLimit?
    ensures SameBytes(s, Next(s, a))
  {
    hide Next, SameBytes;
    if a.Undo? || a.Reopen? || a.Fail? || a.Tidy? || a.Crash? {
      QuietEnds(s, a);
    } else if a.CleanUp? || a.SweepFinal? || a.CloseCleanup? || a.DropUntracked? || a.SelectForRetention? || a.DeleteImage? {
      QuietSweeps(s, a);
    } else {
      QuietUploads(s, a);
    }
  }

  /** How far one action moves the counter and the live bytes. Only the receipt transactions, the
      image-deleted mark and the purge touch either. */
  lemma QuotaStep(s: World, a: Action, limit: nat)
    requires QuotaOk(s, limit)
    ensures QuotaOk(Next(s, a), Raised(limit, a))
    ensures !a.Purge? ==> Slack(s) == Slack(Next(s, a))
  {
    hide QuotaOk, Slack, Next, CommitStep, ReviewerInvoiceStep, MarkDeletedStep, PurgeStep;
    match a
    case Commit(w, admitted, heard) =>
      CommitQuota(s, w, admitted, heard, limit);
      TouchingStep(s, a);
    case ReviewerInvoice(r, day, body, admitted) =>
      ReviewerQuota(s, r, day, body, admitted, limit);
      TouchingStep(s, a);
    case MarkDeleted(w) =>
      MarkQuota(s, w, limit);
      TouchingStep(s, a);
    case Purge(ids) =>
      PurgeQuota(s, ids, limit);
      TouchingStep(s, a);
    case SetLimit(_) =>
      LimitQuota(s, a, limit);
    case _ =>
      QuietStep(s, a);
      SameQuota(s, Next(s, a), limit);
  }

  lemma TouchingStep(s: World, a: Action)
    ensures a.Commit? ==> Next(s, a) == CommitStep(s, a.w, a.admitted, a.heard)
    ensures a.ReviewerInvoice? ==> Next(s, a) == ReviewerInvoiceStep(s, a.r, a.day, a.body, a.admitted)
    ensures a.MarkDeleted? ==> Next(s, a) == MarkDeletedStep(s, a.w)
    ensures a.Purge? ==> Next(s, a) == PurgeStep(s, a.ids)
  {
    hide CommitStep, ReviewerInvoiceStep, MarkDeletedStep, PurgeStep;
  }

  lemma LimitQuota(s: World, a: Action, limit: nat)
    requires QuotaOk(s, limit) && a.SetLimit?
    ensures QuotaOk(Next(s, a), Raised(limit, a)) && Slack(Next(s, a)) == Slack(s)
  {
  }

  lemma SameQuota(s: World, t: World, limit: nat)
    requires QuotaOk(s, limit) && SameBytes(s, t)
    ensures QuotaOk(t, limit) && Slack(t) == Slack(s)
  {
  }

  /** The refund is never clamped: what is taken off was charged. */
  lemma NeverClamped(s: World, w: WorkerId, limit: nat)
    requires QuotaOk(s, limit)
    requires w in s.workers && s.workers[w].Retired?
    requires s.workers[w].receipt in s.receipts && !s.receipts[s.workers[w].receipt].imageDeleted
    ensures MarkDeletedStep(s, w).storedBytes == s.storedBytes - s.receipts[s.workers[w].receipt].imageBytes >= 0
  {
    LiveBounds(s.receipts);
  }

  /** One action keeps the counter exact iff it is not a purge of a receipt whose image is still charged. */
  lemma ExactStep(s: World, a: Action, limit: nat)
    requires QuotaOk(s, limit) && Exact(s)
    ensures Exact(Next(s, a)) <==> (a.Purge? && a.ids <= s.receipts.Keys ==> ImagesGone(s.receipts, a.ids))
  {
    QuotaStep(s, a, limit);
    if a.Purge? && a.ids <= s.receipts.Keys {
      LivePurge(s.receipts, a.ids);
      AllZero(Taken(s.receipts, a.ids));
      var taken := Taken(s.receipts, a.ids);
      assert ImagesGone(s.receipts, a.ids) ==> forall r :: r in taken ==> Weight(taken[r]) == 0;
      assert forall r :: r in s.receipts && r in a.ids ==> r in taken && taken[r] == s.receipts[r];
    }
  }

  /** Every purge of the run takes only receipts whose image was deleted before. */
  ghost predicate CleanPurges(s: World, actions: seq<Action>)
    decreases |actions|
  {
    actions != [] ==>
      && (actions[0].Purge? && actions[0].ids <= s.receipts.Keys ==> ImagesGone(s.receipts, actions[0].ids))
      && CleanPurges(Next(s, actions[0]), actions[1..])
  }

  lemma SlackGrows(s: World, a: Action, limit: nat)
    requires QuotaOk(s, limit)
    ensures Slack(s) <= Slack(Next(s, a))
  {
    QuotaStep(s, a, limit);
    if a.Purge? && a.ids <= s.receipts.Keys {
      LivePurge(s.receipts, a.ids);
      LiveBounds(Taken(s.receipts, a.ids));
    }
  }

  /** Conservation over whole runs: the counter covers the undeleted bytes and stays within nine
      tenths of the highest limit in force. */
  lemma {:induction false} QuotaRun(s: World, actions: seq<Action>, limit: nat)
    requires QuotaOk(s, limit)
    ensures QuotaOk(Run(s, actions), Highest(limit, actions))
    ensures Slack(s) <= Slack(Run(s, actions))
    decreases |actions|
  {
    hide QuotaOk, Slack, Next;
    if actions != [] {
      QuotaStep(s, actions[0], limit);
      SlackGrows(s, actions[0], limit);
      QuotaRun(Next(s, actions[0]), actions[1..], Raised(limit, actions[0]));
    }
  }

  /** From an exact counter, it is exact at the end of a run iff every purge on the way was clean. */
  lemma {:induction false} ExactRun(s: World, actions: seq<Action>, limit: nat)
    requires QuotaOk(s, limit) && Exact(s)
    ensures Exact(Run(s, actions)) <==> CleanPurges(s, actions)
    decreases |actions|
  {
    hide QuotaOk, Next;
    if actions != [] {
      QuotaStep(s, actions[0], limit);
      ExactStep(s, actions[0], limit);
      SlackGrows(s, actions[0], limit);
      var t := Next(s, actions[0]);
      if Exact(t) {
        ExactRun(t, actions[1..], Raised(limit, actions[0]));
      } else {
        QuotaRun(t, actions[1..], Raised(limit, actions[0]));
      }
    }
  }

  /** From a new tenant on: the counter covers the live bytes, never exceeds nine tenths of the
      highest limit in force, and equals the live bytes exactly when no purge took a charged image. */
  lemma ByteQuota(storageLimit: nat, actions: seq<Action>)
    ensures
      var s := Run(Init(storageLimit), actions);
      && 0 <= Live(s.receipts) <= s.storedBytes && 10 * s.storedBytes <= 9 * Highest(storageLimit, actions)
      && (s.storedBytes == Live(s.receipts) <==> CleanPurges(Init(storageLimit), actions))
  {
    var s := Init(storageLimit);
    assert Weights(s.receipts) == map[];
    QuotaRun(s, actions, storageLimit);
    ExactRun(s, actions, storageLimit);
    LiveBounds(Run(s, actions).receipts);
  }
}
