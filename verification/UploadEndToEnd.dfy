/** From the first part to the answer: an image's parts put in any order, any number of times, and then
    completed. */
module UploadEndToEnd {
  import opened Options
  import opened Reassembly
  import opened UploadWorld
  import opened UploadService
  import UploadSafety

  function PutActions(w: WorkerId, u: UploadId, n: nat, body: Bytes): seq<Action> {
    [BeginPut(w, u, n, body, Sha256(body)), StorePart(w), InsertPart(w)]
  }

  /** The calls that put the parts `order` of an image, one after the other. */
  ghost function PutRun(w: WorkerId, u: UploadId, image: Bytes, order: seq<nat>): seq<Action>
    requires PartsOf(image, order)
    decreases |order|
  {
    if order == [] then [] else PutActions(w, u, order[0], Slice(image, order[0])) + PutRun(w, u, image, order[1..])
  }

  ghost function PartsIn(s: World, u: UploadId): PartStore
    requires u in s.sessions
  {
    PartStore(s.sessions[u].rows, PartObjects(s.objects, u))
  }

  /** Apart from the parts of session `u`, which are `parts`, the state is as in `s`. */
  ghost predicate OnlyParts(s: World, t: World, u: UploadId, parts: PartStore) {
    && u in s.sessions && u in t.sessions
    && t == s.(sessions := t.sessions, objects := t.objects)
    && t.sessions[u] == s.sessions[u].(rows := parts.rows)
    && PartsIn(t, u) == parts
  }

  lemma OnePart(objects: map<Key, Bytes>, u: UploadId, n: nat, body: Bytes)
    ensures PartObjects(objects[PartKey(u, n) := body], u) == PartObjects(objects, u)[n := body]
  {
  }

  /** A part upload, undisturbed, is `Put` on the parts of its session. */
  lemma PutRefines(s: World, w: WorkerId, u: UploadId, n: nat, body: Bytes)
    requires w !in s.workers && u in s.sessions && s.sessions[u].status == Open && !PutLocked(s, u, n)
    ensures OnlyParts(s, Run(s, PutActions(w, u, n, body)), u, Put(PartsIn(s, u), s.sessions[u].total, n, body, Sha256(body)))
  {
    var declared := Sha256(body);
    hide Run, PutLocked, CheckPut;
    OnePart(s.objects, u, n, body);
    if CheckPut(s.sessions[u].rows, s.sessions[u].total, n, body, declared) == Store {
      PutStores(s, w, u, n, body, declared);
    } else {
      PutRefused(s, w, u, n, body, declared);
    }
  }

  /** Nobody is putting a part of session `u`. */
  ghost predicate Quiet(s: World, u: UploadId) { forall n: nat :: !PutLocked(s, u, n) }

  lemma {:induction false} PutRunRefines(s: World, w: WorkerId, u: UploadId, image: Bytes, order: seq<nat>)
    requires w !in s.workers && u in s.sessions && s.sessions[u].status == Open && Quiet(s, u)
    requires s.sessions[u].total == |image| && PartsOf(image, order)
    ensures OnlyParts(s, Run(s, PutRun(w, u, image, order)), u, PutAll(PartsIn(s, u), image, order))
    decreases |order|
  {
    hide Run, Put, Slice, PartObjects;
    if order == [] {
      RunNothing(s);
    } else {
      var body := Slice(image, order[0]);
      var t := Run(s, PutActions(w, u, order[0], body));
      PutRefines(s, w, u, order[0], body);
      QuietKept(s, t, u);
      PutRunRefines(t, w, u, image, order[1..]);
      RunConcat(s, PutActions(w, u, order[0], body), PutRun(w, u, image, order[1..]));
    }
  }

  lemma QuietKept(s: World, t: World, u: UploadId)
    requires Quiet(s, u) && t.workers == s.workers
    ensures Quiet(t, u)
  {
    forall n: nat
      ensures !PutLocked(t, u, n)
    {
      assert !PutLocked(s, u, n);
    }
  }

  /** In every reachable state the receipt of an OPEN session is still to be filed. */
  lemma OpenUnfiled(storageLimit: nat, actions: seq<Action>, u: UploadId)
    ensures
      var s := Run(Init(storageLimit), actions);
      u in s.sessions && s.sessions[u].status == Open ==> s.sessions[u].receipt !in s.receipts && s.sessions[u].receipt !in s.outbox
  {
    UploadSafety.ExactlyOnce(storageLimit, actions);
  }

  /** End to end, from any reachable state in which session `u` is OPEN and holds any of the parts of an
      image of the declared length: put at least the others, in any order and any number of times,
      and complete. The answer depends on the image, the declared digest, the admission checks and the
      byte quota, and on nothing else. */
  lemma ImageReceived(storageLimit: nat, before: seq<Action>, w: WorkerId, u: UploadId, image: Bytes, order: seq<nat>,
                      admitted: bool, heard: bool)
    requires PartsOf(image, order)
    requires
      var s := Run(Init(storageLimit), before);
      && w !in s.workers && Quiet(s, u)
      && u in s.sessions && s.sessions[u].status == Open && s.sessions[u].total == |image|
      && HoldsSlices(PartsIn(s, u), image)
      && forall n: nat :: n < PartCount(|image|) ==> n in s.sessions[u].rows || n in order
    ensures
      var s := Run(Init(storageLimit), before);
      var x := s.sessions[u];
      Verdict(Run(s, PutRun(w, u, image, order)), u, admitted, heard) ==
      if !IsWebp(image) then InvalidImage
      else if x.sha != Sha256(image) then ChecksumMismatch
      else if !admitted || 10 * (s.storedBytes + |image|) > 9 * s.storageLimit then NotAdmitted
      else if heard then Received(x.receipt)
      else AnswerLost
  {
    OpenUnfiled(storageLimit, before, u);
    var s := Run(Init(storageLimit), before);
    hide Run, IsWebp, Assembled, PartObjects, PutAll, PutRun, HoldsSlices;
    PutRunRefines(s, w, u, image, order);
    ResumedRoundTrip(PartsIn(s, u), image, order);
  }

  /** In every reachable state the rows of a session are those of its parts. */
  lemma RowsValid(storageLimit: nat, actions: seq<Action>, u: UploadId)
    ensures
      var s := Run(Init(storageLimit), actions);
      u in s.sessions ==> ValidRows(s.sessions[u].rows, s.sessions[u].total)
  {
    var start, s := Init(storageLimit), Run(Init(storageLimit), actions);
    UploadSafety.InitInv(storageLimit);
    UploadSafety.WaivedRun(start, {}, actions);
    hide Run, UploadSafety.Hits;
    if u in s.sessions {
      assert UploadSafety.SessionOk(UploadSafety.Waive(s, {} + UploadSafety.Hits(start, actions)).sessions[u]);
    }
  }

  function Least(a: nat, b: nat): nat { if a <= b then a else b }

  /** The object of part `n` is stored, of the length that the part has. */
  predicate PartStored(s: World, u: UploadId, n: nat)
    requires u in s.sessions
  {
    && n in s.sessions[u].rows && PartKey(u, n) in s.objects
    && n * 256000 + |s.objects[PartKey(u, n)]| == Least((n + 1) * 256000, s.sessions[u].total)
  }

  /** `body` is the session's part objects one after the other. */
  ghost predicate JoinsParts(body: Bytes, s: World, u: UploadId)
    requires u in s.sessions
  {
    && |body| == s.sessions[u].total
    && forall n: nat :: n * 256000 < |body| ==>
         PartStored(s, u, n) && body[n * 256000..Least((n + 1) * 256000, |body|)] == s.objects[PartKey(u, n)]
  }

  /** The answers of a completion, from any reachable state. */
  lemma CompletionCases(storageLimit: nat, before: seq<Action>, u: UploadId, admitted: bool, heard: bool)
    ensures
      var s := Run(Init(storageLimit), before);
      var answer := Verdict(s, u, admitted, heard);
      && (u !in s.sessions ==> answer == NotOpen)
      && (u in s.sessions ==>
            var x := s.sessions[u];
            match x.status
            case Complete => answer == Duplicate(x.receipt)
            case Completing => answer == NotOpen
            case Failed => answer == NotOpen
            case Expired => answer == NotOpen
            case Open =>
              && (answer == Incomplete <==> exists n: nat :: n * 256000 < x.total && !PartStored(s, u, n))
              && (answer != Incomplete ==>
                    exists body :: JoinsParts(body, s, u)
                      && answer ==
                         if !IsWebp(body) then InvalidImage
                         else if x.sha != Sha256(body) then ChecksumMismatch
                         else if !admitted || 10 * (s.storedBytes + |body|) > 9 * s.storageLimit then NotAdmitted
                         else if heard then Received(x.receipt)
                         else AnswerLost))
  {
    OpenUnfiled(storageLimit, before, u);
    RowsValid(storageLimit, before, u);
    var s := Run(Init(storageLimit), before);
    hide Run, IsWebp;
    if u in s.sessions && s.sessions[u].status == Open {
      PartsJoin(s, u);
    }
  }

  lemma PartsJoin(s: World, u: UploadId)
    requires u in s.sessions && ValidRows(s.sessions[u].rows, s.sessions[u].total)
    ensures
      var result := Assembled(PartsIn(s, u), s.sessions[u].total);
      && (result.None? <==> exists n: nat :: n * 256000 < s.sessions[u].total && !PartStored(s, u, n))
      && (result.Some? ==> JoinsParts(result.value, s, u))
  {
    var total, parts := s.sessions[u].total, PartsIn(s, u);
    AssembledIff(parts, total);
    PartCountCovers(total);
    hide Assembled;
    forall n: nat
      ensures n < PartCount(total) <==> n * 256000 < total
      ensures n * 256000 < total ==> (HasPart(parts, total, n) <==> PartStored(s, u, n))
    {
      assert InRange(total, n) <==> n * 256000 < total;
    }
    var result := Assembled(parts, total);
    if result.Some? {
      forall n: nat | n * 256000 < total
        ensures PartStored(s, u, n) && result.value[n * 256000..Least((n + 1) * 256000, total)] == s.objects[PartKey(u, n)]
      {
        assert HasPart(parts, total, n) && Carries(result.value, parts, total, n);
      }
    }
  }
}
