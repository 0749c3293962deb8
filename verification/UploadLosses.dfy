/** Runs from a new tenant in which the service ends with a COMPLETE session whose image is gone. */
module UploadLosses {
  import opened Options
  import opened Reassembly
  import opened UploadWorld
  import opened UploadSafety
  import UploadService

  /** The least WEBP file the service takes: the signature and nothing else. */
  const Image: Bytes := [0x52, 0x49, 0x46, 0x46, 0, 0, 0, 0, 0x57, 0x45, 0x42, 0x50]

  const Final: Key := ImageKey(0, 0)

  const Row: PartRow := PartRow(0, 0, 12, Sha256(Image))

  const Claimed: Job := Job(0, 0, 12, Sha256(Image), [Row])

  /** One session, one part, put by one call. */
  const Upload: seq<Action> :=
    [CreateSession(0, 0, 12, Sha256(Image)), BeginPut(0, 0, 0, Image, Sha256(Image)), StorePart(0), InsertPart(0)]

  /** A completion up to the point where only its receipt transaction is left. */
  const Completion: seq<Action> := [Claim(0, 0), ReadPart(0), ReadPart(0), Inspect(0), RecordKey(0, 0), StoreImage(0)]

  const Parts: map<Key, Bytes> := map[PartKey(0, 0) := Image]

  function With(limit: nat, x: Session, objects: map<Key, Bytes>, workers: map<WorkerId, Worker>): World {
    World({0}, map[0 := x], objects, map[], [], [], {}, 0, limit, workers)
  }

  function Session0(status: Status, rows: map<nat, PartRow>, final: Option<Key>): Session {
    Session(0, 12, Sha256(Image), status, rows, final)
  }

  function Opened(limit: nat): World { With(limit, Session0(Open, map[0 := Row], None), Parts, map[]) }

  function Claiming(limit: nat, final: Option<Key>, objects: map<Key, Bytes>, x: Worker): World {
    With(limit, Session0(Completing, map[0 := Row], final), objects, map[0 := x])
  }

  /** The receipt transaction is next. */
  function Standing(limit: nat): World {
    Claiming(limit, Some(Final), Parts[Final := Image], Stored(Claimed, Image, Final))
  }

  lemma ImageIsWebp()
    ensures IsWebp(Image)
  {
    var head, tail: Bytes := [0x52, 0x49, 0x46, 0x46, 0, 0, 0, 0], [0x57, 0x45, 0x42, 0x50];
    assert Image == head + tail;
    assert (head + tail)[8..12] == tail;
  }

  lemma ImageFits()
    ensures PartCount(12) == 1 && InRange(12, 0) && PartLength(12, 0) == 12
    ensures NewRow(0, Image) == Row && CheckPut(map[], 12, 0, Image, Sha256(Image)) == Store
    ensures OrderedRows(map[0 := Row], 12) == [Row]
  {
    assert RowsFrom(map[0 := Row], 1, 1) == [];
  }

  lemma Created(limit: nat)
    requires 12 <= UploadLimit(limit)
    ensures Next(Init(limit), Upload[0]) == With(limit, Session0(Open, map[], None), map[], map[])
  {
  }

  lemma PartPut(limit: nat)
    requires 12 <= UploadLimit(limit)
    ensures Run(Init(limit), Upload) == Opened(limit)
  {
    var empty := With(limit, Session0(Open, map[], None), map[], map[]);
    Created(limit);
    ImageFits();
    UploadService.PutStores(empty, 0, 0, 0, Image, Sha256(Image));
    hide CheckPut, NewRow, Next;
    assert Upload[1..] == [BeginPut(0, 0, 0, Image, Sha256(Image)), StorePart(0), InsertPart(0)];
    assert Run(Init(limit), Upload) == Run(empty, Upload[1..]);
  }

  lemma ClaimedAndRead(limit: nat)
    ensures Run(Opened(limit), Completion[..3]) == Claiming(limit, None, Parts, Gathered(Claimed, Image))
  {
    var s := Opened(limit);
    var t := With(limit, Session0(Completing, map[0 := Row], None), Parts, map[]);
    ImageFits();
    UploadService.ClaimNext(s, 0, 0);
    UploadService.ReadNext(t, 0, Claimed, 0, [], Some(Image));
    UploadService.ReadNext(t, 0, Claimed, 1, Image, None);
    UploadService.RunThree(s, Claim(0, 0), ReadPart(0), ReadPart(0));
    hide Run, Next, OrderedRows;
    assert [] + Image == Image;
    assert Completion[..3] == [Claim(0, 0), ReadPart(0), ReadPart(0)];
  }

  lemma ImageStored(limit: nat)
    ensures Run(Claiming(limit, None, Parts, Gathered(Claimed, Image)), Completion[3..]) == Standing(limit)
  {
    var t := With(limit, Session0(Completing, map[0 := Row], None), Parts, map[]);
    var s := Claiming(limit, None, Parts, Gathered(Claimed, Image));
    var keyed := With(limit, Session0(Completing, map[0 := Row], Some(Final)), Parts, map[]);
    ImageIsWebp();
    UploadService.InspectNext(t, 0, Claimed, Image);
    KeyRecorded(limit);
    UploadService.StoreNext(keyed, 0, Claimed, Image, Final);
    UploadService.RunThree(s, Inspect(0), RecordKey(0, 0), StoreImage(0));
    hide Run, Next, IsWebp;
    assert Completion[3..] == [Inspect(0), RecordKey(0, 0), StoreImage(0)];
  }

  lemma KeyRecorded(limit: nat)
    ensures Next(Claiming(limit, None, Parts, Accepted(Claimed, Image)), RecordKey(0, 0)) ==
            Claiming(limit, Some(Final), Parts, Keyed(Claimed, Image, Final))
  {
  }

  lemma Stands(limit: nat)
    requires 12 <= UploadLimit(limit)
    ensures Run(Init(limit), Upload + Completion) == Standing(limit)
  {
    hide Run;
    PartPut(limit);
    ClaimedAndRead(limit);
    ImageStored(limit);
    UploadService.RunConcat(Init(limit), Upload, Completion);
    UploadService.RunConcat(Opened(limit), Completion[..3], Completion[3..]);
    assert Completion[..3] + Completion[3..] == Completion;
  }

  /** A COMPLETE session whose image is gone, with every fact the transaction filed in place. */
  ghost predicate LostImage(s: World) {
    Lossy(s, 0) && 0 in s.receipts && s.receivedAudits == [0] && s.outbox == [0]
  }

  lemma LastTwo(limit: nat, a: Action, b: Action)
    requires 12 <= UploadLimit(limit)
    ensures Run(Init(limit), Upload + Completion + [a, b]) == Next(Next(Standing(limit), a), b)
  {
    hide Run, Next;
    Stands(limit);
    UploadService.RunConcat(Init(limit), Upload + Completion, [a, b]);
    RunTwo(Standing(limit), a, b);
  }

  /** A cleanup whose delete of the final object took effect and raised all the same: the session stays
      COMPLETING, and the completion standing at its receipt transaction goes through. */
  lemma RaisingCleanupLoses(limit: nat)
    requires 12 <= UploadLimit(limit)
    ensures LostImage(Run(Init(limit), Upload + Completion + [CleanUp(0, {}, true, false), Commit(0, true, true)]))
  {
    hide Run;
    LastTwo(limit, CleanUp(0, {}, true, false), Commit(0, true, true));
  }

  /** The same if the cleanup has deleted the final object and not yet closed the session. */
  lemma CleanupInBetweenLoses(limit: nat)
    requires 12 <= UploadLimit(limit)
    ensures LostImage(Run(Init(limit), Upload + Completion + [SweepFinal(Final), Commit(0, true, true)]))
  {
    hide Run;
    LastTwo(limit, SweepFinal(Final), Commit(0, true, true));
  }

  /** A receipt transaction that went through while its answer was lost: the except branch deletes the
      image of a COMPLETE session. */
  lemma LostAnswerLoses(limit: nat)
    requires 12 <= UploadLimit(limit)
    ensures LostImage(Run(Init(limit), Upload + Completion + [Commit(0, true, false), Undo(0, Deleted)]))
  {
    hide Run;
    LastTwo(limit, Commit(0, true, false), Undo(0, Deleted));
  }
}
