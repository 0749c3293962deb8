/** Resumable-upload parts: which parts a session accepts, and the loop that puts the
    image back together (services/enrichment/app/authoritative.py). */
module Reassembly {
  import opened Options

  newtype Byte = b: int | 0 <= b < 256
  type Bytes = seq<Byte>

  /** SHA-256 as a free constructor: equal digests have equal contents. */
  datatype Digest = Sha256(content: Bytes)

  const UPLOAD_PART_SIZE: nat := 256_000

  datatype PartRow = PartRow(number: nat, offset: nat, length: nat, sha: Digest)

  /** The part rows of one session and the stored part objects, by part number. */
  datatype PartStore = PartStore(rows: map<nat, PartRow>, objects: map<nat, Bytes>)

  datatype PutError = UploadNotOpen | PartOutOfRange | PartLengthMismatch | PartChecksumMismatch | PartConflict
  datatype PutVerdict = Refuse(error: PutError) | AlreadyStored | Store

  function PartCount(total: nat): nat {
    (total + UPLOAD_PART_SIZE - 1) / UPLOAD_PART_SIZE
  }

  function Offset(n: nat): nat { n * UPLOAD_PART_SIZE }

  predicate InRange(total: nat, n: nat) { Offset(n) < total }

  function PartLength(total: nat, n: nat): (length: nat)
    requires InRange(total, n)
    ensures 0 < length && Offset(n) + length <= total
  {
    if UPLOAD_PART_SIZE <= total - Offset(n) then UPLOAD_PART_SIZE else total - Offset(n)
  }

  /** The checks of a part upload on an open session, in the order the service makes them. */
  function CheckPut(rows: map<nat, PartRow>, total: nat, n: int, body: Bytes, declared: Digest): PutVerdict {
    if n < 0 || !InRange(total, n) then Refuse(PartOutOfRange)
    else if |body| != PartLength(total, n) then Refuse(PartLengthMismatch)
    else if Sha256(body) != declared then Refuse(PartChecksumMismatch)
    else if n in rows then
      if rows[n].sha != declared || rows[n].length != |body| then Refuse(PartConflict) else AlreadyStored
    else Store
  }

  /** When each verdict is given: parts are 256000 bytes long, but for the last one. */
  lemma CheckPutCases(rows: map<nat, PartRow>, total: nat, n: int, body: Bytes, declared: Digest)
    ensures
      var verdict := CheckPut(rows, total, n, body, declared);
      var inRange := 0 <= n && n * 256000 < total;
      var fits := inRange && |body| == if total - n * 256000 < 256000 then total - n * 256000 else 256000;
      var intact := fits && Sha256(body) == declared;
      var agrees := intact && (n in rows ==> rows[n].sha == declared && rows[n].length == |body|);
      && (verdict == Refuse(PartOutOfRange) <==> !inRange)
      && (verdict == Refuse(PartLengthMismatch) <==> inRange && !fits)
      && (verdict == Refuse(PartChecksumMismatch) <==> fits && !intact)
      && (verdict == Refuse(PartConflict) <==> intact && !agrees)
      && (verdict == AlreadyStored <==> agrees && n in rows)
      && (verdict == Store <==> agrees && n !in rows)
      && (verdict == Store ==> NewRow(n, body) == PartRow(n, n * 256000, |body|, declared))
  {
  }

  function NewRow(n: nat, body: Bytes): PartRow {
    PartRow(n, Offset(n), |body|, Sha256(body))
  }

  function Put(s: PartStore, total: nat, n: int, body: Bytes, declared: Digest): PartStore {
    if CheckPut(s.rows, total, n, body, declared) == Store
    then PartStore(s.rows[n := NewRow(n, body)], s.objects[n := body])
    else s
  }

  /** What every row of a session satisfies. */
  ghost predicate ValidRows(rows: map<nat, PartRow>, total: nat) {
    forall n :: n in rows ==>
      && InRange(total, n)
      && rows[n].number == n
      && rows[n].offset == Offset(n)
      && rows[n].length == PartLength(total, n)
  }

  /** The rows numbered `from` to `end - 1`, in part order. */
  function RowsFrom(rows: map<nat, PartRow>, from: nat, end: nat): seq<PartRow>
    decreases end - from
  {
    if from >= end then []
    else if from in rows then [rows[from]] + RowsFrom(rows, from + 1, end)
    else RowsFrom(rows, from + 1, end)
  }

  /** All rows of a session of `total` bytes, `ORDER BY part_number`. */
  function OrderedRows(rows: map<nat, PartRow>, total: nat): seq<PartRow> {
    RowsFrom(rows, 0, PartCount(total))
  }

  /** One round of the reassembly loop: the grown buffer, or None where the loop raises. */
  function GatherOne(row: PartRow, stored: Option<Bytes>, combined: Bytes): Option<Bytes> {
    if row.offset != |combined| then None
    else if stored.None? || |stored.value| != row.length then None
    else Some(combined + stored.value)
  }

  function Lookup(objects: map<nat, Bytes>, n: nat): Option<Bytes> {
    if n in objects then Some(objects[n]) else None
  }

  function Gather(rows: seq<PartRow>, objects: map<nat, Bytes>, combined: Bytes): Option<Bytes> {
    if rows == [] then Some(combined)
    else match GatherOne(rows[0], Lookup(objects, rows[0].number), combined)
      case None => None
      case Some(grown) => Gather(rows[1..], objects, grown)
  }

  /** What the reassembly loop and the length test after it deliver. */
  function Assembled(s: PartStore, total: nat): Option<Bytes> {
    match Gather(OrderedRows(s.rows, total), s.objects, [])
    case Some(body) => if |body| == total then Some(body) else None
    case None => None
  }

  /** Part `n` is recorded and its stored object has the recorded length. */
  ghost predicate HasPart(s: PartStore, total: nat, n: nat) {
    InRange(total, n) && n in s.rows && n in s.objects && |s.objects[n]| == PartLength(total, n)
  }

  ghost predicate HasPartsFrom(s: PartStore, total: nat, from: nat) {
    forall n: nat :: from <= n < PartCount(total) ==> HasPart(s, total, n)
  }

  /** `body` carries the object of part `n` at that part's offset. */
  ghost predicate Carries(body: Bytes, s: PartStore, total: nat, n: nat) {
    && InRange(total, n) && n in s.objects
    && |body| == total
    && body[Offset(n)..Offset(n) + PartLength(total, n)] == s.objects[n]
  }

  lemma PartCountCovers(total: nat)
    ensures forall n: nat :: n < PartCount(total) <==> InRange(total, n)
  {
  }

  lemma {:induction false} RowsAbove(rows: map<nat, PartRow>, total: nat, from: nat, end: nat)
    requires ValidRows(rows, total)
    ensures forall r :: r in RowsFrom(rows, from, end) ==> r.offset >= Offset(from)
    decreases end - from
  {
    if from < end {
      RowsAbove(rows, total, from + 1, end);
    }
  }

  lemma {:induction false} GatherExtends(rows: seq<PartRow>, objects: map<nat, Bytes>, combined: Bytes)
    ensures
      var r := Gather(rows, objects, combined);
      r.Some? ==> combined <= r.value
    decreases |rows|
  {
    if rows != [] {
      var grown := GatherOne(rows[0], Lookup(objects, rows[0].number), combined);
      if grown.Some? {
        GatherExtends(rows[1..], objects, grown.value);
      }
    }
  }

  /** From any contiguous prefix, the rest of the loop reaches `total` bytes exactly when
      every remaining part is there, and then each of those parts sits at its own offset. */
  lemma {:induction false} GatherFrom(s: PartStore, total: nat, k: nat, combined: Bytes)
    requires ValidRows(s.rows, total)
    requires k <= PartCount(total)
    requires |combined| == if k < PartCount(total) then Offset(k) else total
    ensures
      var r := Gather(RowsFrom(s.rows, k, PartCount(total)), s.objects, combined);
      && (r.Some? && |r.value| == total <==> HasPartsFrom(s, total, k))
      && (r.Some? && |r.value| == total ==>
          forall n: nat :: k <= n < PartCount(total) ==> Carries(r.value, s, total, n))
    decreases PartCount(total) - k
  {
    var end := PartCount(total);
    var rows := RowsFrom(s.rows, k, end);
    PartCountCovers(total);
    if k < end {
      assert InRange(total, k);
      assert HasPartsFrom(s, total, k) <==> HasPart(s, total, k) && HasPartsFrom(s, total, k + 1);
      if HasPart(s, total, k) {
        var grown := combined + s.objects[k];
        var rest := RowsFrom(s.rows, k + 1, end);
        assert rows == [s.rows[k]] + rest && rows[1..] == rest;
        assert GatherOne(rows[0], Lookup(s.objects, k), combined) == Some(grown);
        GatherFrom(s, total, k + 1, grown);
        GatherExtends(rest, s.objects, grown);
      } else if k in s.rows {
        assert Gather(rows, s.objects, combined).None?;
      } else {
        RowsAbove(s.rows, total, k + 1, end);
      }
    }
  }

  /** The reassembly succeeds iff every part is recorded and its object still stored, and
      then the result holds each part's object at that part's offset. */
  lemma AssembledIff(s: PartStore, total: nat)
    requires ValidRows(s.rows, total)
    ensures Assembled(s, total).Some? <==> HasPartsFrom(s, total, 0)
    ensures Assembled(s, total).Some? ==>
              forall n: nat :: n < PartCount(total) ==> Carries(Assembled(s, total).value, s, total, n)
  {
    GatherFrom(s, total, 0, []);
  }

  /** The contiguity loop succeeds iff the recorded part numbers are exactly
      0 .. ceil(total / 256000) - 1, as long as no recorded part lost its object. */
  lemma ContiguousIff(s: PartStore, total: nat)
    requires ValidRows(s.rows, total)
    requires forall n :: n in s.rows ==> n in s.objects && |s.objects[n]| == s.rows[n].length
    ensures Assembled(s, total).Some? <==> (forall n: nat :: n in s.rows <==> n < PartCount(total))
  {
    AssembledIff(s, total);
    PartCountCovers(total);
    if HasPartsFrom(s, total, 0) {
      forall n: nat
        ensures n in s.rows <==> n < PartCount(total)
      {
        if n < PartCount(total) {
          assert HasPart(s, total, n);
        }
      }
    }
  }

  // ----- the round trip -----

  /** Part `n` of an image, as the client cuts it. */
  function Slice(image: Bytes, n: nat): Bytes
    requires InRange(|image|, n)
  {
    image[Offset(n)..Offset(n) + PartLength(|image|, n)]
  }

  ghost predicate PartsOf(image: Bytes, order: seq<nat>) {
    forall i :: 0 <= i < |order| ==> InRange(|image|, order[i])
  }

  /** Upload the parts of an image in the given order, repetitions included. */
  ghost function PutAll(s: PartStore, image: Bytes, order: seq<nat>): PartStore
    requires PartsOf(image, order)
    decreases |order|
  {
    if order == [] then s
    else
      var body := Slice(image, order[0]);
      PutAll(Put(s, |image|, order[0], body, Sha256(body)), image, order[1..])
  }

  ghost predicate HoldsSlices(s: PartStore, image: Bytes) {
    && ValidRows(s.rows, |image|)
    && forall n :: n in s.rows ==> n in s.objects && s.objects[n] == Slice(image, n) && s.rows[n].sha == Sha256(s.objects[n])
  }

  lemma {:induction false} PutAllHolds(s: PartStore, image: Bytes, order: seq<nat>)
    requires HoldsSlices(s, image)
    requires PartsOf(image, order)
    ensures HoldsSlices(PutAll(s, image, order), image)
    ensures forall n :: n in s.rows || n in order ==> n in PutAll(s, image, order).rows
    decreases |order|
  {
    if order != [] {
      var n := order[0];
      var body := Slice(image, n);
      var s' := Put(s, |image|, n, body, Sha256(body));
      assert n in s'.rows && HoldsSlices(s', image);
      PutAllHolds(s', image, order[1..]);
      assert forall m :: m in order ==> m == n || m in order[1..];
    }
  }

  lemma SlicesDetermine(a: Bytes, b: Bytes)
    requires |a| == |b|
    requires forall n: nat :: InRange(|a|, n) ==> Slice(a, n) == Slice(b, n)
    ensures a == b
  {
    forall i | 0 <= i < |a|
      ensures a[i] == b[i]
    {
      var n := i / UPLOAD_PART_SIZE;
      assert InRange(|a|, n);
      assert Slice(a, n)[i - Offset(n)] == Slice(b, n)[i - Offset(n)];
    }
  }

  /** Resuming: from any session that holds some of an image's parts, every order and repetition
      of at least the others rebuilds exactly that image. */
  lemma ResumedRoundTrip(start: PartStore, image: Bytes, order: seq<nat>)
    requires HoldsSlices(start, image) && PartsOf(image, order)
    requires forall n: nat :: n < PartCount(|image|) ==> n in start.rows || n in order
    ensures Assembled(PutAll(start, image, order), |image|) == Some(image)
  {
    var s := PutAll(start, image, order);
    PartCountCovers(|image|);
    PutAllHolds(start, image, order);
    ContiguousIff(s, |image|);
    AssembledIff(s, |image|);
    var body := Assembled(s, |image|).value;
    forall n: nat | InRange(|image|, n)
      ensures Slice(body, n) == Slice(image, n)
    {
      assert Carries(body, s, |image|, n);
    }
    SlicesDetermine(body, image);
  }

  /** Every order and repetition of an image's parts rebuilds exactly that image. */
  lemma RoundTrip(image: Bytes, order: seq<nat>)
    requires forall n :: n in order <==> n < PartCount(|image|)
    ensures PartsOf(image, order)
    ensures Assembled(PutAll(PartStore(map[], map[]), image, order), |image|) == Some(image)
  {
    PartCountCovers(|image|);
    assert forall i :: 0 <= i < |order| ==> order[i] in order;
    ResumedRoundTrip(PartStore(map[], map[]), image, order);
  }

  /** The reassembly loop of a completion, as the service runs it over the listed rows. */
  method ReadParts(rows: seq<PartRow>, objects: map<nat, Bytes>, total: nat) returns (body: Option<Bytes>)
    ensures body == match Gather(rows, objects, [])
                    case Some(b) => if |b| == total then Some(b) else None
                    case None => None
  {
    var combined: Bytes := [];
    var confirmedOffset := 0;
    var i := 0;
    while i < |rows|
      invariant 0 <= i <= |rows|
      invariant confirmedOffset == |combined|
      invariant Gather(rows, objects, []) == Gather(rows[i..], objects, combined)
    {
      var part := rows[i];
      if part.offset != confirmedOffset {
        return None;
      }
      if part.number !in objects {
        return None;
      }
      var partBytes := objects[part.number];
      if |partBytes| != part.length {
        return None;
      }
      combined := combined + partBytes;
      confirmedOffset := confirmedOffset + |partBytes|;
      assert rows[i..][1..] == rows[i + 1..];
      i := i + 1;
    }
    if |combined| != total {
      return None;
    }
    return Some(combined);
  }
}
