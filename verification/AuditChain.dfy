/** The hash-chained audit log of the enrichment service: appending under the lock, the one-pass
    verifier, and what retention's deletions do to a chain. */
module AuditChain {
  import opened Options
  import opened Hashing

  datatype Chain = Chain(organization: nat, site: nat)

  datatype Row = Row(
    chain: Chain, createdAt: int, id: nat, receipt: Option<nat>,
    body: Body, previous: Option<Hash>, hash: Hash)

  datatype Report =
    | Valid(eventsChecked: nat, chainsChecked: nat)
    | Invalid(eventsChecked: nat, failedChain: Chain)

  // ----- one chain -----

  /** A missing previous hash reads as the empty one. */
  function StoredPrevious(row: Row): Hash {
    match row.previous
    case None => Empty
    case Some(h) => h
  }

  predicate Linked(expected: Hash, row: Row) {
    StoredPrevious(row) == expected && row.hash == H(expected, row.body)
  }

  function LastHash(rows: seq<Row>): Hash {
    if rows == [] then Empty else rows[|rows| - 1].hash
  }

  /** Row `i` is linked to the row before it, the first to nothing. */
  predicate LinkedAt(rows: seq<Row>, i: nat)
    requires i < |rows|
  {
    Linked(if i == 0 then Empty else rows[i - 1].hash, rows[i])
  }

  ghost predicate ChainValid(rows: seq<Row>) {
    forall i :: 0 <= i < |rows| ==> LinkedAt(rows, i)
  }

  lemma ValidAppend(rows: seq<Row>, row: Row)
    ensures ChainValid(rows + [row]) <==> ChainValid(rows) && Linked(LastHash(rows), row)
  {
    var all := rows + [row];
    assert forall i :: 0 <= i < |rows| ==> (LinkedAt(all, i) <==> LinkedAt(rows, i));
    assert LinkedAt(all, |rows|) <==> Linked(LastHash(rows), row);
  }

  lemma ValidPrefix(rows: seq<Row>, k: nat)
    requires ChainValid(rows) && k <= |rows|
    ensures ChainValid(rows[..k])
  {
    assert forall i :: 0 <= i < k ==> (LinkedAt(rows[..k], i) <==> LinkedAt(rows, i));
  }

  /** In a valid chain a row's hash tells its position. */
  lemma {:induction false} DepthIsPosition(rows: seq<Row>, i: nat)
    requires ChainValid(rows) && i < |rows|
    ensures Depth(rows[i].hash) == i + 1
  {
    assert LinkedAt(rows, i);
    if i > 0 {
      DepthIsPosition(rows, i - 1);
    }
  }

  /** Two verifying chains that end in the same hash agree on every body. */
  lemma {:induction false} ChainBinding(a: seq<Row>, b: seq<Row>)
    requires ChainValid(a) && ChainValid(b)
    requires LastHash(a) == LastHash(b)
    ensures |a| == |b|
    ensures forall i :: 0 <= i < |a| ==> a[i].body == b[i].body && a[i].hash == b[i].hash
    decreases |a|
  {
    assert a != [] ==> LinkedAt(a, |a| - 1);
    assert b != [] ==> LinkedAt(b, |b| - 1);
    if a != [] && b != [] {
      var a', b' := a[..|a| - 1], b[..|b| - 1];
      ValidPrefix(a, |a'|);
      ValidPrefix(b, |b'|);
      assert LastHash(a') == LastHash(b');
      ChainBinding(a', b');
      assert a == a' + [a[|a| - 1]] && b == b' + [b[|b| - 1]];
    }
  }

  // ----- filtering -----

  function Filter(rows: seq<Row>, keep: Row -> bool): seq<Row> {
    if rows == [] then []
    else Filter(rows[..|rows| - 1], keep) + if keep(rows[|rows| - 1]) then [rows[|rows| - 1]] else []
  }

  function OfChain(rows: seq<Row>, chain: Chain): seq<Row> {
    Filter(rows, (row: Row) => row.chain == chain)
  }

  lemma FilterSnoc(rows: seq<Row>, row: Row, keep: Row -> bool)
    ensures Filter(rows + [row], keep) == Filter(rows, keep) + if keep(row) then [row] else []
  {
    assert (rows + [row])[..|rows|] == rows;
  }

  lemma {:induction false} FilterPrefix(rows: seq<Row>, k: nat, keep: Row -> bool)
    requires k <= |rows|
    ensures Filter(rows[..k], keep) <= Filter(rows, keep)
    decreases |rows|
  {
    if k < |rows| {
      FilterPrefix(rows[..|rows| - 1], k, keep);
      assert rows[..|rows| - 1][..k] == rows[..k];
    } else {
      assert rows[..k] == rows;
    }
  }

  /** Nothing is kept after something dropped. */
  ghost predicate KeepsPrefix(rows: seq<Row>, keep: Row -> bool) {
    forall i, j :: 0 <= i < j < |rows| && keep(rows[j]) ==> keep(rows[i])
  }

  /** A sublist of a verifying chain verifies iff it is a prefix. */
  lemma {:induction false} SublistVerifiesIff(rows: seq<Row>, keep: Row -> bool)
    requires ChainValid(rows)
    ensures ChainValid(Filter(rows, keep)) <==> KeepsPrefix(rows, keep)
    decreases |rows|
  {
    if rows != [] {
      var n := |rows| - 1;
      var kept := Filter(rows, keep);
      if keep(rows[n]) {
        if ChainValid(kept) {
          DepthIsPosition(rows, n);
          DepthIsPosition(kept, |kept| - 1);
          FullFilter(rows, keep);
        }
        if KeepsPrefix(rows, keep) {
          AllKept(rows, keep);
        }
      } else {
        ValidPrefix(rows, n);
        SublistVerifiesIff(rows[..n], keep);
        assert kept == Filter(rows[..n], keep);
        assert forall i :: 0 <= i < n ==> rows[..n][i] == rows[i];
      }
    }
  }

  lemma {:induction false} FullFilter(rows: seq<Row>, keep: Row -> bool)
    ensures |Filter(rows, keep)| <= |rows|
    ensures |Filter(rows, keep)| == |rows| ==> forall i :: 0 <= i < |rows| ==> keep(rows[i])
    decreases |rows|
  {
    if rows != [] {
      FullFilter(rows[..|rows| - 1], keep);
    }
  }

  lemma {:induction false} AllKept(rows: seq<Row>, keep: Row -> bool)
    requires forall i :: 0 <= i < |rows| ==> keep(rows[i])
    ensures Filter(rows, keep) == rows
    decreases |rows|
  {
    if rows != [] {
      AllKept(rows[..|rows| - 1], keep);
    }
  }

  // ----- the whole log -----

  /** What the verifier promises about a log: each chain alone is valid. */
  ghost predicate AllValid(rows: seq<Row>) {
    forall c :: ChainValid(OfChain(rows, c))
  }

  lemma ChainsSnoc(rows: seq<Row>, row: Row)
    ensures forall c :: OfChain(rows + [row], c) == OfChain(rows, c) + if row.chain == c then [row] else []
    ensures AllValid(rows + [row]) <==> AllValid(rows) && Linked(LastHash(OfChain(rows, row.chain)), row)
  {
    forall c
      ensures OfChain(rows + [row], c) == OfChain(rows, c) + if row.chain == c then [row] else []
    {
      FilterSnoc(rows, row, (x: Row) => x.chain == c);
    }
    ValidAppend(OfChain(rows, row.chain), row);
    assert forall c :: c != row.chain ==> OfChain(rows + [row], c) == OfChain(rows, c);
    if AllValid(rows + [row]) {
      assert ChainValid(OfChain(rows + [row], row.chain));
    }
  }

  lemma ValidPrefixes(rows: seq<Row>, k: nat)
    requires AllValid(rows) && k <= |rows|
    ensures AllValid(rows[..k])
  {
    forall c
      ensures ChainValid(OfChain(rows[..k], c))
    {
      FilterPrefix(rows, k, (x: Row) => x.chain == c);
      var part := OfChain(rows[..k], c);
      ValidPrefix(OfChain(rows, c), |part|);
      assert OfChain(rows, c)[..|part|] == part;
    }
  }

  ghost predicate PreviousKnown(rows: seq<Row>, previousByChain: map<Chain, Hash>) {
    forall c ::
      && (c in previousByChain <==> OfChain(rows, c) != [])
      && (c in previousByChain ==> previousByChain[c] == LastHash(OfChain(rows, c)))
  }

  lemma KnownSnoc(rows: seq<Row>, row: Row, previousByChain: map<Chain, Hash>)
    requires PreviousKnown(rows, previousByChain)
    ensures PreviousKnown(rows + [row], previousByChain[row.chain := row.hash])
    ensures LastHash(OfChain(rows, row.chain)) == if row.chain in previousByChain then previousByChain[row.chain] else Empty
  {
    ChainsSnoc(rows, row);
    hide OfChain;
  }

  /** The chains with a row in the log. */
  function Chains(rows: seq<Row>): set<Chain> { set row | row in rows :: row.chain }

  lemma NothingKnown()
    ensures AllValid([]) && PreviousKnown([], map[])
  {
  }

  /** One pass over the interleaved rows agrees with checking each chain alone; a valid log is
      counted in full, and otherwise the report names the first row that breaks its chain. */
  method VerifyAuditChains(rows: seq<Row>) returns (report: Report)
    ensures report.Valid? <==> AllValid(rows)
    ensures report.Valid? ==> report.eventsChecked == |rows| && report.chainsChecked == |Chains(rows)|
    ensures report.Invalid? ==>
              && report.eventsChecked < |rows|
              && AllValid(rows[..report.eventsChecked])
              && !AllValid(rows[..report.eventsChecked + 1])
              && report.failedChain == rows[report.eventsChecked].chain
  {
    var previousByChain: map<Chain, Hash> := map[];
    var checked := 0;
    NothingKnown();
    hide AllValid;
    hide OfChain;
    hide PreviousKnown;
    while checked < |rows|
      invariant 0 <= checked <= |rows|
      invariant AllValid(rows[..checked])
      invariant PreviousKnown(rows[..checked], previousByChain)
      invariant previousByChain.Keys == Chains(rows[..checked])
    {
      var row := rows[checked];
      assert rows[..checked + 1] == rows[..checked] + [row];
      ChainsSnoc(rows[..checked], row);
      KnownSnoc(rows[..checked], row, previousByChain);
      var expectedPrevious := if row.chain in previousByChain then previousByChain[row.chain] else Empty;
      var storedPrevious := StoredPrevious(row);
      var expectedHash := H(expectedPrevious, row.body);
      if storedPrevious != expectedPrevious || row.hash != expectedHash {
        if AllValid(rows) {
          ValidPrefixes(rows, checked + 1);
        }
        return Invalid(checked, row.chain);
      }
      previousByChain := previousByChain[row.chain := expectedHash];
      assert Chains(rows[..checked] + [row]) == Chains(rows[..checked]) + {row.chain};
      checked := checked + 1;
    }
    assert rows[..checked] == rows;
    return Valid(checked, |previousByChain|);
  }

  /** The single chain of operator events: valid exactly if every row is linked, and otherwise the
      count names the first row that is not. */
  method VerifyLocalOperatorChain(rows: seq<Row>) returns (valid: bool, eventsChecked: nat, chainsChecked: nat)
    ensures valid <==> ChainValid(rows)
    ensures eventsChecked <= |rows| && ChainValid(rows[..eventsChecked])
    ensures if valid then eventsChecked == |rows| && chainsChecked == (if rows == [] then 0 else 1)
            else eventsChecked < |rows| && !ChainValid(rows[..eventsChecked + 1])
  {
    hide ChainValid;
    var previousHash := Empty;
    eventsChecked := 0;
    NoRows();
    while eventsChecked < |rows|
      invariant 0 <= eventsChecked <= |rows| && ChainValid(rows[..eventsChecked])
      invariant previousHash == LastHash(rows[..eventsChecked])
    {
      var row := rows[eventsChecked];
      assert rows[..eventsChecked + 1] == rows[..eventsChecked] + [row];
      ValidAppend(rows[..eventsChecked], row);
      var expectedHash := H(previousHash, row.body);
      if StoredPrevious(row) != previousHash || row.hash != expectedHash {
        if ChainValid(rows) {
          ValidPrefix(rows, eventsChecked + 1);
        }
        return false, eventsChecked, 0;
      }
      previousHash := expectedHash;
      eventsChecked := eventsChecked + 1;
    }
    assert rows[..eventsChecked] == rows;
    return true, eventsChecked, if rows == [] then 0 else 1;
  }

  lemma NoRows()
    ensures ChainValid([])
  {
  }

  // ----- retention -----

  predicate Gone(row: Row, ids: set<nat>) { row.receipt.Some? && row.receipt.value in ids }

  /** `DELETE FROM audit_events WHERE receipt_id = ANY(ids)`. */
  function Remaining(rows: seq<Row>, ids: set<nat>): seq<Row> {
    Filter(rows, (row: Row) => !Gone(row, ids))
  }

  lemma {:induction false} FilterTwice(rows: seq<Row>, p: Row -> bool, q: Row -> bool)
    ensures Filter(Filter(rows, p), q) == Filter(Filter(rows, q), p)
    decreases |rows|
  {
    if rows != [] {
      var init, row := rows[..|rows| - 1], rows[|rows| - 1];
      FilterTwice(init, p, q);
      FilterSnoc(Filter(init, p), row, q);
      FilterSnoc(Filter(init, q), row, p);
      assert Filter(init, p) + [] == Filter(init, p) && Filter(init, q) + [] == Filter(init, q);
    }
  }

  lemma {:induction false} FilterCount(rows: seq<Row>, keep: Row -> bool, x: Row)
    ensures multiset(Filter(rows, keep))[x] == if keep(x) then multiset(rows)[x] else 0
    decreases |rows|
  {
    if rows != [] {
      var init, row := rows[..|rows| - 1], rows[|rows| - 1];
      FilterCount(init, keep, x);
      assert rows == init + [row];
    }
  }

  lemma FilterIn(rows: seq<Row>, keep: Row -> bool)
    ensures forall x :: x in Filter(rows, keep) <==> x in rows && keep(x)
  {
    forall x
      ensures x in Filter(rows, keep) <==> x in rows && keep(x)
    {
      FilterCount(rows, keep, x);
      assert x in multiset(Filter(rows, keep)) <==> x in Filter(rows, keep);
      assert x in multiset(rows) <==> x in rows;
    }
  }

  /** A relation between any earlier and any later row. */
  ghost predicate Pairwise(rows: seq<Row>, related: (Row, Row) -> bool) {
    forall i, j :: 0 <= i < j < |rows| ==> related(rows[i], rows[j])
  }

  /** The same, between rows of chain `c` only. */
  ghost predicate PairwiseIn(rows: seq<Row>, c: Chain, related: (Row, Row) -> bool) {
    forall i, j :: 0 <= i < j < |rows| && rows[i].chain == c == rows[j].chain ==> related(rows[i], rows[j])
  }

  lemma PairwiseSnoc(rows: seq<Row>, row: Row, c: Chain, related: (Row, Row) -> bool)
    ensures Pairwise(rows + [row], related) <==>
            Pairwise(rows, related) && forall x :: x in rows ==> related(x, row)
    ensures PairwiseIn(rows + [row], c, related) <==>
            PairwiseIn(rows, c, related) && (row.chain == c ==> forall x :: x in rows && x.chain == c ==> related(x, row))
  {
    var all := rows + [row];
    assert forall i :: 0 <= i < |rows| ==> all[i] == rows[i];
    assert all[|rows|] == row;
    assert Pairwise(all, related) ==> forall i :: 0 <= i < |rows| ==> related(all[i], all[|rows|]);
    assert Pairwise(all, related) ==> forall i, j :: 0 <= i < j < |rows| ==> related(all[i], all[j]);
    assert PairwiseIn(all, c, related) && row.chain == c ==>
           forall i :: 0 <= i < |rows| && all[i].chain == c ==> related(all[i], all[|rows|]);
    assert PairwiseIn(all, c, related) ==>
           forall i, j :: 0 <= i < j < |rows| && all[i].chain == c == all[j].chain ==> related(all[i], all[j]);
  }

  lemma {:induction false} PairwiseOfChain(rows: seq<Row>, c: Chain, related: (Row, Row) -> bool)
    ensures Pairwise(OfChain(rows, c), related) <==> PairwiseIn(rows, c, related)
    decreases |rows|
  {
    if rows != [] {
      var init, row := rows[..|rows| - 1], rows[|rows| - 1];
      PairwiseOfChain(init, c, related);
      FilterIn(init, (x: Row) => x.chain == c);
      assert rows == init + [row];
      PairwiseSnoc(init, row, c, related);
      PairwiseSnoc(OfChain(init, c), row, c, related);
      ChainsSnoc(init, row);
      assert OfChain(init, c) + [] == OfChain(init, c);
    }
  }

  /** A verifying log still verifies after retention iff, in every chain, whatever comes after a
      deleted event is deleted too. */
  lemma RetentionSurvivesIff(rows: seq<Row>, ids: set<nat>)
    requires AllValid(rows)
    ensures AllValid(Remaining(rows, ids)) <==>
            forall i, j :: 0 <= i < j < |rows| && rows[i].chain == rows[j].chain && Gone(rows[i], ids) ==> Gone(rows[j], ids)
  {
    var keep := (row: Row) => !Gone(row, ids);
    var related := (a: Row, b: Row) => keep(b) ==> keep(a);
    forall c
      ensures ChainValid(OfChain(Remaining(rows, ids), c)) <==> PairwiseIn(rows, c, related)
    {
      FilterTwice(rows, keep, (x: Row) => x.chain == c);
      SublistVerifiesIff(OfChain(rows, c), keep);
      PairwiseOfChain(rows, c, related);
      assert KeepsPrefix(OfChain(rows, c), keep) <==> Pairwise(OfChain(rows, c), related);
    }
    assert (forall c :: PairwiseIn(rows, c, related)) ==>
           forall i, j :: 0 <= i < j < |rows| && rows[i].chain == rows[j].chain ==> PairwiseIn(rows, rows[i].chain, related);
  }

  // ----- appending -----

  /** The order of `ORDER BY created_at, id`. */
  predicate KeyLess(a: Row, b: Row) {
    a.createdAt < b.createdAt || (a.createdAt == b.createdAt && a.id < b.id)
  }

  /** `ORDER BY created_at DESC, id DESC LIMIT 1`. */
  function Latest(rows: seq<Row>): Option<Row> {
    if rows == [] then None
    else
      var last := rows[|rows| - 1];
      match Latest(rows[..|rows| - 1])
      case None => Some(last)
      case Some(best) => if KeyLess(best, last) then Some(last) else Some(best)
  }

  /** The hash an append chains to. */
  function Tip(rows: seq<Row>): Hash {
    match Latest(rows)
    case None => Empty
    case Some(row) => row.hash
  }

  /** The row an append inserts after the rows of its chain. */
  function NewRow(rows: seq<Row>, chain: Chain, createdAt: int, id: nat, receipt: Option<nat>, body: Body): Row {
    var tip := Tip(rows);
    Row(chain, createdAt, id, receipt, body, if tip == Empty then None else Some(tip), H(tip, body))
  }

  predicate BuiltAt(rows: seq<Row>, k: nat)
    requires k < |rows|
  {
    var x := rows[k];
    x == NewRow(OfChain(rows[..k], x.chain), x.chain, x.createdAt, x.id, x.receipt, x.body)
  }

  /** A log in insertion order whose every row was appended to the rows before it. */
  ghost predicate Built(rows: seq<Row>) {
    && (forall k :: 0 <= k < |rows| ==> BuiltAt(rows, k))
    && (forall i, j :: 0 <= i < j < |rows| ==> rows[i].id != rows[j].id)
  }

  ghost predicate Increasing(rows: seq<Row>) { Pairwise(rows, KeyLess) }

  /** Every append's (created_at, id) exceeds all earlier ones of its chain. */
  ghost predicate InOrder(rows: seq<Row>) {
    forall i, j :: 0 <= i < j < |rows| && rows[i].chain == rows[j].chain ==> KeyLess(rows[i], rows[j])
  }

  /** `view` lists the log's rows, each chain by (created_at, id), as the verifier's query does. */
  ghost predicate IsView(view: seq<Row>, rows: seq<Row>) {
    multiset(view) == multiset(rows) && InOrder(view)
  }

  lemma LatestSnoc(rows: seq<Row>, row: Row)
    ensures Latest(rows + [row]) ==
            match Latest(rows)
            case None => Some(row)
            case Some(best) => Some(if KeyLess(best, row) then row else best)
  {
    assert (rows + [row])[..|rows|] == rows;
  }

  lemma {:induction false} LatestIs(rows: seq<Row>)
    ensures Latest(rows).Some? <==> rows != []
    ensures Latest(rows).Some? ==> Latest(rows).value in rows
    ensures Increasing(rows) && rows != [] ==> Latest(rows) == Some(rows[|rows| - 1])
    decreases |rows|
  {
    if rows != [] {
      LatestIs(rows[..|rows| - 1]);
    }
  }

  lemma DropLast(rows: seq<Row>)
    requires rows != []
    ensures multiset(rows[..|rows| - 1]) == multiset(rows) - multiset{rows[|rows| - 1]}
    ensures Increasing(rows) ==> Increasing(rows[..|rows| - 1])
  {
    assert rows == rows[..|rows| - 1] + [rows[|rows| - 1]];
  }

  lemma LastIsGreatest(rows: seq<Row>, x: Row)
    requires Increasing(rows) && x in rows
    ensures x == rows[|rows| - 1] || KeyLess(x, rows[|rows| - 1])
  {
    var i :| 0 <= i < |rows| && rows[i] == x;
  }

  lemma SameButLast(a: seq<Row>, b: seq<Row>)
    requires a != [] && b != [] && a[..|a| - 1] == b[..|b| - 1] && a[|a| - 1] == b[|b| - 1]
    ensures a == b
  {
    assert a == a[..|a| - 1] + [a[|a| - 1]];
    assert b == b[..|b| - 1] + [b[|b| - 1]];
  }

  /** Two listings of the same rows by the same strict order are equal. */
  lemma {:induction false} SortedUnique(a: seq<Row>, b: seq<Row>)
    requires multiset(a) == multiset(b) && Increasing(a) && Increasing(b)
    ensures a == b
    decreases |a|
  {
    assert |multiset(a)| == |a| && |multiset(b)| == |b|;
    if a != [] {
      var x, y := a[|a| - 1], b[|b| - 1];
      assert x in multiset(b) && y in multiset(a);
      LastIsGreatest(a, y);
      LastIsGreatest(b, x);
      assert x == y;
      DropLast(a);
      DropLast(b);
      SortedUnique(a[..|a| - 1], b[..|b| - 1]);
      SameButLast(a, b);
    }
  }

  /** The rows of one chain, in insertion order, each chained to the latest before it. */
  ghost predicate BuiltChain(rows: seq<Row>) {
    && (forall k :: 0 <= k < |rows| ==> ChainedAt(rows, k))
    && (forall i, j :: 0 <= i < j < |rows| ==> rows[i].id != rows[j].id)
  }

  predicate ChainedAt(rows: seq<Row>, k: nat)
    requires k < |rows|
  {
    Linked(Tip(rows[..k]), rows[k])
  }

  lemma BuiltChainPrefix(rows: seq<Row>, n: nat)
    requires BuiltChain(rows) && n <= |rows|
    ensures BuiltChain(rows[..n])
  {
    forall k | 0 <= k < n
      ensures ChainedAt(rows[..n], k)
    {
      assert rows[..n][..k] == rows[..k] && ChainedAt(rows, k);
    }
  }

  lemma InOrderVerifies(rows: seq<Row>)
    requires BuiltChain(rows) && Increasing(rows)
    ensures ChainValid(rows)
  {
    forall i | 0 <= i < |rows|
      ensures LinkedAt(rows, i)
    {
      assert ChainedAt(rows, i);
      LatestIs(rows[..i]);
    }
  }

  /** A row chained to a non-empty hash was appended after the row that hash is of. */
  lemma HasPredecessor(rows: seq<Row>, k: nat) returns (m: nat)
    requires BuiltChain(rows) && k < |rows| && rows[k].previous.Some? && rows[k].previous.value.H?
    ensures m < k && Some(rows[m].hash) == rows[k].previous
  {
    assert ChainedAt(rows, k);
    LatestIs(rows[..k]);
    var z := Latest(rows[..k]).value;
    assert z in rows[..k];
    m :| 0 <= m < k && rows[m] == z;
  }

  lemma SamePosition(view: seq<Row>, p: nat, q: nat)
    requires ChainValid(view) && p < |view| && q < |view| && view[p].hash == view[q].hash
    ensures p == q
  {
    DepthIsPosition(view, p);
    DepthIsPosition(view, q);
  }

  lemma InBoth(rows: seq<Row>, view: seq<Row>, x: Row)
    requires multiset(view) == multiset(rows)
    ensures x in view <==> x in rows
  {
    assert x in view <==> x in multiset(view);
    assert x in rows <==> x in multiset(rows);
  }

  /** In a verifying listing of a chain, the row appended last comes last. */
  lemma LastAppendedIsLast(rows: seq<Row>, view: seq<Row>, p: nat)
    requires BuiltChain(rows) && rows != []
    requires multiset(view) == multiset(rows) && Increasing(view) && ChainValid(view)
    requires p < |view| && view[p] == rows[|rows| - 1]
    ensures p == |view| - 1
  {
    hide Latest, Increasing;
    var x := view[p];
    if p + 1 < |view| {
      assert LinkedAt(view, p + 1) && LinkedAt(view, p);
      InBoth(rows, view, view[p + 1]);
      var k :| 0 <= k < |rows| && rows[k] == view[p + 1];
      var m := HasPredecessor(rows, k);
      InBoth(rows, view, rows[m]);
      var q :| 0 <= q < |view| && view[q] == rows[m];
      SamePosition(view, p, q);
    }
  }

  lemma IncreasingSnoc(rows: seq<Row>, view: seq<Row>)
    requires rows != [] && view != [] && rows[|rows| - 1] == view[|view| - 1]
    requires multiset(view[..|view| - 1]) == multiset(rows[..|rows| - 1])
    requires Increasing(view) && Increasing(rows[..|rows| - 1])
    ensures Increasing(rows)
  {
    var rows', view', x := rows[..|rows| - 1], view[..|view| - 1], rows[|rows| - 1];
    assert rows == rows' + [x] && view == view' + [x];
    PairwiseSnoc(view', x, x.chain, KeyLess);
    forall y | y in rows'
      ensures KeyLess(y, x)
    {
      assert y in multiset(view');
      assert y in view';
    }
    PairwiseSnoc(rows', x, x.chain, KeyLess);
  }

  /** A verifying listing and the log it lists, without the row that is last in both. */
  lemma ViewInit(rows: seq<Row>, view: seq<Row>)
    requires rows != [] && view != [] && rows[|rows| - 1] == view[|view| - 1]
    requires multiset(view) == multiset(rows) && Increasing(view) && ChainValid(view)
    ensures multiset(view[..|view| - 1]) == multiset(rows[..|rows| - 1])
    ensures Increasing(view[..|view| - 1]) && ChainValid(view[..|view| - 1])
  {
    DropLast(rows);
    DropLast(view);
    ValidPrefix(view, |view| - 1);
    hide ChainValid;
  }

  lemma {:induction false} VerifiesInOrder(rows: seq<Row>, view: seq<Row>)
    requires BuiltChain(rows)
    requires multiset(view) == multiset(rows) && Increasing(view) && ChainValid(view)
    ensures Increasing(rows)
    decreases |rows|
  {
    if rows != [] {
      hide BuiltChain, ChainValid, Increasing;
      var n := |rows| - 1;
      InBoth(rows, view, rows[n]);
      var p :| 0 <= p < |view| && view[p] == rows[n];
      LastAppendedIsLast(rows, view, p);
      ViewInit(rows, view);
      BuiltChainPrefix(rows, n);
      VerifiesInOrder(rows[..n], view[..p]);
      IncreasingSnoc(rows, view);
    }
  }

  lemma BuiltPrefix(rows: seq<Row>, n: nat)
    requires Built(rows) && n <= |rows|
    ensures Built(rows[..n])
  {
    forall k | 0 <= k < n
      ensures BuiltAt(rows[..n], k)
    {
      assert rows[..n][..k] == rows[..k] && BuiltAt(rows, k);
    }
  }

  lemma BuiltChainSnoc(rows: seq<Row>, row: Row)
    requires BuiltChain(rows) && Linked(Tip(rows), row)
    requires forall x :: x in rows ==> x.id != row.id
    ensures BuiltChain(rows + [row])
  {
    var all := rows + [row];
    forall k | 0 <= k < |all|
      ensures ChainedAt(all, k)
    {
      assert all[..k] == rows[..k];
      assert k < |rows| ==> ChainedAt(rows, k);
      assert rows[..|rows|] == rows;
    }
    assert forall i :: 0 <= i < |rows| ==> all[i] in rows;
  }

  lemma ChainGrows(rows: seq<Row>, c: Chain)
    requires Built(rows) && rows != [] && rows[|rows| - 1].chain == c
    requires BuiltChain(OfChain(rows[..|rows| - 1], c))
    ensures BuiltChain(OfChain(rows[..|rows| - 1], c) + [rows[|rows| - 1]])
  {
    var n := |rows| - 1;
    var init, row := rows[..n], rows[n];
    FilterIn(init, (x: Row) => x.chain == c);
    assert BuiltAt(rows, n);
    LatestIs(OfChain(init, c));
    forall x | x in OfChain(init, c)
      ensures x.id != row.id
    {
      var m :| 0 <= m < n && init[m] == x;
      assert rows[m].id != rows[n].id;
    }
    BuiltChainSnoc(OfChain(init, c), row);
  }

  lemma {:induction false} BuiltOfChain(rows: seq<Row>, c: Chain)
    requires Built(rows)
    ensures BuiltChain(OfChain(rows, c))
    decreases |rows|
  {
    if rows != [] {
      var n := |rows| - 1;
      var init, row := rows[..n], rows[n];
      BuiltPrefix(rows, n);
      BuiltOfChain(init, c);
      ChainsSnoc(init, row);
      assert rows == init + [row];
      if row.chain == c {
        ChainGrows(rows, c);
      } else {
        assert OfChain(init, c) + [] == OfChain(init, c);
      }
    }
  }

  /** Appending keeps the log verifiable exactly as long as keys go up: the verifier accepts every
      listing of an appended log iff each append's (created_at, id) exceeded all earlier ones of
      its chain. One inversion and it rejects. */
  lemma AppendVerifiesIff(rows: seq<Row>, view: seq<Row>)
    requires Built(rows) && IsView(view, rows)
    ensures |view| == |rows|
    ensures AllValid(view) <==> InOrder(rows)
  {
    assert |multiset(view)| == |view| && |multiset(rows)| == |rows|;
    forall c
      ensures ChainValid(OfChain(view, c)) <==> Increasing(OfChain(rows, c))
      ensures Increasing(OfChain(rows, c)) <==> PairwiseIn(rows, c, KeyLess)
    {
      var mine := (x: Row) => x.chain == c;
      var part, listed := OfChain(rows, c), OfChain(view, c);
      forall x
        ensures multiset(part)[x] == multiset(listed)[x]
      {
        FilterCount(rows, mine, x);
        FilterCount(view, mine, x);
      }
      assert multiset(listed) == multiset(part);
      PairwiseOfChain(view, c, KeyLess);
      PairwiseOfChain(rows, c, KeyLess);
      BuiltOfChain(rows, c);
      if ChainValid(listed) {
        VerifiesInOrder(part, listed);
      }
      if Increasing(part) {
        SortedUnique(listed, part);
        InOrderVerifies(part);
      }
    }
    assert (forall c :: PairwiseIn(rows, c, KeyLess)) ==>
           forall i, j :: 0 <= i < j < |rows| && rows[i].chain == rows[j].chain ==> PairwiseIn(rows, rows[i].chain, KeyLess);
  }

  lemma BuiltSnoc(rows: seq<Row>, row: Row)
    requires Built(rows) && forall i :: 0 <= i < |rows| ==> rows[i].id != row.id
    requires row == NewRow(OfChain(rows, row.chain), row.chain, row.createdAt, row.id, row.receipt, row.body)
    ensures Built(rows + [row])
  {
    var all := rows + [row];
    forall k | 0 <= k < |all|
      ensures BuiltAt(all, k)
    {
      assert all[..k] == rows[..k];
      assert rows[..|rows|] == rows;
      assert k < |rows| ==> BuiltAt(rows, k);
    }
  }

  /** The log table; every append holds the chain's advisory lock for the whole transaction. */
  class AuditLog {
    var rows: seq<Row>

    constructor ()
      ensures rows == [] && Built(rows)
    {
      rows := [];
    }

    method Append(chain: Chain, createdAt: int, id: nat, receipt: Option<nat>, body: Body)
      requires forall i :: 0 <= i < |rows| ==> rows[i].id != id
      modifies this
      ensures rows == old(rows) + [NewRow(OfChain(old(rows), chain), chain, createdAt, id, receipt, body)]
      ensures old(Built(rows)) ==> Built(rows)
    {
      var latest: Option<Row> := None;
      var i := 0;
      while i < |rows|
        invariant 0 <= i <= |rows|
        invariant rows == old(rows)
        invariant latest == Latest(OfChain(rows[..i], chain))
      {
        assert rows[..i + 1] == rows[..i] + [rows[i]];
        ChainsSnoc(rows[..i], rows[i]);
        LatestSnoc(OfChain(rows[..i], chain), rows[i]);
        assert OfChain(rows[..i], chain) + [] == OfChain(rows[..i], chain);
        if rows[i].chain == chain && (latest.None? || KeyLess(latest.value, rows[i])) {
          latest := Some(rows[i]);
        }
        i := i + 1;
      }
      assert rows[..i] == rows;
      var previous := match latest case None => Empty case Some(row) => row.hash;
      var row := Row(chain, createdAt, id, receipt, body, if previous == Empty then None else Some(previous), H(previous, body));
      if Built(rows) {
        BuiltSnoc(rows, row);
      }
      rows := rows + [row];
    }
  }
}
