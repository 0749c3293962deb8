/** The audit log over runs of appends and retention passes, in which an append may come after rows
    of its chain were deleted. */
module AuditRuns {
  import opened Options
  import opened Hashing
  import opened AuditChain

  datatype Op =
    | AppendOp(chain: Chain, createdAt: int, id: nat, receipt: Option<nat>, body: Body)
    | RetainOp(ids: set<nat>)

  function Apply(rows: seq<Row>, op: Op): seq<Row> {
    match op
    case AppendOp(chain, createdAt, id, receipt, body) =>
      rows + [NewRow(OfChain(rows, chain), chain, createdAt, id, receipt, body)]
    case RetainOp(ids) => Remaining(rows, ids)
  }

  function RunOps(rows: seq<Row>, ops: seq<Op>): seq<Row>
    decreases |ops|
  {
    if ops == [] then rows else RunOps(Apply(rows, ops[0]), ops[1..])
  }

  /** An append's (created_at, id) exceeds those of the rows of its chain that are still there. */
  ghost predicate GoesUp(rows: seq<Row>, op: Op) {
    op.AppendOp? ==>
      forall x :: x in rows && x.chain == op.chain ==> x.createdAt < op.createdAt || (x.createdAt == op.createdAt && x.id < op.id)
  }

  ghost predicate KeysGoUp(rows: seq<Row>, ops: seq<Op>)
    decreases |ops|
  {
    ops != [] ==> GoesUp(rows, ops[0]) && KeysGoUp(Apply(rows, ops[0]), ops[1..])
  }

  predicate Sound(x: Row) { x.hash == H(StoredPrevious(x), x.body) }

  /** What an earlier row of a chain is to a later one. */
  predicate Precedes(a: Row, b: Row) { KeyLess(a, b) && Depth(a.hash) <= Depth(StoredPrevious(b)) }

  ghost predicate Deep(rows: seq<Row>) {
    (forall x :: x in rows ==> Sound(x)) && forall c :: PairwiseIn(rows, c, Precedes)
  }

  lemma {:induction false} FilterKeepsPairwise(rows: seq<Row>, keep: Row -> bool, c: Chain)
    requires PairwiseIn(rows, c, Precedes)
    ensures PairwiseIn(Filter(rows, keep), c, Precedes)
    decreases |rows|
  {
    if rows != [] {
      var init, row := rows[..|rows| - 1], rows[|rows| - 1];
      assert rows == init + [row];
      PairwiseSnoc(init, row, c, Precedes);
      FilterKeepsPairwise(init, keep, c);
      FilterSnoc(init, row, keep);
      FilterIn(init, keep);
      PairwiseSnoc(Filter(init, keep), row, c, Precedes);
      assert Filter(init, keep) + [] == Filter(init, keep);
    }
  }

  /** Every row of a deep chain is at most as deep as its tip. */
  lemma DeepTip(part: seq<Row>, x: Row)
    requires Pairwise(part, Precedes) && (forall y :: y in part ==> Sound(y)) && x in part
    ensures Depth(x.hash) <= Depth(Tip(part))
  {
    assert Increasing(part);
    LatestIs(part);
    var i :| 0 <= i < |part| && part[i] == x;
    var last := part[|part| - 1];
    assert Sound(last) && Tip(part) == last.hash;
    if i < |part| - 1 {
      assert Precedes(part[i], part[|part| - 1]);
    }
  }

  lemma DeepAppend(rows: seq<Row>, op: Op)
    requires Deep(rows) && op.AppendOp? && GoesUp(rows, op)
    ensures Deep(Apply(rows, op))
  {
    var part := OfChain(rows, op.chain);
    var row := NewRow(part, op.chain, op.createdAt, op.id, op.receipt, op.body);
    assert StoredPrevious(row) == Tip(part);
    FilterIn(rows, (x: Row) => x.chain == op.chain);
    PairwiseOfChain(rows, op.chain, Precedes);
    forall x | x in rows && x.chain == op.chain
      ensures Precedes(x, row)
    {
      DeepTip(part, x);
    }
    forall c
      ensures PairwiseIn(rows + [row], c, Precedes)
    {
      PairwiseSnoc(rows, row, c, Precedes);
    }
  }

  lemma DeepRetain(rows: seq<Row>, ids: set<nat>)
    requires Deep(rows)
    ensures Deep(Remaining(rows, ids))
  {
    var keep := (row: Row) => !Gone(row, ids);
    FilterIn(rows, keep);
    forall c
      ensures PairwiseIn(Remaining(rows, ids), c, Precedes)
    {
      FilterKeepsPairwise(rows, keep, c);
    }
  }

  lemma {:induction false} DeepRun(rows: seq<Row>, ops: seq<Op>)
    requires Deep(rows) && KeysGoUp(rows, ops)
    ensures Deep(RunOps(rows, ops))
    decreases |ops|
  {
    if ops != [] {
      match ops[0] {
        case AppendOp(_, _, _, _, _) => DeepAppend(rows, ops[0]);
        case RetainOp(ids) => DeepRetain(rows, ids);
      }
      hide Deep, Apply;
      DeepRun(Apply(rows, ops[0]), ops[1..]);
    }
  }

  /** The row's previous hash is empty or that of a row of its chain that is still there. */
  ghost predicate Anchored(rows: seq<Row>, x: Row) {
    StoredPrevious(x) == Empty || exists p :: p in rows && p.chain == x.chain && p.hash == StoredPrevious(x)
  }

  lemma DeeperLater(part: seq<Row>, i: int, j: int)
    requires Pairwise(part, Precedes) && forall y :: y in part ==> Sound(y)
    ensures 0 <= i < j < |part| ==> Depth(part[i].hash) <= Depth(StoredPrevious(part[j])) < Depth(part[j].hash)
  {
    if 0 <= i < j < |part| {
      assert Precedes(part[i], part[j]) && Sound(part[j]);
    }
  }

  /** The row a row is chained to can only be the one right before it. */
  lemma AnchorIsBefore(part: seq<Row>, i: nat, k: nat)
    requires Pairwise(part, Precedes) && forall y :: y in part ==> Sound(y)
    requires i < |part| && k < |part| && part[k].hash == StoredPrevious(part[i])
    ensures k == i - 1
  {
    assert Sound(part[i]) && Sound(part[k]);
    DeeperLater(part, i, k);
    DeeperLater(part, k, i - 1);
    DeeperLater(part, i - 1, i);
  }

  lemma ChainValidIff(part: seq<Row>, c: Chain)
    requires Pairwise(part, Precedes) && forall y :: y in part ==> Sound(y) && y.chain == c
    ensures ChainValid(part) <==> forall x :: x in part ==> Anchored(part, x)
  {
    if ChainValid(part) {
      forall i | 0 <= i < |part|
        ensures Anchored(part, part[i])
      {
        assert LinkedAt(part, i);
        assert i > 0 ==> part[i - 1] in part;
      }
    } else {
      var i :| 0 <= i < |part| && !LinkedAt(part, i);
      assert Sound(part[i]) && part[i] in part && Sound(part[0]);
      DeeperLater(part, 0, i);
      if Anchored(part, part[i]) {
        if StoredPrevious(part[i]) != Empty {
          var p :| p in part && p.hash == StoredPrevious(part[i]);
          var k :| 0 <= k < |part| && part[k] == p;
          AnchorIsBefore(part, i, k);
        }
      }
    }
  }

  lemma SamePart(rows: seq<Row>, view: seq<Row>, c: Chain)
    requires Deep(rows) && IsView(view, rows)
    ensures OfChain(view, c) == OfChain(rows, c)
  {
    var mine := (x: Row) => x.chain == c;
    var part, listed := OfChain(rows, c), OfChain(view, c);
    forall x
      ensures multiset(part)[x] == multiset(listed)[x]
    {
      FilterCount(rows, mine, x);
      FilterCount(view, mine, x);
    }
    assert multiset(listed) == multiset(part);
    PairwiseOfChain(view, c, KeyLess);
    PairwiseOfChain(rows, c, Precedes);
    assert Increasing(part);
    SortedUnique(listed, part);
  }

  /** After any run of appends and retention passes in which keys go up, the verifier accepts exactly
      if no surviving row was chained to a deleted one. */
  lemma RunVerifiesIff(ops: seq<Op>, view: seq<Row>)
    requires KeysGoUp([], ops) && IsView(view, RunOps([], ops))
    ensures AllValid(view) <==> forall x :: x in RunOps([], ops) ==> Anchored(RunOps([], ops), x)
  {
    var rows := RunOps([], ops);
    DeepRun([], ops);
    forall c
      ensures ChainValid(OfChain(view, c)) <==> forall x :: x in rows && x.chain == c ==> Anchored(rows, x)
    {
      var part := OfChain(rows, c);
      SamePart(rows, view, c);
      FilterIn(rows, (x: Row) => x.chain == c);
      PairwiseOfChain(rows, c, Precedes);
      ChainValidIff(part, c);
      forall x | x in part
        ensures Anchored(part, x) <==> Anchored(rows, x)
      {
      }
    }
    hide Anchored, ChainValid;
    forall x | x in rows && AllValid(view)
      ensures Anchored(rows, x)
    {
      assert ChainValid(OfChain(view, x.chain));
    }
  }

  // ----- two runs that end in a rejection -----

  lemma {:induction false} TwoAppends(first: Op, second: Op)
    requires first.AppendOp? && second.AppendOp? && first.chain == second.chain
    ensures
      var a := Row(first.chain, first.createdAt, first.id, first.receipt, first.body, None, H(Empty, first.body));
      var b := Row(second.chain, second.createdAt, second.id, second.receipt, second.body, Some(a.hash), H(a.hash, second.body));
      RunOps([], [first, second]) == [a, b] && Apply([], first) == [a] && Apply([a], second) == [a, b]
  {
    var a := Row(first.chain, first.createdAt, first.id, first.receipt, first.body, None, H(Empty, first.body));
    var ops := [first, second];
    assert ops[1..] == [second] && ops[1..][1..] == [];
    assert OfChain([], first.chain) == [] && Tip([]) == Empty;
    assert Apply([], first) == [a];
    FilterSnoc([], a, (x: Row) => x.chain == second.chain);
    assert [] + [a] == [a];
    assert OfChain([a], second.chain) == [a];
    LatestSnoc([], a);
    assert Tip([a]) == a.hash;
    assert RunOps([], ops) == RunOps([a], ops[1..]) == RunOps(Apply([a], second), ops[1..][1..]);
  }

  /** Two appends whose transactions began in the other order than they took the lock: no listing of
      this untouched log by (created_at, id) verifies. */
  lemma InvertedAppendsRejected(view: seq<Row>)
    requires
      var c := Chain(0, 0);
      IsView(view, RunOps([], [AppendOp(c, 5, 1, None, "a"), AppendOp(c, 3, 2, None, "b")]))
    ensures !AllValid(view)
  {
    var c := Chain(0, 0);
    var first, second := AppendOp(c, 5, 1, None, "a"), AppendOp(c, 3, 2, None, "b");
    var rows := RunOps([], [first, second]);
    TwoAppends(first, second);
    BuiltSnoc([], rows[0]);
    assert [] + [rows[0]] == [rows[0]] && [rows[0]] + [rows[1]] == rows;
    BuiltSnoc([rows[0]], rows[1]);
    hide RunOps, Built, IsView, AllValid;
    AppendVerifiesIff(rows, view);
    assert !KeyLess(rows[0], rows[1]);
  }

  lemma ThirdOp(first: Op, second: Op, third: Op)
    ensures RunOps([], [first, second, third]) == Apply(RunOps([], [first, second]), third)
    ensures KeysGoUp([], [first, second, third]) <==>
            GoesUp([], first) && GoesUp(Apply([], first), second) && GoesUp(Apply(Apply([], first), second), third)
  {
    hide Apply, GoesUp;
    var ops := [first, second, third];
    var s1 := Apply([], first);
    var s2 := Apply(s1, second);
    assert ops[1..] == [second, third] && [second, third][1..] == [third] && [third][1..] == [];
    assert [first, second][1..] == [second] && [second][1..] == [];
    assert RunOps(s1, [second]) == RunOps(s2, []) && RunOps(s2, [third]) == RunOps(Apply(s2, third), []);
    assert RunOps(s1, [second, third]) == RunOps(s2, [third]);
    assert KeysGoUp(s2, [third]) <==> GoesUp(s2, third);
    assert KeysGoUp(s1, [second, third]) <==> GoesUp(s1, second) && KeysGoUp(s2, [third]);
  }

  lemma RemainingSecond(a: Row, b: Row, ids: set<nat>)
    requires Gone(a, ids) && !Gone(b, ids)
    ensures Remaining([a, b], ids) == [b]
  {
    var keep := (row: Row) => !Gone(row, ids);
    FilterSnoc([a], b, keep);
    FilterSnoc([], a, keep);
    assert [] + [a] == [a] && [a] + [b] == [a, b];
  }

  /** A receipt's first event is deleted, the event after it stays: the log does not verify. */
  lemma RetentionRejected(view: seq<Row>)
    requires
      var c := Chain(0, 0);
      IsView(view, RunOps([], [AppendOp(c, 1, 1, Some(7), "a"), AppendOp(c, 2, 2, None, "b"), RetainOp({7})]))
    ensures !AllValid(view)
  {
    var c := Chain(0, 0);
    var first, second, third := AppendOp(c, 1, 1, Some(7), "a"), AppendOp(c, 2, 2, None, "b"), RetainOp({7});
    TwoAppends(first, second);
    var two := RunOps([], [first, second]);
    var a, b := two[0], two[1];
    ThirdOp(first, second, third);
    RemainingSecond(a, b, {7});
    assert Apply(two, third) == [b];
    assert two == [a, b];
    assert GoesUp([], first) && GoesUp([a], second) && GoesUp(two, third);
    hide RunOps, Apply, KeysGoUp, GoesUp, IsView, AllValid, Remaining;
    RunVerifiesIff([first, second, third], view);
    assert b in [b] && !Anchored([b], b);
  }
}
