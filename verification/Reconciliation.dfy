/** Reconciling ordered with received quantities: the edge worker's grouping by a joined string key,
    the enrichment service's lookup by triples, and the import that feeds it. Quantities are reals;
    `norm` normalises a unit. */
module Reconciliation {
  import opened Options

  datatype Item = Item(poNumber: string, materialCode: string, unit: string, quantity: real)

  datatype Triple = Triple(poNumber: string, materialCode: string, unit: string)

  datatype Row = Row(triple: Triple, poQuantity: real, siteReceived: real, isOver: bool)

  const SEPARATOR := "::"

  // ----- joined keys -----

  function Join(t: Triple): string { t.poNumber + SEPARATOR + t.materialCode + SEPARATOR + t.unit }

  predicate SeparatorAt(s: string, i: nat) { i + 2 <= |s| && s[i] == ':' && s[i + 1] == ':' }

  /** The first separator at or after `i`, or the length. */
  function FindFrom(s: string, i: nat): (r: nat)
    requires i <= |s|
    ensures i <= r <= |s|
    ensures r < |s| ==> SeparatorAt(s, r)
    ensures forall k :: i <= k < r ==> !SeparatorAt(s, k)
    decreases |s| - i
  {
    if i == |s| || SeparatorAt(s, i) then i else FindFrom(s, i + 1)
  }

  /** `s.split('::')`. */
  function Split(s: string): (parts: seq<string>)
    ensures |parts| >= 1
    decreases |s|
  {
    var at := FindFrom(s, 0);
    if at == |s| then [s] else [s[..at]] + Split(s[at + 2..])
  }

  function Part(parts: seq<string>, i: nat): string { if i < |parts| then parts[i] else "" }

  function SplitTriple(key: string): Triple {
    var parts := Split(key);
    Triple(Part(parts, 0), Part(parts, 1), Part(parts, 2))
  }

  ghost predicate HasSeparator(s: string) { exists i :: 0 <= i < |s| && SeparatorAt(s, i) }

  /** No component holds a separator, and none but the unit ends in a colon. */
  ghost predicate Splittable(t: Triple) {
    !HasSeparator(t.poNumber + ":") && !HasSeparator(t.materialCode + ":") && !HasSeparator(t.unit)
  }

  /** Splitting off the first component gives it back exactly if it neither holds a separator nor
      ends in a colon. */
  lemma FirstPart(head: string, tail: string)
    ensures FindFrom(head + SEPARATOR + tail, 0) <= |head|
    ensures FindFrom(head + SEPARATOR + tail, 0) == |head| <==> !HasSeparator(head + ":")
    ensures (head + SEPARATOR + tail)[..|head|] == head && (head + SEPARATOR + tail)[|head| + 2..] == tail
  {
    var s, at := head + SEPARATOR + tail, FindFrom(head + SEPARATOR + tail, 0);
    assert SeparatorAt(s, |head|);
    forall i | 0 <= i < |head|
      ensures SeparatorAt(s, i) <==> SeparatorAt(head + ":", i)
    {
    }
    if at < |head| {
      assert SeparatorAt(head + ":", at);
    }
  }

  lemma SplitFirst(head: string, tail: string)
    ensures !HasSeparator(head + ":") ==> Split(head + SEPARATOR + tail) == [head] + Split(tail)
    ensures Split(head + SEPARATOR + tail)[0] == head <==> !HasSeparator(head + ":")
  {
    FirstPart(head, tail);
    hide HasSeparator;
  }

  lemma SplitLast(last: string)
    ensures Split(last)[0] == last <==> !HasSeparator(last)
  {
    var at := FindFrom(last, 0);
    assert HasSeparator(last) <==> at < |last|;
  }

  /** A joined key splits back to its triple exactly if its components stay clear of the
      separator. */
  lemma SplitJoinIff(t: Triple)
    ensures SplitTriple(Join(t)) == t <==> Splittable(t)
  {
    hide HasSeparator, Split;
    var second := t.materialCode + SEPARATOR + t.unit;
    assert Join(t) == t.poNumber + SEPARATOR + second;
    SplitFirst(t.poNumber, second);
    SplitFirst(t.materialCode, t.unit);
    SplitLast(t.unit);
  }

  /** Two triples that stay clear of the separator share a key only if they are the same. */
  lemma JoinInjective(a: Triple, b: Triple)
    requires Splittable(a) && Splittable(b) && Join(a) == Join(b)
    ensures a == b
  {
    SplitJoinIff(a);
    SplitJoinIff(b);
  }

  /** A separator in the key besides the two that joined it, where one of the two can give way to it. */
  ghost predicate Ambiguous(t: Triple) {
    || HasSeparator(t.poNumber + ":")
    || (t.materialCode != "" && HasSeparator(":" + t.materialCode + ":"))
    || HasSeparator(":" + t.unit)
  }

  /** The key cut at two places. */
  function CutAt(key: string, p: nat, q: nat): Triple
    requires p + 2 <= q && q + 2 <= |key|
  {
    Triple(key[..p], key[p + 2..q], key[q + 2..])
  }

  lemma CutJoins(key: string, p: nat, q: nat)
    requires p + 2 <= q && SeparatorAt(key, p) && SeparatorAt(key, q)
    ensures Join(CutAt(key, p, q)) == key
  {
    assert key[p..p + 2] == SEPARATOR && key[q..q + 2] == SEPARATOR;
    assert key == key[..p] + key[p..p + 2] + key[p + 2..q] + key[q..q + 2] + key[q + 2..];
  }

  lemma JoinCuts(t: Triple)
    ensures
      var p, q := |t.poNumber|, |t.poNumber| + 2 + |t.materialCode|;
      && SeparatorAt(Join(t), p) && SeparatorAt(Join(t), q) && CutAt(Join(t), p, q) == t
      && Join(t)[..p + 1] == t.poNumber + ":" && Join(t)[p + 1..q + 1] == ":" + t.materialCode + ":" && Join(t)[q + 1..] == ":" + t.unit
  {
  }

  /** A separator of a part of the key is one of the key. */
  lemma SeparatorOf(key: string, from: nat, end: nat)
    requires from <= end <= |key|
    ensures HasSeparator(key[from..end]) <==> exists i :: from <= i && i + 2 <= end && SeparatorAt(key, i)
  {
    if HasSeparator(key[from..end]) {
      var i :| 0 <= i < end - from && SeparatorAt(key[from..end], i);
      assert SeparatorAt(key, from + i);
    }
    forall i | from <= i && i + 2 <= end && SeparatorAt(key, i)
      ensures HasSeparator(key[from..end])
    {
      assert SeparatorAt(key[from..end], i - from);
    }
  }

  lemma AmbiguousIsThird(t: Triple)
    ensures
      var key, p, q := Join(t), |t.poNumber|, |t.poNumber| + 2 + |t.materialCode|;
      Ambiguous(t) <==> exists r :: 0 <= r && r != p && r != q && SeparatorAt(key, r) && (p < r < q ==> t.materialCode != "")
  {
    hide Join, HasSeparator;
    var key, p, q := Join(t), |t.poNumber|, |t.poNumber| + 2 + |t.materialCode|;
    JoinCuts(t);
    SeparatorOf(key, 0, p + 1);
    SeparatorOf(key, p + 1, q + 1);
    SeparatorOf(key, q + 1, |key|);
    assert key[0..p + 1] == key[..p + 1] && key[q + 1..|key|] == key[q + 1..];
  }

  /** The rule "different triples get different keys" fails for a triple exactly if its order number
      ends in a colon or holds a separator, its material code, not empty, starts or ends in a colon
      or holds a separator, or its unit starts with a colon or holds a separator. */
  lemma SharedKeyIff(a: Triple)
    ensures (exists b :: b != a && Join(b) == Join(a)) <==> Ambiguous(a)
  {
    var key, p, q := Join(a), |a.poNumber|, |a.poNumber| + 2 + |a.materialCode|;
    JoinCuts(a);
    AmbiguousIsThird(a);
    hide Join, Ambiguous, HasSeparator;
    forall b | b != a && Join(b) == Join(a)
      ensures Ambiguous(a)
    {
      JoinCuts(b);
      var p', q' := |b.poNumber|, |b.poNumber| + 2 + |b.materialCode|;
      assert p' != p || q' != q;
      var r := if p' < p then p' else if q' > q then q' else if p' > p then p' else q';
      assert SeparatorAt(key, r) && r != p && r != q;
    }
    if Ambiguous(a) {
      var r :| 0 <= r && r != p && r != q && SeparatorAt(key, r) && (p < r < q ==> a.materialCode != "");
      var p', q' := if r < p then r else if r > q || r >= p + 2 then p else r, if r < p then q else if r > q || r >= p + 2 then r else q;
      CutJoins(key, p', q');
      var b := CutAt(key, p', q');
      assert |b.poNumber| == p' && |b.poNumber| + 2 + |b.materialCode| == q';
      assert b != a;
    }
  }

  /** So different triples can be grouped together, though splitting returns one of them. */
  lemma JoinCollides()
    ensures Join(Triple("A:", "B", "KG")) == Join(Triple("A", ":B", "KG"))
    ensures Ambiguous(Triple("A", ":B", "KG")) && Splittable(Triple("A", ":B", "KG"))
  {
    SharedKeyIff(Triple("A", ":B", "KG"));
    assert Triple("A:", "B", "KG") != Triple("A", ":B", "KG");
    var key := Join(Triple("A", ":B", "KG"));
    assert forall i :: 0 <= i < 2 ==> !SeparatorAt("A" + ":", i);
    assert forall i :: 0 <= i < 3 ==> !SeparatorAt(":B" + ":", i);
  }

  // ----- grouping -----

  function TripleOf(item: Item, norm: string -> string): Triple {
    Triple(item.poNumber, item.materialCode, norm(item.unit))
  }

  function KeyOf(item: Item, norm: string -> string): string { Join(TripleOf(item, norm)) }

  function SumFor(items: seq<Item>, norm: string -> string, key: string): real {
    if items == [] then 0.0
    else
      var last := items[|items| - 1];
      SumFor(items[..|items| - 1], norm, key) + if KeyOf(last, norm) == key then last.quantity else 0.0
  }

  function SumAll(items: seq<Item>): real {
    if items == [] then 0.0 else SumAll(items[..|items| - 1]) + items[|items| - 1].quantity
  }

  function AddKey(keys: seq<string>, key: string): seq<string> { if key in keys then keys else keys + [key] }

  /** The keys in the order of their first occurrence. */
  function DistinctKeys(items: seq<Item>, norm: string -> string): seq<string> {
    if items == [] then [] else AddKey(DistinctKeys(items[..|items| - 1], norm), KeyOf(items[|items| - 1], norm))
  }

  function AddKeys(keys: seq<string>, more: seq<string>): seq<string>
    decreases |more|
  {
    if more == [] then keys else AddKey(AddKeys(keys, more[..|more| - 1]), more[|more| - 1])
  }

  ghost predicate Distinct(keys: seq<string>) {
    forall i, j :: 0 <= i < j < |keys| ==> keys[i] != keys[j]
  }

  ghost predicate IsKey(items: seq<Item>, norm: string -> string, key: string) {
    exists i :: 0 <= i < |items| && KeyOf(items[i], norm) == key
  }

  lemma KeyGrows(items: seq<Item>, norm: string -> string)
    requires items != []
    ensures forall key :: IsKey(items, norm, key) <==> IsKey(items[..|items| - 1], norm, key) || key == KeyOf(items[|items| - 1], norm)
  {
    hide KeyOf;
    var init := items[..|items| - 1];
    forall key
      ensures IsKey(items, norm, key) <==> IsKey(init, norm, key) || key == KeyOf(items[|items| - 1], norm)
    {
      if i :| 0 <= i < |init| && KeyOf(init[i], norm) == key {
        assert KeyOf(items[i], norm) == key;
      }
      if i :| 0 <= i < |items| && KeyOf(items[i], norm) == key {
        assert i < |init| ==> init[i] == items[i];
      }
    }
  }

  lemma {:induction false} DistinctKeysAre(items: seq<Item>, norm: string -> string)
    ensures Distinct(DistinctKeys(items, norm))
    ensures forall key :: key in DistinctKeys(items, norm) <==> IsKey(items, norm, key)
  {
    hide KeyOf;
    if items != [] {
      DistinctKeysAre(items[..|items| - 1], norm);
      KeyGrows(items, norm);
      hide IsKey;
    }
  }

  lemma DistinctKeysOk(items: seq<Item>, norm: string -> string)
    ensures Distinct(DistinctKeys(items, norm))
    ensures forall i :: 0 <= i < |items| ==> KeyOf(items[i], norm) in DistinctKeys(items, norm)
    ensures forall key :: key in DistinctKeys(items, norm) ==> exists i :: 0 <= i < |items| && KeyOf(items[i], norm) == key
  {
    DistinctKeysAre(items, norm);
    hide KeyOf, DistinctKeys;
    forall i | 0 <= i < |items|
      ensures IsKey(items, norm, KeyOf(items[i], norm))
    {
    }
  }

  lemma {:induction false} AddKeysMembers(keys: seq<string>, more: seq<string>)
    ensures forall key :: key in AddKeys(keys, more) <==> key in keys || key in more
    decreases |more|
  {
    if more != [] {
      AddKeysMembers(keys, more[..|more| - 1]);
      assert more == more[..|more| - 1] + [more[|more| - 1]];
    }
  }

  /** The union of the two groups' keys is the keys of the two lists read one after the other. */
  lemma {:induction false} KeysOfBoth(orders: seq<Item>, receipts: seq<Item>, norm: string -> string)
    ensures AddKeys(DistinctKeys(orders, norm), DistinctKeys(receipts, norm)) == DistinctKeys(orders + receipts, norm)
    decreases |receipts|
  {
    if receipts == [] {
      assert orders + receipts == orders;
    } else {
      var init, last := receipts[..|receipts| - 1], receipts[|receipts| - 1];
      KeysOfBoth(orders, init, norm);
      assert (orders + receipts)[..|orders + receipts| - 1] == orders + init;
      var before, key := DistinctKeys(init, norm), KeyOf(last, norm);
      AddKeysMembers(DistinctKeys(orders, norm), before);
      if key !in before {
        assert (before + [key])[..|before|] == before;
      }
    }
  }

  function RowOf(key: string, orders: seq<Item>, receipts: seq<Item>, norm: string -> string): Row {
    var ordered, received := SumFor(orders, norm, key), SumFor(receipts, norm, key);
    Row(SplitTriple(key), ordered, received, received > ordered)
  }

  function RowsFor(keys: seq<string>, orders: seq<Item>, receipts: seq<Item>, norm: string -> string): (rows: seq<Row>)
    ensures |rows| == |keys|
    ensures forall i :: 0 <= i < |keys| ==> rows[i] == RowOf(keys[i], orders, receipts, norm)
    decreases |keys|
  {
    if keys == [] then []
    else RowsFor(keys[..|keys| - 1], orders, receipts, norm) + [RowOf(keys[|keys| - 1], orders, receipts, norm)]
  }

  /** The rows before they are sorted by order number for display. */
  function Deltas(orders: seq<Item>, receipts: seq<Item>, norm: string -> string): seq<Row> {
    RowsFor(DistinctKeys(orders + receipts, norm), orders, receipts, norm)
  }

  // ----- conservation -----

  function TotalOrdered(rows: seq<Row>): real {
    if rows == [] then 0.0 else TotalOrdered(rows[..|rows| - 1]) + rows[|rows| - 1].poQuantity
  }

  function TotalReceived(rows: seq<Row>): real {
    if rows == [] then 0.0 else TotalReceived(rows[..|rows| - 1]) + rows[|rows| - 1].siteReceived
  }

  function SumOver(keys: seq<string>, items: seq<Item>, norm: string -> string): real {
    if keys == [] then 0.0 else SumOver(keys[..|keys| - 1], items, norm) + SumFor(items, norm, keys[|keys| - 1])
  }

  lemma {:induction false} OneMore(keys: seq<string>, items: seq<Item>, norm: string -> string)
    requires items != [] && Distinct(keys)
    ensures
      var last := items[|items| - 1];
      SumOver(keys, items, norm) ==
      SumOver(keys, items[..|items| - 1], norm) + if KeyOf(last, norm) in keys then last.quantity else 0.0
    decreases |keys|
  {
    if keys != [] {
      OneMore(keys[..|keys| - 1], items, norm);
      assert keys == keys[..|keys| - 1] + [keys[|keys| - 1]];
    }
  }

  lemma {:induction false} NothingToSum(keys: seq<string>, norm: string -> string)
    ensures SumOver(keys, [], norm) == 0.0
    decreases |keys|
  {
    if keys != [] {
      NothingToSum(keys[..|keys| - 1], norm);
    }
  }

  lemma {:induction false} AllCounted(keys: seq<string>, items: seq<Item>, norm: string -> string)
    requires Distinct(keys) && forall i :: 0 <= i < |items| ==> KeyOf(items[i], norm) in keys
    ensures SumOver(keys, items, norm) == SumAll(items)
    decreases |items|
  {
    if items == [] {
      NothingToSum(keys, norm);
    } else {
      OneMore(keys, items, norm);
      AllCounted(keys, items[..|items| - 1], norm);
    }
  }

  lemma {:induction false} TotalsOfRows(keys: seq<string>, orders: seq<Item>, receipts: seq<Item>, norm: string -> string)
    ensures TotalOrdered(RowsFor(keys, orders, receipts, norm)) == SumOver(keys, orders, norm)
    ensures TotalReceived(RowsFor(keys, orders, receipts, norm)) == SumOver(keys, receipts, norm)
    decreases |keys|
  {
    if keys != [] {
      TotalsOfRows(keys[..|keys| - 1], orders, receipts, norm);
      var rows := RowsFor(keys, orders, receipts, norm);
      assert rows[..|rows| - 1] == RowsFor(keys[..|keys| - 1], orders, receipts, norm);
    }
  }

  /** There is one row for each distinct key of an order or a receipt, and no quantity ordered or
      received is lost or counted twice. */
  lemma DeltasConserve(orders: seq<Item>, receipts: seq<Item>, norm: string -> string)
    ensures
      var keys := DistinctKeys(orders + receipts, norm);
      && |Deltas(orders, receipts, norm)| == |keys| && Distinct(keys)
      && (forall key :: key in keys <==> exists i :: 0 <= i < |orders + receipts| && KeyOf((orders + receipts)[i], norm) == key)
    ensures TotalOrdered(Deltas(orders, receipts, norm)) == SumAll(orders)
    ensures TotalReceived(Deltas(orders, receipts, norm)) == SumAll(receipts)
  {
    var both := orders + receipts;
    var keys := DistinctKeys(both, norm);
    DistinctKeysOk(both, norm);
    forall i | 0 <= i < |orders|
      ensures KeyOf(orders[i], norm) in keys
    {
      assert both[i] == orders[i];
    }
    forall i | 0 <= i < |receipts|
      ensures KeyOf(receipts[i], norm) in keys
    {
      assert both[|orders| + i] == receipts[i];
    }
    AllCounted(keys, orders, norm);
    AllCounted(keys, receipts, norm);
    TotalsOfRows(keys, orders, receipts, norm);
  }

  // ----- the enrichment service's rows -----

  function SumForTriple(items: seq<Item>, norm: string -> string, t: Triple): real {
    if items == [] then 0.0
    else
      var last := items[|items| - 1];
      SumForTriple(items[..|items| - 1], norm, t) + if TripleOf(last, norm) == t then last.quantity else 0.0
  }

  function PlainTriple(item: Item): Triple { Triple(item.poNumber, item.materialCode, item.unit) }

  function DeltaRows(received: map<Triple, real>, orders: seq<Item>): (rows: seq<Row>)
    ensures |rows| == |orders|
  {
    seq(|orders|, i requires 0 <= i < |orders| =>
      var t := PlainTriple(orders[i]);
      var quantity := if t in received then received[t] else 0.0;
      Row(t, orders[i].quantity, quantity, quantity > orders[i].quantity))
  }

  /** The service's sums of the verified receipts by triple, for the triples that have any; `stored`
      is the unit the service files a receipt under. */
  ghost predicate ReceivedBy(received: map<Triple, real>, receipts: seq<Item>, stored: string -> string) {
    && (forall i :: 0 <= i < |receipts| ==> TripleOf(receipts[i], stored) in received)
    && (forall t :: t in received ==> received[t] == SumForTriple(receipts, stored, t))
  }

  /** The two services normalise the units of these receipts alike. */
  ghost predicate UnitsAgree(receipts: seq<Item>, norm: string -> string, stored: string -> string) {
    forall i :: 0 <= i < |receipts| ==> norm(receipts[i].unit) == stored(receipts[i].unit)
  }

  lemma {:induction false} SumsAgree(receipts: seq<Item>, norm: string -> string, stored: string -> string, t: Triple)
    requires UnitsAgree(receipts, norm, stored)
    ensures SumForTriple(receipts, norm, t) == SumForTriple(receipts, stored, t)
  {
    if receipts != [] {
      SumsAgree(receipts[..|receipts| - 1], norm, stored, t);
    }
  }

  ghost predicate DuplicateFree(orders: seq<Item>) {
    forall i, j :: 0 <= i < j < |orders| ==> PlainTriple(orders[i]) != PlainTriple(orders[j])
  }

  ghost predicate AllSplittable(items: seq<Item>, norm: string -> string) {
    forall i :: 0 <= i < |items| ==> Splittable(TripleOf(items[i], norm))
  }

  ghost predicate Normalised(orders: seq<Item>, norm: string -> string) {
    forall i :: 0 <= i < |orders| ==> norm(orders[i].unit) == orders[i].unit
  }

  lemma {:induction false} SumByTriple(items: seq<Item>, norm: string -> string, t: Triple)
    requires AllSplittable(items, norm) && Splittable(t)
    ensures SumFor(items, norm, Join(t)) == SumForTriple(items, norm, t)
  {
    if items != [] {
      var init, last := items[..|items| - 1], items[|items| - 1];
      assert AllSplittable(init, norm);
      SumByTriple(init, norm, t);
      if KeyOf(last, norm) == Join(t) {
        JoinInjective(TripleOf(last, norm), t);
      }
    }
  }

  lemma {:induction false} NoneForTriple(items: seq<Item>, norm: string -> string, t: Triple)
    requires forall i :: 0 <= i < |items| ==> TripleOf(items[i], norm) != t
    ensures SumForTriple(items, norm, t) == 0.0
  {
    if items != [] {
      NoneForTriple(items[..|items| - 1], norm, t);
    }
  }

  lemma {:induction false} OneForTriple(orders: seq<Item>, norm: string -> string, i: nat)
    requires DuplicateFree(orders) && Normalised(orders, norm) && i < |orders|
    ensures SumForTriple(orders, norm, PlainTriple(orders[i])) == orders[i].quantity
  {
    var init := orders[..|orders| - 1];
    if i < |init| {
      OneForTriple(init, norm, i);
    } else {
      NoneForTriple(init, norm, PlainTriple(orders[i]));
    }
  }

  lemma {:induction false} KeysOfOrders(orders: seq<Item>, norm: string -> string)
    requires DuplicateFree(orders) && Normalised(orders, norm) && AllSplittable(orders, norm)
    ensures |DistinctKeys(orders, norm)| == |orders|
    ensures forall i :: 0 <= i < |orders| ==> DistinctKeys(orders, norm)[i] == KeyOf(orders[i], norm)
  {
    if orders != [] {
      var init, last := orders[..|orders| - 1], orders[|orders| - 1];
      KeysOfOrders(init, norm);
      SplitJoinIff(TripleOf(last, norm));
      hide Join, SplitTriple, Splittable;
      forall i | 0 <= i < |init|
        ensures DistinctKeys(init, norm)[i] != KeyOf(last, norm)
      {
        assert init[i] == orders[i] && PlainTriple(orders[i]) != PlainTriple(last);
        SplitJoinIff(TripleOf(orders[i], norm));
      }
    }
  }

  lemma {:induction false} AddKeysPrefix(keys: seq<string>, more: seq<string>)
    ensures keys <= AddKeys(keys, more)
    decreases |more|
  {
    if more != [] {
      AddKeysPrefix(keys, more[..|more| - 1]);
    }
  }

  lemma RowMatches(orders: seq<Item>, receipts: seq<Item>, received: map<Triple, real>, norm: string -> string, stored: string -> string, i: nat)
    requires DuplicateFree(orders) && Normalised(orders, norm) && i < |orders|
    requires AllSplittable(orders, norm) && AllSplittable(receipts, norm)
    requires ReceivedBy(received, receipts, stored) && UnitsAgree(receipts, norm, stored)
    ensures RowOf(KeyOf(orders[i], norm), orders, receipts, norm) == DeltaRows(received, orders)[i]
  {
    var t := TripleOf(orders[i], norm);
    assert t == PlainTriple(orders[i]) && Splittable(t);
    hide SumFor, SumForTriple, Splittable, SplitTriple, Join, DuplicateFree;
    SplitJoinIff(t);
    SumByTriple(orders, norm, t);
    SumByTriple(receipts, norm, t);
    OneForTriple(orders, norm, i);
    SumsAgree(receipts, norm, stored, t);
    if t !in received {
      NoneForTriple(receipts, stored, t);
    }
  }

  /** The row is that of a triple that was ordered or received, and sums its quantities. */
  ghost predicate IsSum(row: Row, key: string, orders: seq<Item>, receipts: seq<Item>, norm: string -> string) {
    && key == Join(row.triple)
    && (exists item :: (item in orders || item in receipts) && TripleOf(item, norm) == row.triple)
    && row.poQuantity == SumForTriple(orders, norm, row.triple)
    && row.siteReceived == SumForTriple(receipts, norm, row.triple)
    && (row.isOver <==> row.siteReceived > row.poQuantity)
  }

  lemma RowIsSum(item: Item, orders: seq<Item>, receipts: seq<Item>, norm: string -> string)
    requires AllSplittable(orders, norm) && AllSplittable(receipts, norm) && (item in orders || item in receipts)
    ensures
      var row := RowOf(KeyOf(item, norm), orders, receipts, norm);
      row.triple == TripleOf(item, norm) && IsSum(row, KeyOf(item, norm), orders, receipts, norm)
  {
    var t := TripleOf(item, norm);
    assert Splittable(t);
    hide Splittable, SplitTriple, Join, SumFor, SumForTriple;
    SplitJoinIff(t);
    SumByTriple(orders, norm, t);
    SumByTriple(receipts, norm, t);
  }

  lemma KeysHaveItems(orders: seq<Item>, receipts: seq<Item>, norm: string -> string)
    ensures Distinct(DistinctKeys(orders + receipts, norm))
    ensures forall key :: key in DistinctKeys(orders + receipts, norm) ==>
              exists item :: (item in orders || item in receipts) && KeyOf(item, norm) == key
    ensures forall item :: item in orders || item in receipts ==> KeyOf(item, norm) in DistinctKeys(orders + receipts, norm)
  {
    var items := orders + receipts;
    DistinctKeysOk(items, norm);
    hide DistinctKeys, KeyOf;
    assert forall item :: item in items <==> item in orders || item in receipts;
    forall key | key in DistinctKeys(items, norm)
      ensures exists item :: (item in orders || item in receipts) && KeyOf(item, norm) == key
    {
      var i :| 0 <= i < |items| && KeyOf(items[i], norm) == key;
      assert items[i] in items;
    }
    forall item | item in items
      ensures KeyOf(item, norm) in DistinctKeys(items, norm)
    {
      var i :| 0 <= i < |items| && items[i] == item;
    }
  }

  /** What the rows say, where no component holds a separator: one row for each triple that was ordered
      or received, with the sums of its own orders and receipts, over if more came in than was ordered. */
  lemma DeltasByTriple(orders: seq<Item>, receipts: seq<Item>, norm: string -> string)
    requires AllSplittable(orders, norm) && AllSplittable(receipts, norm)
    ensures
      var rows := Deltas(orders, receipts, norm);
      && (forall i, j :: 0 <= i < j < |rows| ==> rows[i].triple != rows[j].triple)
      && (forall item :: item in orders || item in receipts ==> exists row :: row in rows && row.triple == TripleOf(item, norm))
      && (forall row :: row in rows ==> IsSum(row, Join(row.triple), orders, receipts, norm))
  {
    var keys, rows := DistinctKeys(orders + receipts, norm), Deltas(orders, receipts, norm);
    KeysHaveItems(orders, receipts, norm);
    hide DistinctKeys, KeyOf, RowOf, TripleOf, SumForTriple, AllSplittable;
    forall i | 0 <= i < |rows|
      ensures rows[i] == RowOf(keys[i], orders, receipts, norm)
      ensures IsSum(rows[i], keys[i], orders, receipts, norm)
    {
      assert keys[i] in keys;
      var item :| (item in orders || item in receipts) && KeyOf(item, norm) == keys[i];
      RowIsSum(item, orders, receipts, norm);
    }
    forall item | item in orders || item in receipts
      ensures exists row :: row in rows && row.triple == TripleOf(item, norm)
    {
      var i :| 0 <= i < |keys| && keys[i] == KeyOf(item, norm);
      RowIsSum(item, orders, receipts, norm);
      assert rows[i] in rows;
    }
  }

  /** For duplicate-free orders in normalised units, as long as nothing holds a separator and the two
      services normalise the receipts' units alike, the grouping's first rows are, one for one and in
      order, the rows the enrichment service computes by looking each order up. */
  lemma DeltasMatch(orders: seq<Item>, receipts: seq<Item>, received: map<Triple, real>, norm: string -> string, stored: string -> string)
    requires DuplicateFree(orders) && Normalised(orders, norm)
    requires AllSplittable(orders, norm) && AllSplittable(receipts, norm)
    requires ReceivedBy(received, receipts, stored) && UnitsAgree(receipts, norm, stored)
    ensures DeltaRows(received, orders) <= Deltas(orders, receipts, norm)
  {
    var rows, expected := Deltas(orders, receipts, norm), DeltaRows(received, orders);
    hide *;
    forall i | 0 <= i < |orders|
      ensures i < |rows| && rows[i] == expected[i]
    {
      OrderRow(orders, receipts, norm, i);
      RowMatches(orders, receipts, received, norm, stored, i);
    }
    if orders != [] {
      OrderRow(orders, receipts, norm, |orders| - 1);
    }
    assert rows[..|orders|] == expected;
  }

  /** The orders' own rows come first. */
  lemma OrderRow(orders: seq<Item>, receipts: seq<Item>, norm: string -> string, i: nat)
    requires DuplicateFree(orders) && Normalised(orders, norm) && AllSplittable(orders, norm) && i < |orders|
    ensures
      var rows := Deltas(orders, receipts, norm);
      i < |rows| && rows[i] == RowOf(KeyOf(orders[i], norm), orders, receipts, norm)
  {
    hide DistinctKeys, KeyOf, RowOf, AddKeys, DuplicateFree, AllSplittable, Normalised;
    KeysOfOrders(orders, norm);
    KeysOfBoth(orders, receipts, norm);
    AddKeysPrefix(DistinctKeys(orders, norm), DistinctKeys(receipts, norm));
    var keys := DistinctKeys(orders + receipts, norm);
    assert keys[i] == DistinctKeys(orders, norm)[i] == KeyOf(orders[i], norm);
  }

  // ----- the edge worker's loops -----

  method GroupQuantities(items: seq<Item>, norm: string -> string) returns (byKey: map<string, real>, keys: seq<string>)
    ensures keys == DistinctKeys(items, norm)
    ensures forall key :: key in byKey <==> key in keys
    ensures forall key :: SumFor(items, norm, key) == if key in byKey then byKey[key] else 0.0
  {
    byKey, keys := map[], [];
    var i := 0;
    while i < |items|
      invariant 0 <= i <= |items|
      invariant keys == DistinctKeys(items[..i], norm)
      invariant forall key :: key in byKey <==> key in keys
      invariant forall key :: SumFor(items[..i], norm, key) == if key in byKey then byKey[key] else 0.0
    {
      var item := items[i];
      var key := item.poNumber + SEPARATOR + item.materialCode + SEPARATOR + norm(item.unit);
      assert key == KeyOf(item, norm);
      assert items[..i + 1][..i] == items[..i];
      var before := if key in byKey then byKey[key] else 0.0;
      keys := AddKey(keys, key);
      byKey := byKey[key := before + item.quantity];
      i := i + 1;
    }
    assert items[..i] == items;
  }

  method CalculateReconciliationDeltas(orders: seq<Item>, receipts: seq<Item>, norm: string -> string) returns (rows: seq<Row>)
    ensures rows == Deltas(orders, receipts, norm)
    ensures TotalOrdered(rows) == SumAll(orders) && TotalReceived(rows) == SumAll(receipts)
  {
    var poByKey, poKeys := GroupQuantities(orders, norm);
    var receiptByKey, receiptKeys := GroupQuantities(receipts, norm);
    var allKeys := UnionKeys(poKeys, receiptKeys);
    KeysOfBoth(orders, receipts, norm);
    DeltasConserve(orders, receipts, norm);
    hide SumFor, SplitTriple, DistinctKeys, TotalOrdered, TotalReceived;
    rows := [];
    var i := 0;
    while i < |allKeys|
      invariant 0 <= i <= |allKeys|
      invariant rows == RowsFor(allKeys[..i], orders, receipts, norm)
    {
      var key := allKeys[i];
      var ordered := if key in poByKey then poByKey[key] else 0.0;
      var received := if key in receiptByKey then receiptByKey[key] else 0.0;
      rows := rows + [Row(SplitTriple(key), ordered, received, received > ordered)];
      assert allKeys[..i + 1][..i] == allKeys[..i];
      i := i + 1;
    }
    assert allKeys[..i] == allKeys;
  }

  method UnionKeys(keys: seq<string>, more: seq<string>) returns (all: seq<string>)
    ensures all == AddKeys(keys, more)
  {
    all := keys;
    var i := 0;
    while i < |more|
      invariant 0 <= i <= |more|
      invariant all == AddKeys(keys, more[..i])
    {
      all := AddKey(all, more[i]);
      assert more[..i + 1][..i] == more[..i];
      i := i + 1;
    }
    assert more[..i] == more;
  }

  // ----- the import -----

  datatype ImportError = InvalidRow | EmptyImport | DuplicateRow
  datatype Imported = Rows(rows: seq<Item>) | Rejected(error: ImportError)

  /** A record of the file as the CSV reader gives it. */
  datatype Record = Record(poNumber: string, materialCode: string, quantity: string, unit: string)

  /** The row of one record; `clean` strips and upper-cases, `number` parses a quantity. */
  function ImportRow(record: Record, clean: string -> string, number: string -> Option<real>, norm: string -> string): Option<Item> {
    var quantity := number(record.quantity);
    if quantity.None? then None
    else
      var item := Item(clean(record.poNumber), clean(record.materialCode), norm(record.unit), quantity.value);
      if item.poNumber == "" || item.materialCode == "" || item.unit == "" || item.quantity < 0.0 then None else Some(item)
  }

  /** What makes a record a row: its quantity is a number and not negative, and no other field is
      empty once cleaned. */
  lemma ImportRowIff(record: Record, clean: string -> string, number: string -> Option<real>, norm: string -> string)
    ensures
      var row := ImportRow(record, clean, number, norm);
      && (row.Some? <==>
            && number(record.quantity).Some? && number(record.quantity).value >= 0.0
            && clean(record.poNumber) != "" && clean(record.materialCode) != "" && norm(record.unit) != "")
      && (row.Some? ==>
            && row.value.poNumber == clean(record.poNumber) && row.value.materialCode == clean(record.materialCode)
            && row.value.unit == norm(record.unit) && row.value.quantity == number(record.quantity).value)
  {
  }

  function Identities(items: seq<Item>): set<Triple> {
    set i | 0 <= i < |items| :: PlainTriple(items[i])
  }

  lemma IdentitiesGrow(items: seq<Item>)
    requires items != []
    ensures Identities(items) == Identities(items[..|items| - 1]) + {PlainTriple(items[|items| - 1])}
  {
    var init := items[..|items| - 1];
    forall t | t in Identities(init)
      ensures t in Identities(items)
    {
      var i :| 0 <= i < |init| && PlainTriple(init[i]) == t;
      assert PlainTriple(items[i]) == t;
    }
    forall t | t in Identities(items)
      ensures t in Identities(init) || t == PlainTriple(items[|items| - 1])
    {
      var i :| 0 <= i < |items| && PlainTriple(items[i]) == t;
      if i < |init| {
        assert PlainTriple(init[i]) == t;
      }
    }
  }

  lemma DuplicateFreeGrows(items: seq<Item>)
    requires items != []
    ensures DuplicateFree(items) <==>
            DuplicateFree(items[..|items| - 1]) && PlainTriple(items[|items| - 1]) !in Identities(items[..|items| - 1])
  {
    var init, last := items[..|items| - 1], PlainTriple(items[|items| - 1]);
    assert forall i :: 0 <= i < |init| ==> init[i] == items[i];
    if last in Identities(init) {
      var i :| 0 <= i < |init| && PlainTriple(init[i]) == last;
      assert PlainTriple(items[i]) == PlainTriple(items[|init|]);
    }
  }

  /** As many identities as rows: the way the import looks for duplicates is sound and complete. */
  lemma {:induction false} IdentitiesCount(items: seq<Item>)
    ensures |Identities(items)| <= |items|
    ensures |Identities(items)| == |items| <==> DuplicateFree(items)
  {
    if items != [] {
      IdentitiesGrow(items);
      DuplicateFreeGrows(items);
      IdentitiesCount(items[..|items| - 1]);
      hide Identities, DuplicateFree;
      var before, last := Identities(items[..|items| - 1]), PlainTriple(items[|items| - 1]);
      if last in before {
        assert before + {last} == before;
      } else {
        assert |before + {last}| == |before| + 1;
      }
    }
  }

  /** An import is accepted exactly if it has a row, every record gives one, and no two share their
      identity; so accepted orders are what `DeltasMatch` asks for. */
  method ParseRecords(records: seq<Record>, clean: string -> string, number: string -> Option<real>, norm: string -> string)
    returns (result: Imported)
    ensures result.Rows? ==>
              && |result.rows| == |records| > 0 && DuplicateFree(result.rows)
              && forall i :: 0 <= i < |records| ==> ImportRow(records[i], clean, number, norm) == Some(result.rows[i])
    ensures result == Rejected(InvalidRow) <==> exists i :: 0 <= i < |records| && ImportRow(records[i], clean, number, norm).None?
    ensures result == Rejected(EmptyImport) <==> records == []
    ensures result == Rejected(DuplicateRow) ==>
              exists i, j :: 0 <= i < j < |records| && ImportRow(records[i], clean, number, norm).Some? && ImportRow(records[j], clean, number, norm).Some?
                && PlainTriple(ImportRow(records[i], clean, number, norm).value) == PlainTriple(ImportRow(records[j], clean, number, norm).value)
  {
    var rows: seq<Item> := [];
    var i := 0;
    while i < |records|
      invariant 0 <= i <= |records| && |rows| == i
      invariant forall k :: 0 <= k < i ==> ImportRow(records[k], clean, number, norm) == Some(rows[k])
    {
      var row := ImportRow(records[i], clean, number, norm);
      if row.None? {
        return Rejected(InvalidRow);
      }
      rows := rows + [row.value];
      i := i + 1;
    }
    if rows == [] {
      return Rejected(EmptyImport);
    }
    var identities := Identities(rows);
    IdentitiesCount(rows);
    if |identities| != |rows| {
      return Rejected(DuplicateRow);
    }
    result := Rows(rows);
  }
}
