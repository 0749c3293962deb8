/** The edge worker's two verifiers of one audit chain: the breadth-first DAG check and the linear
    check, over arbitrary stored events. */
module AuditDag {
  import opened Options
  import opened Hashing

  /** A stored event; `json` is None where its text does not parse. */
  datatype Event = Event(id: nat, json: Option<Body>, previous: Hash, hash: Hash)

  datatype Error =
    | NotFound
    | NoGenesis
    | BadJson(id: nat)
    | WrongPrevious(id: nat)
    | HashMismatch(id: nat, expected: Hash)
    | Orphan(id: nat)
    | Fork(previous: Hash, children: nat)
    | HeadMismatch

  ghost predicate UniqueIds(events: seq<Event>) {
    forall i, j :: 0 <= i < j < |events| ==> events[i].id != events[j].id
  }

  /** The stored hash is the digest of the body chained to the stored previous hash. */
  predicate Sound(e: Event) {
    e.json.Some? && e.hash == H(e.previous, e.json.value)
  }

  ghost predicate AllSound(events: seq<Event>) {
    forall e :: e in events ==> Sound(e)
  }

  /** `b` chains to `a`, and `a` parses, so the traversal goes from `a` to `b`. */
  predicate Edge(a: Event, b: Event) { a.json.Some? && b.previous == a.hash }

  ghost predicate HasParentIn(events: seq<Event>, e: Event) {
    exists a :: a in events && Edge(a, e)
  }

  ghost predicate Path(events: seq<Event>, p: seq<Event>) {
    && p != []
    && (forall e :: e in p ==> e in events)
    && (forall i :: 0 < i < |p| ==> Edge(p[i - 1], p[i]))
  }

  ghost predicate Reachable(events: seq<Event>, from: Event, e: Event) {
    exists p :: Path(events, p) && p[0] == from && p[|p| - 1] == e
  }

  predicate Leaf(events: seq<Event>, e: Event) {
    forall x :: x in events ==> x.previous != e.hash
  }

  /** The recorded head, if there is one, is the hash of an event without children. */
  ghost predicate HeadIsLeaf(events: seq<Event>, head: Option<Hash>) {
    head.Some? ==> exists e :: e in events && Leaf(events, e) && e.hash == head.value
  }

  ghost predicate OneGenesis(events: seq<Event>, g: Event) {
    g in events && forall e :: e in events ==> (e.previous == Empty <==> e == g)
  }

  /** What a valid DAG is: one genesis, everything reachable from it, every digest right, head a leaf. */
  ghost predicate DagValid(events: seq<Event>, head: Option<Hash>) {
    && HeadIsLeaf(events, head)
    && AllSound(events)
    && exists g :: OneGenesis(events, g) && forall e :: e in events ==> Reachable(events, g, e)
  }

  ghost predicate NoForks(events: seq<Event>) {
    forall i, j :: 0 <= i < j < |events| ==> events[i].previous != events[j].previous
  }

  function ChildrenOf(events: seq<Event>, h: Hash): seq<Event> {
    if events == [] then []
    else ChildrenOf(events[..|events| - 1], h)
         + if events[|events| - 1].previous == h then [events[|events| - 1]] else []
  }

  lemma {:induction false} ChildrenIn(events: seq<Event>, h: Hash)
    ensures forall e :: e in ChildrenOf(events, h) <==> e in events && e.previous == h
    decreases |events|
  {
    if events != [] {
      ChildrenIn(events[..|events| - 1], h);
      assert events == events[..|events| - 1] + [events[|events| - 1]];
    }
  }

  ghost predicate Indexes(events: seq<Event>, children: map<Hash, seq<Event>>) {
    forall h :: (h in children <==> ChildrenOf(events, h) != []) && (h in children ==> children[h] == ChildrenOf(events, h))
  }

  /** The parent-to-children map of the DAG check. */
  method BuildChildren(events: seq<Event>) returns (children: map<Hash, seq<Event>>)
    ensures Indexes(events, children)
  {
    children := map[];
    for i := 0 to |events|
      invariant Indexes(events[..i], children)
    {
      var ev := events[i];
      assert events[..i + 1][..i] == events[..i] && events[..i + 1][i] == ev;
      var siblings := if ev.previous in children then children[ev.previous] else [];
      children := children[ev.previous := siblings + [ev]];
    }
    assert events[..|events|] == events;
  }

  method FindGenesis(events: seq<Event>) returns (genesis: Option<Event>)
    ensures genesis.None? <==> forall e :: e in events ==> e.previous != Empty
    ensures genesis.Some? ==> genesis.value in events && genesis.value.previous == Empty
  {
    for i := 0 to |events|
      invariant forall j :: 0 <= j < i ==> events[j].previous != Empty
    {
      if events[i].previous == Empty {
        return Some(events[i]);
      }
    }
    return None;
  }

  /** `events.find(e => e.event_hash === h)`. */
  method FindByHash(events: seq<Event>, h: Hash) returns (found: Option<Event>)
    ensures found.Some? ==> found.value in events && found.value.hash == h
    ensures found.None? ==> forall e :: e in events ==> e.hash != h
  {
    for i := 0 to |events|
      invariant forall j :: 0 <= j < i ==> events[j].hash != h
    {
      if events[i].hash == h {
        return Some(events[i]);
      }
    }
    return None;
  }

  // ----- the traversal -----

  predicate ParentBefore(order: seq<Event>, k: nat)
    requires k < |order|
  {
    exists j :: 0 <= j < k && Edge(order[j], order[k])
  }

  /** Every event but the first chains to an earlier one. */
  ghost predicate ParentsFirst(order: seq<Event>) {
    forall k :: 0 < k < |order| ==> ParentBefore(order, k)
  }

  /** What the traversal has done so far: `order` was visited, `queue` is waiting. */
  ghost predicate Traversing(events: seq<Event>, g: Event, order: seq<Event>, queue: seq<Event>) {
    && g in events
    && (forall e :: e in order || e in queue ==> e in events)
    && UniqueIds(order)
    && (forall e :: e in order ==> Reachable(events, g, e))
    && (forall e :: e in queue ==> Reachable(events, g, e))
    && (order == [] ==> queue == [g])
    && (order != [] ==> order[0] == g && forall e :: e in queue ==> HasParentIn(order, e))
    && ParentsFirst(order)
    && (forall a, b :: a in order && b in events && Edge(a, b) ==> b in order || b in queue)
  }

  /** `order` lists all events, the genesis first, every other after an event it chains to. */
  ghost predicate IsTraversal(events: seq<Event>, order: seq<Event>) {
    && multiset(order) == multiset(events)
    && (order != [] ==> order[0].previous == Empty)
    && ParentsFirst(order)
  }

  lemma ReachStep(events: seq<Event>, g: Event, a: Event, b: Event)
    requires Reachable(events, g, a) && b in events && Edge(a, b)
    ensures Reachable(events, g, b)
  {
    var p :| Path(events, p) && p[0] == g && p[|p| - 1] == a;
    var q := p + [b];
    assert forall i :: 0 < i < |q| ==> Edge(q[i - 1], q[i]);
    assert Path(events, q) && q[0] == g && q[|q| - 1] == b;
  }

  /** When the queue is empty, exactly the reachable events were visited. */
  lemma VisitedExactly(events: seq<Event>, g: Event, order: seq<Event>)
    requires Traversing(events, g, order, [])
    ensures forall e :: e in order <==> Reachable(events, g, e)
  {
    forall e | Reachable(events, g, e)
      ensures e in order
    {
      var p :| Path(events, p) && p[0] == g && p[|p| - 1] == e;
      PathVisited(events, g, order, p, |p| - 1);
    }
  }

  lemma {:induction false} PathVisited(events: seq<Event>, g: Event, order: seq<Event>, p: seq<Event>, i: nat)
    requires Traversing(events, g, order, [])
    requires Path(events, p) && p[0] == g && i < |p|
    ensures p[i] in order
  {
    if i > 0 {
      PathVisited(events, g, order, p, i - 1);
      assert Edge(p[i - 1], p[i]) && p[i] in p;
    } else {
      assert order != [];
    }
  }

  lemma StartTraversal(events: seq<Event>, g: Event)
    requires g in events
    ensures Traversing(events, g, [], [g])
  {
    assert Path(events, [g]);
  }

  lemma SkipVisited(events: seq<Event>, g: Event, order: seq<Event>, queue: seq<Event>)
    requires Traversing(events, g, order, queue) && queue != [] && queue[0] in order
    ensures Traversing(events, g, order, queue[1..])
  {
    assert queue == [queue[0]] + queue[1..];
  }

  /** Visiting the head of the queue and enqueueing `added`: children, and all unvisited ones if it parses. */
  lemma Visit(events: seq<Event>, g: Event, order: seq<Event>, queue: seq<Event>, added: seq<Event>)
    requires Traversing(events, g, order, queue) && queue != []
    requires forall e :: e in order ==> e.id != queue[0].id
    requires forall e :: e in added ==> e in events && Edge(queue[0], e)
    requires forall e :: e in events && Edge(queue[0], e) ==> e in order || e == queue[0] || e in added
    ensures Traversing(events, g, order + [queue[0]], queue[1..] + added)
  {
    var ev := queue[0];
    var order', queue' := order + [ev], queue[1..] + added;
    assert queue == [ev] + queue[1..];
    forall e | e in added
      ensures Reachable(events, g, e)
    {
      ReachStep(events, g, ev, e);
    }
    forall k | 0 < k < |order'|
      ensures ParentBefore(order', k)
    {
      if k < |order| {
        assert ParentBefore(order, k);
        var j :| 0 <= j < k && Edge(order[j], order[k]);
        assert Edge(order'[j], order'[k]);
      } else {
        assert ev in queue && HasParentIn(order, ev);
        var a :| a in order && Edge(a, ev);
        var j :| 0 <= j < |order| && order[j] == a;
        assert Edge(order'[j], order'[k]);
      }
    }
    assert order == [] ==> queue[1..] == [];
    forall e | e in queue'
      ensures HasParentIn(order', e)
    {
      if e in added {
        assert ev in order' && Edge(ev, e);
      } else {
        assert e in queue;
        var a :| a in order && Edge(a, e);
        assert a in order';
      }
    }
  }

  /** While no error was recorded, the recomputed hashes are the stored ones. */
  ghost predicate CacheOk(events: seq<Event>, order: seq<Event>, hashCache: map<nat, Hash>, errors: seq<Error>) {
    && (errors == [] <==> AllSound(order))
    && (errors == [] ==> forall e :: e in events && e.id in hashCache ==> hashCache[e.id] == e.hash)
  }

  // ----- which errors name which events -----

  /** The errors of a traversal: every visited event that does not parse is named, and every digest that
      is reported is another one than the stored, over the same body. */
  ghost predicate Named(order: seq<Event>, errors: seq<Error>) {
    && (forall x :: x in errors ==> x.BadJson? || x.HashMismatch?)
    && (forall id :: BadJson(id) in errors <==> exists e :: e in order && e.id == id && e.json.None?)
    && (forall id, h :: HashMismatch(id, h) in errors ==>
          exists e :: e in order && e.id == id && e.json.Some? && h != e.hash && exists p :: h == H(p, e.json.value))
  }

  /** As long as all events before it are sound, an event is reported exactly if it is not, with the
      digest it should have. */
  ghost predicate FirstBreak(order: seq<Event>, errors: seq<Error>) {
    forall k, h :: 0 <= k < |order| && AllSound(order[..k]) ==>
      (HashMismatch(order[k].id, h) in errors <==>
         order[k].json.Some? && h == H(order[k].previous, order[k].json.value) != order[k].hash)
  }

  /** What is recorded about one event, its hash recomputed over `prev`. */
  ghost predicate Recorded(ev: Event, prev: Hash, errors: seq<Error>, errors': seq<Error>) {
    match ev.json
    case None => errors' == errors + [BadJson(ev.id)]
    case Some(body) => errors' == errors + if H(prev, body) != ev.hash then [HashMismatch(ev.id, H(prev, body))] else []
  }

  lemma NothingNamed()
    ensures Named([], []) && FirstBreak([], [])
  {
  }

  lemma NamedStep(order: seq<Event>, ev: Event, prev: Hash, errors: seq<Error>, errors': seq<Error>)
    requires Named(order, errors) && Recorded(ev, prev, errors, errors')
    ensures Named(order + [ev], errors')
  {
    var order' := order + [ev];
    assert ev in order';
    assert forall e :: e in order ==> e in order';
    forall id
      ensures BadJson(id) in errors' <==> exists e :: e in order' && e.id == id && e.json.None?
    {
      assert BadJson(id) in errors' <==> BadJson(id) in errors || (ev.json.None? && id == ev.id);
    }
    forall id, h | HashMismatch(id, h) in errors'
      ensures exists e :: e in order' && e.id == id && e.json.Some? && h != e.hash && exists p :: h == H(p, e.json.value)
    {
      if HashMismatch(id, h) !in errors {
        assert h == H(prev, ev.json.value);
      }
    }
  }

  lemma FirstBreakStep(order: seq<Event>, ev: Event, prev: Hash, errors: seq<Error>, errors': seq<Error>)
    requires FirstBreak(order, errors) && Named(order, errors) && Recorded(ev, prev, errors, errors')
    requires forall e :: e in order ==> e.id != ev.id
    requires AllSound(order) ==> prev == ev.previous
    ensures FirstBreak(order + [ev], errors')
  {
    var order' := order + [ev];
    forall k, h | 0 <= k < |order'| && AllSound(order'[..k])
      ensures HashMismatch(order'[k].id, h) in errors' <==>
              order'[k].json.Some? && h == H(order'[k].previous, order'[k].json.value) != order'[k].hash
    {
      assert order'[..k] == order[..k];
      if k < |order| {
        assert order'[k] in order;
        assert HashMismatch(order[k].id, h) in errors' <==> HashMismatch(order[k].id, h) in errors;
      } else {
        assert order[..k] == order;
        assert HashMismatch(ev.id, h) !in errors;
      }
    }
  }

  ghost function Ids(events: seq<Event>): set<nat> { set e | e in events :: e.id }

  lemma SoundSnoc(order: seq<Event>, ev: Event)
    ensures AllSound(order + [ev]) <==> AllSound(order) && Sound(ev)
  {
    assert ev in order + [ev];
    assert forall e :: e in order ==> e in order + [ev];
  }

  lemma SameId(events: seq<Event>, a: Event, b: Event)
    requires UniqueIds(events) && a in events && b in events && a.id == b.id
    ensures a == b
  {
  }

  /** The children of an event that still have to be visited. */
  method Unvisited(siblings: seq<Event>, visited: set<nat>) returns (added: seq<Event>)
    ensures forall e :: e in added <==> e in siblings && e.id !in visited
  {
    added := [];
    for i := 0 to |siblings|
      invariant forall e :: e in added <==> e in siblings[..i] && e.id !in visited
    {
      assert siblings[..i + 1] == siblings[..i] + [siblings[i]];
      if siblings[i].id !in visited {
        added := added + [siblings[i]];
      }
    }
    assert siblings[..|siblings|] == siblings;
  }

  /** The hash an event is recomputed over: the cached one of the event it chains to, or the stored one. */
  method PreviousHash(events: seq<Event>, ev: Event, hashCache: map<nat, Hash>) returns (h: Hash)
    ensures (forall e :: e in events && e.id in hashCache ==> hashCache[e.id] == e.hash) ==> h == ev.previous
  {
    if ev.previous == Empty {
      return Empty;
    }
    var parent := FindByHash(events, ev.previous);
    if parent.Some? && parent.value.id in hashCache {
      return hashCache[parent.value.id];
    }
    return ev.previous;
  }

  /** One event of the traversal: recompute its hash, remember it, and record what is wrong with it. */
  method Check(events: seq<Event>, ghost order: seq<Event>, ev: Event, hashCache: map<nat, Hash>, errors: seq<Error>)
    returns (hashCache': map<nat, Hash>, errors': seq<Error>)
    requires UniqueIds(events) && ev in events && forall e :: e in order ==> e.id != ev.id
    requires CacheOk(events, order, hashCache, errors) && Named(order, errors) && FirstBreak(order, errors)
    ensures CacheOk(events, order + [ev], hashCache', errors')
    ensures Named(order + [ev], errors') && FirstBreak(order + [ev], errors')
  {
    hide Named, FirstBreak;
    SoundSnoc(order, ev);
    hashCache', errors' := hashCache, errors;
    var prevHash := PreviousHash(events, ev, hashCache);
    if ev.json.None? {
      errors' := errors + [BadJson(ev.id)];
    } else {
      var recomputed := H(prevHash, ev.json.value);
      hashCache' := hashCache[ev.id := recomputed];
      if recomputed != ev.hash {
        errors' := errors + [HashMismatch(ev.id, recomputed)];
      }
      forall e | e in events && e.id == ev.id
        ensures e == ev
      {
        SameId(events, e, ev);
      }
    }
    NamedStep(order, ev, prevHash, errors, errors');
    FirstBreakStep(order, ev, prevHash, errors, errors');
  }

  /** The children to enqueue for an event: none if it does not parse. */
  method Successors(events: seq<Event>, children: map<Hash, seq<Event>>, ev: Event, visited: set<nat>) returns (added: seq<Event>)
    requires Indexes(events, children)
    ensures forall e :: e in added <==> e in events && Edge(ev, e) && e.id !in visited
  {
    ChildrenIn(events, ev.hash);
    added := [];
    if ev.json.Some? && ev.hash in children {
      added := Unvisited(children[ev.hash], visited);
    }
  }

  lemma HeadKnown(events: seq<Event>, g: Event, order: seq<Event>, queue: seq<Event>)
    requires Traversing(events, g, order, queue) && queue != []
    ensures queue[0] in events && forall e :: e in order ==> e in events
  {
    assert queue[0] in queue;
  }

  lemma VisitNew(events: seq<Event>, g: Event, order: seq<Event>, queue: seq<Event>, added: seq<Event>)
    requires UniqueIds(events)
    requires Traversing(events, g, order, queue) && queue != [] && queue[0].id !in Ids(order)
    requires forall e :: e in added <==> e in events && Edge(queue[0], e) && e.id !in Ids(order) + {queue[0].id}
    ensures Traversing(events, g, order + [queue[0]], queue[1..] + added)
    ensures Ids(order + [queue[0]]) == Ids(order) + {queue[0].id}
  {
    var ev := queue[0];
    HeadKnown(events, g, order, queue);
    forall e | e in events && Edge(ev, e)
      ensures e in order || e == ev || e in added
    {
      if e.id in Ids(order) {
        var o :| o in order && o.id == e.id;
        SameId(events, o, e);
      } else if e.id == ev.id {
        SameId(events, e, ev);
      }
    }
    Visit(events, g, order, queue, added);
  }

  lemma SkipKnown(events: seq<Event>, g: Event, order: seq<Event>, queue: seq<Event>)
    requires UniqueIds(events)
    requires Traversing(events, g, order, queue) && queue != [] && queue[0].id in Ids(order)
    ensures Traversing(events, g, order, queue[1..])
  {
    HeadKnown(events, g, order, queue);
    var o :| o in order && o.id == queue[0].id;
    SameId(events, o, queue[0]);
    SkipVisited(events, g, order, queue);
  }

  /** The worklist loop: it visits exactly the events reachable through parsing ones, and records
      no error exactly when all of them are sound. */
  method Traverse(events: seq<Event>, g: Event, children: map<Hash, seq<Event>>)
    returns (order: seq<Event>, visited: set<nat>, errors: seq<Error>)
    requires UniqueIds(events) && g in events
    requires Indexes(events, children)
    ensures Traversing(events, g, order, [])
    ensures visited == Ids(order)
    ensures errors == [] <==> AllSound(order)
    ensures Named(order, errors) && FirstBreak(order, errors)
  {
    hide Traversing;
    NothingNamed();
    order, errors, visited := [], [], {};
    var queue := [g];
    var hashCache: map<nat, Hash> := map[];
    StartTraversal(events, g);
    while queue != []
      invariant Traversing(events, g, order, queue)
      invariant CacheOk(events, order, hashCache, errors)
      invariant Named(order, errors) && FirstBreak(order, errors)
      invariant visited == Ids(order)
      decreases Ids(events) - visited, |queue|
    {
      var ev := queue[0];
      HeadKnown(events, g, order, queue);
      if ev.id in visited {
        SkipKnown(events, g, order, queue);
        queue := queue[1..];
      } else {
        hashCache, errors := Check(events, order, ev, hashCache, errors);
        var added := Successors(events, children, ev, visited + {ev.id});
        VisitNew(events, g, order, queue, added);
        order, queue, visited := order + [ev], queue[1..] + added, visited + {ev.id};
      }
    }
  }

  // ----- the DAG check -----

  /** The parents with more than one child. */
  ghost function Forks(events: seq<Event>): set<Hash> {
    set e | e in events && |ChildrenOf(events, e.previous)| > 1 :: e.previous
  }

  /** If every digest is right, the deepest event is a leaf. */
  lemma LeafExists(events: seq<Event>) returns (e: Event)
    requires events != [] && AllSound(events)
    ensures e in events && Leaf(events, e)
  {
    e := events[0];
    for i := 0 to |events|
      invariant e in events
      invariant forall j :: 0 <= j < i ==> Depth(events[j].hash) <= Depth(e.hash)
    {
      if Depth(events[i].hash) > Depth(e.hash) {
        e := events[i];
      }
    }
    forall x | x in events
      ensures x.previous != e.hash
    {
      assert Sound(x);
    }
  }

  /** An event without parent among sound ones is reached only as the genesis itself. */
  lemma OnlyGenesis(events: seq<Event>, g: Event, e: Event)
    requires AllSound(events) && Reachable(events, g, e) && e.previous == Empty
    ensures e == g
  {
    var p: seq<Event> :| Path(events, p) && p[0] == g && p[|p| - 1] == e;
    forall x | x in events
      ensures x.hash != Empty
    {
      assert Sound(x);
    }
    forall k | 0 < k < |p|
      ensures p[k].previous != Empty
    {
      assert Edge(p[k - 1], p[k]) && p[k - 1] in p;
    }
  }

  /** What the traversal found decides validity, the head test aside. */
  lemma TraversalDecides(events: seq<Event>, g: Event, order: seq<Event>)
    requires Traversing(events, g, order, []) && g.previous == Empty
    ensures (forall e :: e in events ==> e in order) && AllSound(order) <==>
            AllSound(events) && exists x :: OneGenesis(events, x) && forall e :: e in events ==> Reachable(events, x, e)
  {
    VisitedExactly(events, g, order);
    if (forall e :: e in events ==> e in order) && AllSound(order) {
      forall e | e in events && e.previous == Empty
        ensures e == g
      {
        OnlyGenesis(events, g, e);
      }
      assert OneGenesis(events, g);
    }
    if AllSound(events) && exists x :: OneGenesis(events, x) && forall e :: e in events ==> Reachable(events, x, e) {
      var x :| OneGenesis(events, x) && forall e :: e in events ==> Reachable(events, x, e);
      assert x == g;
    }
  }

  /** A full traversal lists the events without repetition. */
  lemma {:induction false} SameEvents(events: seq<Event>, order: seq<Event>)
    requires UniqueIds(events) && UniqueIds(order)
    requires forall e :: e in events <==> e in order
    ensures multiset(order) == multiset(events)
  {
    forall e
      ensures multiset(order)[e] == multiset(events)[e]
    {
      UniqueCount(order, e);
      UniqueCount(events, e);
    }
  }

  lemma {:induction false} UniqueCount(events: seq<Event>, e: Event)
    requires UniqueIds(events)
    ensures multiset(events)[e] == if e in events then 1 else 0
    decreases |events|
  {
    if events != [] {
      var init, last := events[..|events| - 1], events[|events| - 1];
      assert events == init + [last];
      UniqueCount(init, e);
      assert last !in init;
    }
  }

  /** Events the traversal missed. */
  method Orphans(events: seq<Event>, visited: set<nat>) returns (errors: seq<Error>)
    ensures errors == [] <==> forall e :: e in events ==> e.id in visited
    ensures forall x :: x in errors <==> exists e :: e in events && e.id !in visited && x == Orphan(e.id)
  {
    errors := [];
    for i := 0 to |events|
      invariant errors == [] <==> forall j :: 0 <= j < i ==> events[j].id in visited
      invariant forall x :: x in errors <==> exists j :: 0 <= j < i && events[j].id !in visited && x == Orphan(events[j].id)
    {
      if events[i].id !in visited {
        errors := errors + [Orphan(events[i].id)];
      }
    }
    assert forall j :: 0 <= j < |events| ==> events[j] in events;
    forall x
      ensures x in errors <==> exists e :: e in events && e.id !in visited && x == Orphan(e.id)
    {
      if e :| e in events && e.id !in visited && x == Orphan(e.id) {
        var j :| 0 <= j < |events| && events[j] == e;
      }
    }
  }

  /** The leaves, in event order. */
  method Heads(events: seq<Event>, children: map<Hash, seq<Event>>) returns (heads: seq<Event>)
    requires Indexes(events, children)
    ensures forall e :: e in heads <==> e in events && Leaf(events, e)
  {
    heads := [];
    for i := 0 to |events|
      invariant forall e :: e in heads <==> e in events[..i] && Leaf(events, e)
    {
      assert events[..i + 1] == events[..i] + [events[i]];
      ChildrenIn(events, events[i].hash);
      assert Leaf(events, events[i]) <==> ChildrenOf(events, events[i].hash) == [] by {
        if ChildrenOf(events, events[i].hash) != [] {
          assert ChildrenOf(events, events[i].hash)[0] in ChildrenOf(events, events[i].hash);
        }
      }
      if events[i].hash !in children {
        heads := heads + [events[i]];
      }
    }
    assert events[..|events|] == events;
  }

  /** The head test: with several leaves the recorded head must be one of them, with one leaf it
      must be that one, and without leaves nothing is tested. */
  method CheckHead(heads: seq<Event>, head: Option<Hash>) returns (errors: seq<Error>)
    ensures errors == [] <==> (heads != [] && head.Some? ==> exists e :: e in heads && e.hash == head.value)
    ensures errors != [] ==> errors == [HeadMismatch]
  {
    errors := [];
    if |heads| > 1 {
      if head.Some? && !(exists e :: e in heads && e.hash == head.value) {
        errors := [HeadMismatch];
      }
    } else if |heads| == 1 && head.Some? && heads[0].hash != head.value {
      errors := [HeadMismatch];
    }
    assert |heads| == 1 ==> forall e :: e in heads ==> e == heads[0];
    assert |heads| == 1 ==> heads[0] in heads;
  }

  /** What the DAG check reports once it has visited `order`. */
  ghost predicate DagErrors(events: seq<Event>, head: Option<Hash>, order: seq<Event>, errors: seq<Error>) {
    && (forall x :: x in errors ==> x.BadJson? || x.HashMismatch? || x.Orphan? || x.HeadMismatch?)
    && (forall id :: BadJson(id) in errors <==> exists e :: e in order && e.id == id && e.json.None?)
    && FirstBreak(order, errors)
    && (forall id, h :: HashMismatch(id, h) in errors ==>
          exists e :: e in order && e.id == id && e.json.Some? && h != e.hash && exists p :: h == H(p, e.json.value))
    && (forall id :: Orphan(id) in errors <==> exists e :: e in events && e !in order && e.id == id)
    && (HeadMismatch in errors <==>
          && head.Some? && (exists e :: e in events && Leaf(events, e))
          && !(exists e :: e in events && Leaf(events, e) && e.hash == head.value))
  }

  lemma OrphansAre(events: seq<Event>, order: seq<Event>, orphans: seq<Error>)
    requires UniqueIds(events) && (forall e :: e in order ==> e in events)
    requires forall x :: x in orphans <==> exists e :: e in events && e.id !in Ids(order) && x == Orphan(e.id)
    ensures forall x :: x in orphans ==> x.Orphan?
    ensures forall id :: Orphan(id) in orphans <==> exists e :: e in events && e !in order && e.id == id
  {
    forall e | e in events
      ensures e.id !in Ids(order) <==> e !in order
    {
      if e.id in Ids(order) {
        var o :| o in order && o.id == e.id;
        SameId(events, o, e);
      }
    }
  }

  lemma HeadErrorsAre(events: seq<Event>, head: Option<Hash>, heads: seq<Event>, headErrors: seq<Error>)
    requires forall e :: e in heads <==> e in events && Leaf(events, e)
    requires headErrors == [] <==> (heads != [] && head.Some? ==> exists e :: e in heads && e.hash == head.value)
    requires headErrors != [] ==> headErrors == [HeadMismatch]
    ensures forall x :: x in headErrors ==> x == HeadMismatch
    ensures HeadMismatch in headErrors <==>
              && head.Some? && (exists e :: e in events && Leaf(events, e))
              && !(exists e :: e in events && Leaf(events, e) && e.hash == head.value)
  {
    hide Leaf;
    assert heads != [] ==> heads[0] in heads;
  }

  lemma DagErrorsAre(events: seq<Event>, head: Option<Hash>, order: seq<Event>, heads: seq<Event>,
                     named: seq<Error>, orphans: seq<Error>, headErrors: seq<Error>)
    requires UniqueIds(events) && (forall e :: e in order ==> e in events)
    requires Named(order, named) && FirstBreak(order, named)
    requires forall x :: x in orphans <==> exists e :: e in events && e.id !in Ids(order) && x == Orphan(e.id)
    requires forall e :: e in heads <==> e in events && Leaf(events, e)
    requires headErrors == [] <==> (heads != [] && head.Some? ==> exists e :: e in heads && e.hash == head.value)
    requires headErrors != [] ==> headErrors == [HeadMismatch]
    ensures DagErrors(events, head, order, named + orphans + headErrors)
  {
    OrphansAre(events, order, orphans);
    HeadErrorsAre(events, head, heads, headErrors);
    hide *;
    Assembled(events, head, order, named, orphans, headErrors);
  }

  lemma Assembled(events: seq<Event>, head: Option<Hash>, order: seq<Event>,
                  named: seq<Error>, orphans: seq<Error>, headErrors: seq<Error>)
    requires Named(order, named) && FirstBreak(order, named)
    requires forall x :: x in orphans ==> x.Orphan?
    requires forall id :: Orphan(id) in orphans <==> exists e :: e in events && e !in order && e.id == id
    requires forall x :: x in headErrors ==> x == HeadMismatch
    requires HeadMismatch in headErrors <==>
               && head.Some? && (exists e :: e in events && Leaf(events, e))
               && !(exists e :: e in events && Leaf(events, e) && e.hash == head.value)
    ensures DagErrors(events, head, order, named + orphans + headErrors)
  {
    hide Leaf, FirstBreak;
    var errors := named + orphans + headErrors;
    forall x
      ensures x in errors <==> x in named || x in orphans || x in headErrors
    {
    }
    MoreErrors(order, named, errors);
  }

  lemma MoreErrors(order: seq<Event>, named: seq<Error>, errors: seq<Error>)
    requires FirstBreak(order, named) && forall x: Error :: x.HashMismatch? ==> (x in errors <==> x in named)
    ensures FirstBreak(order, errors)
  {
    hide AllSound;
    forall k, h | 0 <= k < |order| && AllSound(order[..k])
      ensures HashMismatch(order[k].id, h) in errors <==>
              order[k].json.Some? && h == H(order[k].previous, order[k].json.value) != order[k].hash
    {
      assert HashMismatch(order[k].id, h) in errors <==> HashMismatch(order[k].id, h) in named;
    }
  }

  lemma StartsAtGenesis(events: seq<Event>, g: Event, order: seq<Event>)
    requires Traversing(events, g, order, [])
    ensures order != [] && order[0] == g && forall e :: e in order ==> e in events
  {
  }

  /** The DAG check from the genesis event on: traversal, orphans, heads. */
  method VerifyFrom(events: seq<Event>, g: Event, children: map<Hash, seq<Event>>, head: Option<Hash>)
    returns (errors: seq<Error>, order: seq<Event>)
    requires UniqueIds(events) && g in events && g.previous == Empty && Indexes(events, children)
    ensures errors == [] <==> DagValid(events, head)
    ensures errors == [] ==> IsTraversal(events, order)
    ensures order != [] && order[0] == g && forall e :: e in order <==> Reachable(events, g, e)
    ensures DagErrors(events, head, order, errors)
  {
    hide Indexes;
    hide Traversing;
    hide AllSound;
    hide HeadIsLeaf;
    hide Leaf;
    var visited;
    order, visited, errors := Traverse(events, g, children);
    var orphans := Orphans(events, visited);
    var heads := Heads(events, children);
    var headErrors := CheckHead(heads, head);
    AllVisited(events, g, order);
    TraversalDecides(events, g, order);
    HeadTest(events, heads, head);
    VisitedExactly(events, g, order);
    StartsAtGenesis(events, g, order);
    DagErrorsAre(events, head, order, heads, errors, orphans, headErrors);
    hide Reachable;
    hide OneGenesis;
    hide DagErrors, Named, FirstBreak;
    assert events != [];
    errors := errors + orphans + headErrors;
    if errors == [] {
      TraversalComplete(events, g, order);
    }
  }

  /** The DAG check is sound and complete: it accepts exactly the valid DAGs, reports exactly the
      forked parents with their children in event order, and visits a valid DAG from the genesis on,
      parents first. */
  method VerifyChainDag(events: seq<Event>, head: Option<Hash>)
    returns (valid: bool, forks: map<Hash, seq<Event>>, errors: seq<Error>, order: seq<Event>)
    requires UniqueIds(events)
    ensures valid <==> errors == []
    ensures valid <==> DagValid(events, head)
    ensures forks.Keys == Forks(events) && forall h :: h in forks ==> forks[h] == ChildrenOf(events, h)
    ensures valid ==> IsTraversal(events, order)
    ensures events == [] ==> errors == [NotFound]
    ensures events != [] && (forall e :: e in events ==> e.previous != Empty) ==> errors == [NoGenesis]
    ensures (exists e :: e in events && e.previous == Empty) ==>
              && order != [] && order[0] in events && order[0].previous == Empty
              && (forall e :: e in order <==> Reachable(events, order[0], e))
              && DagErrors(events, head, order, errors)
  {
    hide DagErrors;
    order := [];
    if events == [] {
      return false, map[], [NotFound], [];
    }
    var children := BuildChildren(events);
    forks := map h | h in children && |children[h]| > 1 :: children[h];
    ForksAre(events, children);
    assert forks.Keys == set h | h in children && |children[h]| > 1;
    var genesis := FindGenesis(events);
    if genesis.None? {
      return false, forks, [NoGenesis], [];
    }
    errors, order := VerifyFrom(events, genesis.value, children, head);
    valid := errors == [];
  }

  lemma ForksAre(events: seq<Event>, children: map<Hash, seq<Event>>)
    requires Indexes(events, children)
    ensures (set h | h in children && |children[h]| > 1) == Forks(events)
  {
    forall h | h in children && |children[h]| > 1
      ensures h in Forks(events)
    {
      ChildrenIn(events, h);
      assert children[h][0] in children[h];
    }
  }

  lemma AllVisited(events: seq<Event>, g: Event, order: seq<Event>)
    requires UniqueIds(events) && Traversing(events, g, order, [])
    ensures (forall e :: e in events ==> e.id in Ids(order)) <==> (forall e :: e in events ==> e in order)
  {
    if forall e :: e in events ==> e.id in Ids(order) {
      forall e | e in events
        ensures e in order
      {
        var o :| o in order && o.id == e.id;
        SameId(events, o, e);
      }
    }
  }

  lemma HeadTest(events: seq<Event>, heads: seq<Event>, head: Option<Hash>)
    requires forall e :: e in heads <==> e in events && Leaf(events, e)
    ensures events != [] && AllSound(events) ==>
              (HeadIsLeaf(events, head) <==> (heads != [] && head.Some? ==> exists e :: e in heads && e.hash == head.value))
  {
    if events != [] && AllSound(events) {
      var leaf := LeafExists(events);
      assert leaf in heads;
    }
  }

  lemma TraversalComplete(events: seq<Event>, g: Event, order: seq<Event>)
    requires UniqueIds(events) && Traversing(events, g, order, []) && g.previous == Empty
    requires forall e :: e in events ==> e in order
    ensures IsTraversal(events, order)
  {
    SameEvents(events, order);
  }

  // ----- reachability for free -----

  /** Once every digest is right there are no cycles, so "reachable from the genesis" needs no
      traversal: it is enough that every other event chains to some event of the log. */
  lemma DagValidLocally(events: seq<Event>, head: Option<Hash>)
    ensures DagValid(events, head) <==>
            && HeadIsLeaf(events, head)
            && AllSound(events)
            && exists g :: OneGenesis(events, g) && forall e :: e in events && e != g ==> HasParentIn(events, e)
  {
    if AllSound(events) {
      forall g | OneGenesis(events, g)
        ensures (forall e :: e in events ==> Reachable(events, g, e)) <==>
                (forall e :: e in events && e != g ==> HasParentIn(events, e))
      {
        forall e | e in events && e != g && Reachable(events, g, e)
          ensures HasParentIn(events, e)
        {
          var p :| Path(events, p) && p[0] == g && p[|p| - 1] == e;
          assert Edge(p[|p| - 2], p[|p| - 1]) && p[|p| - 2] in p;
        }
        if forall e :: e in events && e != g ==> HasParentIn(events, e) {
          forall e | e in events
            ensures Reachable(events, g, e)
          {
            ReachUp(events, g, e);
          }
        }
      }
    }
  }

  lemma {:induction false} ReachUp(events: seq<Event>, g: Event, e: Event)
    requires AllSound(events) && OneGenesis(events, g) && e in events
    requires forall x :: x in events && x != g ==> HasParentIn(events, x)
    ensures Reachable(events, g, e)
    decreases Depth(e.hash)
  {
    if e == g {
      assert Path(events, [g]);
    } else {
      var a :| a in events && Edge(a, e);
      assert Sound(e);
      ReachUp(events, g, a);
      ReachStep(events, g, a, e);
    }
  }

  // ----- the linear check, and the two compared -----

  predicate LinksAt(events: seq<Event>, i: nat)
    requires i < |events|
  {
    events[i].previous == (if i == 0 then Empty else events[i - 1].hash) && Sound(events[i])
  }

  ghost predicate LinearValid(events: seq<Event>, head: Option<Hash>) {
    && events != []
    && (forall i :: 0 <= i < |events| ==> LinksAt(events, i))
    && NoForks(events)
    && (head.Some? ==> head.value == events[|events| - 1].hash)
  }

  lemma SomeChild(events: seq<Event>, h: Hash)
    ensures ChildrenOf(events, h) != [] <==> exists i :: 0 <= i < |events| && events[i].previous == h
  {
    ChildrenIn(events, h);
    hide ChildrenOf;
    if ChildrenOf(events, h) != [] {
      assert ChildrenOf(events, h)[0] in ChildrenOf(events, h);
    }
    forall i | 0 <= i < |events| && events[i].previous == h
      ensures events[i] in ChildrenOf(events, h)
    {
      assert events[i] in events;
    }
  }

  ghost predicate TwoChildren(events: seq<Event>, h: Hash) {
    exists i, j :: 0 <= i < j < |events| && events[i].previous == h && events[j].previous == h
  }

  lemma {:induction false} ManyChildren(events: seq<Event>, h: Hash)
    ensures |ChildrenOf(events, h)| > 1 <==> TwoChildren(events, h)
    decreases |events|
  {
    if events != [] {
      var init, last := events[..|events| - 1], events[|events| - 1];
      ManyChildren(init, h);
      SomeChild(init, h);
      assert |ChildrenOf(events, h)| == |ChildrenOf(init, h)| + if last.previous == h then 1 else 0;
      hide ChildrenOf;
      TwoChildrenGrow(events, h);
      assert ChildrenOf(init, h) != [] <==> |ChildrenOf(init, h)| > 0;
    }
  }

  lemma TwoChildrenGrow(events: seq<Event>, h: Hash)
    requires events != []
    ensures
      var init, last := events[..|events| - 1], events[|events| - 1];
      TwoChildren(events, h) <==>
      TwoChildren(init, h) || (last.previous == h && exists i :: 0 <= i < |init| && init[i].previous == h)
  {
    var init, last := events[..|events| - 1], events[|events| - 1];
    assert forall i :: 0 <= i < |init| ==> init[i] == events[i];
    if i :| last.previous == h && 0 <= i < |init| && init[i].previous == h {
      assert events[i].previous == h && events[|events| - 1].previous == h;
    }
  }

  /** The grouping query: one error for each hash with several children, with their number. */
  method FindForks(events: seq<Event>) returns (errors: seq<Error>)
    ensures forall x :: x in errors <==> x.Fork? && x.children == |ChildrenOf(events, x.previous)| > 1
    ensures forall i, j :: 0 <= i < j < |errors| ==> errors[i] != errors[j]
    ensures errors == [] <==> NoForks(events)
  {
    errors := [];
    for i := 0 to |events|
      invariant forall x :: x in errors <==>
                  && x.Fork? && x.children == |ChildrenOf(events, x.previous)| > 1
                  && exists j :: 0 <= j < i && events[j].previous == x.previous
      invariant forall k, m :: 0 <= k < m < |errors| ==> errors[k] != errors[m]
    {
      var fork := Fork(events[i].previous, |ChildrenOf(events, events[i].previous)|);
      if fork.children > 1 && fork !in errors {
        errors := errors + [fork];
      }
    }
    forall x: Error | x.Fork? && x.children == |ChildrenOf(events, x.previous)| > 1
      ensures exists j :: 0 <= j < |events| && events[j].previous == x.previous
    {
      ManyChildren(events, x.previous);
    }
    ForksReported(events, errors);
  }

  lemma ForksReported(events: seq<Event>, errors: seq<Error>)
    requires forall x :: x in errors <==> x.Fork? && x.children == |ChildrenOf(events, x.previous)| > 1
    ensures errors == [] <==> NoForks(events)
  {
    if !NoForks(events) {
      var i, j :| 0 <= i < j < |events| && events[i].previous == events[j].previous;
      ManyChildren(events, events[i].previous);
      assert Fork(events[i].previous, |ChildrenOf(events, events[i].previous)|) in errors;
    }
    if errors != [] {
      assert errors[0] in errors;
      ManyChildren(events, errors[0].previous);
    }
  }

  /** The hash the linear check expects the i-th event to chain to: that of the last event before it
      that parses. */
  function Expected(events: seq<Event>, i: nat): Hash
    requires i <= |events|
  {
    if i == 0 then Empty else if events[i - 1].json.None? then Expected(events, i - 1) else events[i - 1].hash
  }

  /** What the linear check reports about the i-th event. */
  predicate ReportedAt(events: seq<Event>, i: nat, x: Error)
    requires i < |events|
  {
    || (x == WrongPrevious(events[i].id) && events[i].previous != Expected(events, i))
    || (x == BadJson(events[i].id) && events[i].json.None?)
    || (events[i].json.Some?
        && x == HashMismatch(events[i].id, H(Expected(events, i), events[i].json.value)) && x.expected != events[i].hash)
  }

  /** What the linear check reports about a log. */
  ghost predicate Reported(events: seq<Event>, head: Option<Hash>, x: Error) {
    if events == [] then x == NotFound
    else
      || (exists i :: 0 <= i < |events| && ReportedAt(events, i, x))
      || (x.Fork? && x.children == |ChildrenOf(events, x.previous)| > 1)
      || (x == HeadMismatch && head.Some? && head.value != Expected(events, |events|))
  }

  /** The linear check, as the worker runs it: an event that does not parse is reported and leaves
      the expected previous hash as it was. */
  method VerifyChain(events: seq<Event>, head: Option<Hash>) returns (valid: bool, errors: seq<Error>)
    ensures valid <==> errors == []
    ensures valid <==> LinearValid(events, head)
    ensures forall x :: x in errors <==> Reported(events, head, x)
  {
    if events == [] {
      return false, [NotFound];
    }
    errors := [];
    var expectedPrev := Empty;
    var i := 0;
    while i < |events|
      invariant 0 <= i <= |events|
      invariant errors == [] <==> forall j :: 0 <= j < i ==> LinksAt(events, j)
      invariant errors == [] ==> expectedPrev == if i == 0 then Empty else events[i - 1].hash
      invariant expectedPrev == Expected(events, i)
      invariant forall x :: x in errors <==> exists j :: 0 <= j < i && ReportedAt(events, j, x)
    {
      var ev := events[i];
      ghost var before := errors;
      if ev.previous != expectedPrev {
        errors := errors + [WrongPrevious(ev.id)];
      }
      if ev.json.None? {
        errors := errors + [BadJson(ev.id)];
        assert !LinksAt(events, i);
      } else {
        var recomputed := H(expectedPrev, ev.json.value);
        if recomputed != ev.hash {
          errors := errors + [HashMismatch(ev.id, recomputed)];
        }
        expectedPrev := ev.hash;
        assert before == [] ==> (LinksAt(events, i) <==> errors == []);
      }
      assert forall x :: x in errors <==> x in before || ReportedAt(events, i, x);
      i := i + 1;
    }
    var forks := FindForks(events);
    var headErrors := [];
    if head.Some? && head.value != expectedPrev {
      headErrors := [HeadMismatch];
    }
    errors := errors + forks + headErrors;
    valid := errors == [];
  }

  lemma {:induction false} LinearDepth(events: seq<Event>, head: Option<Hash>, i: nat)
    requires LinearValid(events, head) && i < |events|
    ensures Depth(events[i].hash) == i + 1 && Depth(events[i].previous) == i
  {
    assert LinksAt(events, i);
    if i > 0 {
      LinearDepth(events, head, i - 1);
    }
  }

  lemma LinearIsSound(events: seq<Event>, head: Option<Hash>)
    requires LinearValid(events, head)
    ensures AllSound(events) && OneGenesis(events, events[0])
    ensures forall e :: e in events && e != events[0] ==> HasParentIn(events, e)
  {
    forall e | e in events
      ensures Sound(e) && (e.previous == Empty <==> e == events[0]) && (e != events[0] ==> HasParentIn(events, e))
    {
      var i :| 0 <= i < |events| && events[i] == e;
      assert LinksAt(events, i) && LinksAt(events, 0);
      if i > 0 {
        assert LinksAt(events, i - 1);
        assert Edge(events[i - 1], e) && events[i - 1] in events;
      }
    }
  }

  lemma LinearLeaf(events: seq<Event>, head: Option<Hash>)
    requires LinearValid(events, head)
    ensures Leaf(events, events[|events| - 1])
  {
    var last := events[|events| - 1];
    LinearDepth(events, head, |events| - 1);
    forall i | 0 <= i < |events|
      ensures events[i].previous != last.hash
    {
      LinearDepth(events, head, i);
    }
  }

  /** A log that passes the linear check passes the DAG check, without forks. */
  lemma LinearImpliesDag(events: seq<Event>, head: Option<Hash>)
    requires LinearValid(events, head)
    ensures DagValid(events, head) && NoForks(events)
  {
    LinearIsSound(events, head);
    LinearLeaf(events, head);
    hide AllSound, OneGenesis, HasParentIn, Leaf, LinksAt;
    DagValidLocally(events, head);
  }

  /** Parents first and no forks leave only one possible order. */
  lemma {:induction false} ForklessOrderLinks(order: seq<Event>, k: nat)
    requires AllSound(order) && NoForks(order) && order != [] && order[0].previous == Empty
    requires ParentsFirst(order) && k < |order|
    ensures LinksAt(order, k)
    decreases k
  {
    assert Sound(order[k]);
    if k > 0 {
      assert ParentBefore(order, k);
      var j :| 0 <= j < k && Edge(order[j], order[k]);
      if j + 1 < k {
        ForklessOrderLinks(order, j + 1);
      }
    }
  }

  lemma LeafIsLast(order: seq<Event>, e: Event)
    requires forall i :: 0 <= i < |order| ==> LinksAt(order, i)
    requires e in order && Leaf(order, e)
    ensures e == order[|order| - 1]
  {
    forall i | 0 <= i < |order| - 1
      ensures order[i] != e
    {
      assert LinksAt(order, i + 1) && order[i + 1] in order;
    }
  }

  lemma SameElements(events: seq<Event>, order: seq<Event>)
    requires multiset(order) == multiset(events)
    ensures |order| == |events| && forall e :: e in order <==> e in events
  {
    assert |multiset(order)| == |order| && |multiset(events)| == |events|;
    assert forall e :: e in order <==> e in multiset(order);
    assert forall e :: e in events <==> e in multiset(events);
  }

  /** A log that passes the DAG check without forks passes the linear check in traversal order. */
  lemma DagImpliesLinear(events: seq<Event>, head: Option<Hash>, order: seq<Event>)
    requires DagValid(events, head) && NoForks(events) && IsTraversal(events, order)
    ensures LinearValid(order, head)
  {
    SameElements(events, order);
    ForklessPermutation(events, order);
    var g :| OneGenesis(events, g);
    forall i | 0 <= i < |order|
      ensures LinksAt(order, i)
    {
      ForklessOrderLinks(order, i);
    }
    if head.Some? {
      var e :| e in events && Leaf(events, e) && e.hash == head.value;
      LeafIsLast(order, e);
    }
  }

  /** On any stored order: the linear check accepts iff the DAG check does, nothing forks, and the
      stored order already puts the genesis first and parents before children. */
  lemma VerifiersAgree(events: seq<Event>, head: Option<Hash>)
    ensures LinearValid(events, head) <==>
            DagValid(events, head) && NoForks(events) && IsTraversal(events, events)
  {
    if LinearValid(events, head) {
      LinearImpliesDag(events, head);
      forall k | 0 < k < |events|
        ensures ParentBefore(events, k)
      {
        assert LinksAt(events, k) && LinksAt(events, k - 1);
        assert Edge(events[k - 1], events[k]);
      }
      assert LinksAt(events, 0);
    }
    if DagValid(events, head) && NoForks(events) && IsTraversal(events, events) {
      DagImpliesLinear(events, head, events);
    }
  }

  lemma ForklessPermutation(events: seq<Event>, order: seq<Event>)
    requires NoForks(events) && multiset(order) == multiset(events)
    ensures NoForks(order)
  {
    forall i, j | 0 <= i < j < |order|
      ensures order[i].previous != order[j].previous
    {
      assert order[i] in multiset(events) && order[j] in multiset(events);
      if order[i] == order[j] {
        assert multiset(order)[order[i]] >= 2 by {
          assert order == order[..i] + [order[i]] + order[i + 1..j] + [order[j]] + order[j + 1..];
        }
        NoTwins(events, order[i]);
      }
    }
  }

  lemma {:induction false} NoTwins(events: seq<Event>, e: Event)
    requires NoForks(events)
    ensures multiset(events)[e] <= 1
    decreases |events|
  {
    if events != [] {
      var init, last := events[..|events| - 1], events[|events| - 1];
      assert events == init + [last];
      NoTwins(init, e);
      assert last !in init;
    }
  }
}
