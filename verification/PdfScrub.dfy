/**
 `flatten` of the document importer: a depth-first walk of a PDF's object graph, cycles included,
 that deletes every active key in place and reports which keys went. A reference stands for the
 object it resolves to.
 */
module PdfScrub {

  datatype Shape = Dictionary | Array | Leaf

  datatype Entry = Entry(key: string, value: PdfObject)

  class PdfObject {
    const shape: Shape
    /** The elements of an array. */
    const items: seq<PdfObject>
    /** The entries of a dictionary, in order. */
    var entries: seq<Entry>
  }

  const ACTIVE_KEYS: seq<string> := ["/AA", "/OpenAction", "/JavaScript", "/JS", "/Launch", "/RichMedia", "/XFA"]

  predicate Active(key: string) {
    key in ACTIVE_KEYS
  }

  predicate HasKey(entries: seq<Entry>, key: string) {
    exists i :: 0 <= i < |entries| && entries[i].key == key
  }

  // -------------------------------------------------------------------------
  // The graph as it stands at one moment
  // -------------------------------------------------------------------------

  /** The entries of every object at one moment. */
  type Graph = map<PdfObject, seq<Entry>>

  ghost function Snapshot(objects: set<PdfObject>): (g: Graph)
    reads objects
    ensures g.Keys == objects && forall o :: o in objects ==> g[o] == o.entries
  {
    map o | o in objects :: o.entries
  }

  predicate Leads(entries: seq<Entry>, b: PdfObject) {
    exists i :: 0 <= i < |entries| && entries[i].value == b
  }

  /** `b` is a value of the dictionary `a`, or an element of the array `a`. */
  predicate Edge(g: Graph, a: PdfObject, b: PdfObject) {
    a in g && ((a.shape.Dictionary? && Leads(g[a], b)) || (a.shape.Array? && b in a.items))
  }

  /** A walk of `n` edges leads from `a` to `b`. */
  ghost predicate ReachesIn(g: Graph, a: PdfObject, b: PdfObject, n: nat) {
    if n == 0 then a == b else exists m :: m in g && Edge(g, a, m) && ReachesIn(g, m, b, n - 1)
  }

  ghost predicate Reaches(g: Graph, a: PdfObject, b: PdfObject) {
    exists n: nat :: ReachesIn(g, a, b, n)
  }

  ghost predicate ClosedUnder(g: Graph, objects: set<PdfObject>) {
    forall a, b :: a in objects && b in g && Edge(g, a, b) ==> b in objects
  }

  lemma ReachesItself(g: Graph, a: PdfObject)
    ensures Reaches(g, a, a)
  {
    assert ReachesIn(g, a, a, 0);
  }

  lemma EdgeThenReaches(g: Graph, a: PdfObject, b: PdfObject, c: PdfObject)
    requires b in g && Edge(g, a, b) && Reaches(g, b, c)
    ensures Reaches(g, a, c)
  {
    var n: nat :| ReachesIn(g, b, c, n);
    assert ReachesIn(g, a, c, n + 1);
  }

  /** A set with `a` in it that edges do not leave holds everything `a` reaches. */
  lemma {:induction false} ClosedHoldsReached(g: Graph, objects: set<PdfObject>, a: PdfObject, b: PdfObject, n: nat)
    requires ClosedUnder(g, objects) && a in objects && ReachesIn(g, a, b, n)
    ensures b in objects
  {
    if n > 0 {
      var m :| m in g && Edge(g, a, m) && ReachesIn(g, m, b, n - 1);
      ClosedHoldsReached(g, objects, m, b, n - 1);
    }
  }

  // -------------------------------------------------------------------------
  // The graph with its active keys gone
  // -------------------------------------------------------------------------

  function Without(entries: seq<Entry>, gone: set<string>): (kept: seq<Entry>)
    ensures forall key :: HasKey(kept, key) <==> HasKey(entries, key) && key !in gone
    ensures (forall key :: key in gone ==> !HasKey(entries, key)) ==> kept == entries
  {
    if entries == [] then []
    else
      var (init, last) := (entries[..|entries| - 1], entries[|entries| - 1]);
      var rest := Without(init, gone);
      HasKeySnoc(init, last);
      HasKeySnoc(rest, last);
      assert init + [last] == entries;
      if last.key in gone then rest else rest + [last]
  }

  lemma HasKeySnoc(entries: seq<Entry>, last: Entry)
    ensures forall key :: HasKey(entries + [last], key) <==> HasKey(entries, key) || key == last.key
  {
    var more := entries + [last];
    assert more[|entries|] == last;
    forall key | HasKey(entries, key) ensures HasKey(more, key) {
      var i :| 0 <= i < |entries| && entries[i].key == key;
      assert more[i].key == key;
    }
  }

  lemma {:induction false} WithoutOneMore(entries: seq<Entry>, gone: set<string>, key: string)
    ensures Without(Without(entries, gone), {key}) == Without(entries, gone + {key})
  {
    if entries != [] {
      var (init, last) := (entries[..|entries| - 1], entries[|entries| - 1]);
      WithoutOneMore(init, gone, key);
      var rest := Without(init, gone);
      if last.key !in gone {
        assert (rest + [last])[..|rest|] == rest;
      }
    }
  }

  lemma {:induction false} WithoutNothing(entries: seq<Entry>)
    ensures Without(entries, {}) == entries
  {
  }

  lemma KeySetSnoc(keys: seq<string>, i: nat)
    requires i < |keys|
    ensures KeySet(keys[..i + 1]) == KeySet(keys[..i]) + {keys[i]}
    ensures forall key :: key in keys[..i + 1] <==> key in keys[..i] || key == keys[i]
  {
    assert keys[..i + 1] == keys[..i] + [keys[i]];
  }

  function KeySet(keys: seq<string>): set<string> {
    set key | key in keys
  }

  /** A dictionary's entries once scrubbed. */
  function Scrubbed(entries: seq<Entry>): seq<Entry> {
    Without(entries, KeySet(ACTIVE_KEYS))
  }

  function Pruned(g: Graph): Graph {
    map o | o in g :: if o.shape.Dictionary? then Scrubbed(g[o]) else g[o]
  }

  /** What the walk has done so far: scrubbed every object seen, and nothing else. */
  ghost predicate ScrubbedSoFar(g: Graph, now: Graph, seen: set<PdfObject>) {
    now.Keys == g.Keys && forall o :: o in g ==> now[o] == if o in seen then Pruned(g)[o] else g[o]
  }

  /** The report: the active keys of the dictionaries seen, as they stood. */
  ghost predicate Reported(g: Graph, seen: set<PdfObject>, removed: set<string>) {
    forall key :: key in removed <==>
      Active(key) && exists o :: o in seen && o in g && o.shape.Dictionary? && HasKey(g[o], key)
  }

  function Values(entries: seq<Entry>): (values: seq<PdfObject>)
    ensures |values| == |entries| && forall i :: 0 <= i < |entries| ==> values[i] == entries[i].value
  {
    seq(|entries|, i requires 0 <= i < |entries| => entries[i].value)
  }

  /** What an object leads to, in the order the walk visits it. */
  function Next(shape: Shape, items: seq<PdfObject>, entries: seq<Entry>): seq<PdfObject> {
    match shape case Dictionary => Values(entries) case Array => items case Leaf => []
  }

  /** Every object a value or an element resolves to is one of these. */
  ghost predicate Closed(g: Graph) {
    forall a, i :: a in g && 0 <= i < |Next(a.shape, a.items, g[a])| ==> Next(a.shape, a.items, g[a])[i] in g
  }

  lemma NextAreEdges(g: Graph, node: PdfObject)
    requires node in g
    ensures forall b :: b in g ==> (Edge(g, node, b) <==> b in Next(node.shape, node.items, g[node]))
  {
    var values := Values(g[node]);
    forall b | b in g && b in values ensures Leads(g[node], b) {
      var i :| 0 <= i < |values| && values[i] == b;
      assert g[node][i].value == b;
    }
    forall b | b in g && Leads(g[node], b) ensures b in values {
      var i :| 0 <= i < |g[node]| && g[node][i].value == b;
      assert values[i] == b;
    }
  }

  /** What a pruned object leads to is still in the graph. */
  lemma PrunedIsClosed(g: Graph)
    requires Closed(g)
    ensures Closed(Pruned(g))
  {
    var p := Pruned(g);
    forall a, i | a in p && 0 <= i < |Next(a.shape, a.items, p[a])| ensures Next(a.shape, a.items, p[a])[i] in p {
      if a.shape.Dictionary? {
        var j := WithoutKeepsEntry(g[a], KeySet(ACTIVE_KEYS), i);
        assert Next(a.shape, a.items, g[a])[j] in g;
      } else {
        assert Next(a.shape, a.items, g[a])[i] in g;
      }
    }
  }

  lemma {:induction false} WithoutKeepsEntry(entries: seq<Entry>, gone: set<string>, i: nat) returns (j: nat)
    requires i < |Without(entries, gone)|
    ensures j < |entries| && entries[j] == Without(entries, gone)[i] && entries[j].key !in gone
  {
    var (init, last) := (entries[..|entries| - 1], entries[|entries| - 1]);
    if i < |Without(init, gone)| {
      j := WithoutKeepsEntry(init, gone, i);
    } else {
      j := |entries| - 1;
    }
  }

  /** Seeing one more object reports its active keys, if it is a dictionary. */
  lemma ReportGrows(g: Graph, seen: set<PdfObject>, node: PdfObject, removed: set<string>, after: set<string>)
    requires Reported(g, seen, removed) && node in g
    requires forall key :: key in after <==>
      key in removed || (node.shape.Dictionary? && key in ACTIVE_KEYS && HasKey(g[node], key))
    ensures Reported(g, seen + {node}, after)
  {
  }

  lemma ScrubbingGrows(g: Graph, was: Graph, now: Graph, seen: set<PdfObject>, node: PdfObject)
    requires ScrubbedSoFar(g, was, seen) && now.Keys == was.Keys && node in g && node !in seen
    requires forall o :: o in was && o != node ==> now[o] == was[o]
    requires now[node] == if node.shape.Dictionary? then Scrubbed(was[node]) else was[node]
    ensures ScrubbedSoFar(g, now, seen + {node}) && now[node] == Pruned(g)[node]
  {
  }

  lemma SmallerSet(a: set<PdfObject>, b: set<PdfObject>)
    requires a < b
    ensures |a| < |b|
  {
    assert a + (b - a) == b;
  }

  // -------------------------------------------------------------------------
  // What a walk adds to the objects seen
  // -------------------------------------------------------------------------

  /** A finished walk from `node`: what it added the node reaches, and edges do not leave it. */
  ghost predicate Walked(p: Graph, node: PdfObject, before: set<PdfObject>, after: set<PdfObject>) {
    before <= after && node in after &&
    (forall o :: o in after - before ==> Reaches(p, node, o)) &&
    (forall a, b :: a in after - before && b in p && Edge(p, a, b) ==> b in after)
  }

  /** A walk that has entered `node` and been through its first `i` successors. */
  ghost predicate Walking(p: Graph, node: PdfObject, next: seq<PdfObject>, i: nat, before: set<PdfObject>, now: set<PdfObject>) {
    i <= |next| && before <= now && node in now - before && (forall k :: 0 <= k < i ==> next[k] in now) &&
    (forall o :: o in now - before ==> Reaches(p, node, o)) &&
    (forall a, b :: a in now - before - {node} && b in p && Edge(p, a, b) ==> b in now)
  }

  lemma WalkStarts(p: Graph, node: PdfObject, next: seq<PdfObject>, before: set<PdfObject>)
    requires node !in before
    ensures Walking(p, node, next, 0, before, before + {node})
  {
    ReachesItself(p, node);
  }

  lemma WalkGoesOn(p: Graph, node: PdfObject, next: seq<PdfObject>, i: nat, before: set<PdfObject>, now: set<PdfObject>, after: set<PdfObject>)
    requires Walking(p, node, next, i, before, now) && i < |next| && Walked(p, next[i], now, after)
    requires next[i] in p && Edge(p, node, next[i])
    ensures Walking(p, node, next, i + 1, before, after)
  {
    forall o | o in after - now ensures Reaches(p, node, o) { EdgeThenReaches(p, node, next[i], o); }
  }

  lemma WalkEnds(p: Graph, node: PdfObject, next: seq<PdfObject>, before: set<PdfObject>, now: set<PdfObject>)
    requires Walking(p, node, next, |next|, before, now)
    requires node in p && next == Next(node.shape, node.items, p[node])
    ensures Walked(p, node, before, now)
  {
    NextAreEdges(p, node);
  }

  /** A successor in the pruned graph is an object of it, by an edge of it. */
  lemma NextInGraph(g: Graph, node: PdfObject, next: seq<PdfObject>, i: nat)
    requires Closed(g) && node in g && next == Next(node.shape, node.items, Pruned(g)[node]) && i < |next|
    ensures next[i] in g && Edge(Pruned(g), node, next[i])
  {
    PrunedIsClosed(g);
    NextAreEdges(Pruned(g), node);
  }

  // -------------------------------------------------------------------------
  // The walk
  // -------------------------------------------------------------------------

  class Scrubber {
    var seen: set<PdfObject>
    var removed: set<string>

    constructor ()
      ensures seen == {} && removed == {}
    {
      seen, removed := {}, {};
    }

    /** The walk so far, from a graph `g` over `objects`. */
    ghost predicate Valid(g: Graph, objects: set<PdfObject>)
      reads this, objects
    {
      g.Keys == objects && Closed(g) && seen <= objects &&
      ScrubbedSoFar(g, Snapshot(objects), seen) && Reported(g, seen, removed)
    }

    /** The loop over the active keys: the node's own entries, in place. */
    method DropKeys(node: PdfObject, keys: seq<string>)
      modifies this`removed, node
      ensures node.entries == Without(old(node.entries), KeySet(keys))
      ensures forall key :: key in removed <==> key in old(removed) || (key in keys && HasKey(old(node.entries), key))
    {
      ghost var was := node.entries;
      WithoutNothing(was);
      assert KeySet(keys[..0]) == {};
      for i := 0 to |keys|
        invariant node.entries == Without(was, KeySet(keys[..i]))
        invariant forall key :: key in removed <==> key in old(removed) || (key in keys[..i] && HasKey(was, key))
      {
        var key := keys[i];
        KeySetSnoc(keys, i);
        WithoutOneMore(was, KeySet(keys[..i]), key);
        if HasKey(node.entries, key) {
          node.entries := Without(node.entries, {key});
          removed := removed + {key};
        }
      }
      assert keys[..|keys|] == keys;
    }

    /** The node is seen, and scrubbed if it is a dictionary. */
    method Enter(node: PdfObject, ghost g: Graph, ghost objects: set<PdfObject>)
      requires Valid(g, objects) && node in objects && node !in seen
      modifies this, node
      ensures Valid(g, objects) && seen == old(seen) + {node}
      ensures node in g && node.entries == Pruned(g)[node]
    {
      ghost var (was, before, reported) := (Snapshot(objects), seen, removed);
      seen := seen + {node};
      if node.shape.Dictionary? {
        DropKeys(node, ACTIVE_KEYS);
      }
      ReportGrows(g, before, node, reported, removed);
      ScrubbingGrows(g, was, Snapshot(objects), before, node);
    }

    /** `scrub`: everything reachable from the node that the walk had not seen is scrubbed and seen. */
    method Scrub(node: PdfObject, ghost g: Graph, ghost objects: set<PdfObject>)
      requires Valid(g, objects) && node in objects
      modifies this, objects
      decreases |objects - seen|
      ensures Valid(g, objects)
      ensures Walked(Pruned(g), node, old(seen), seen)
    {
      if node in seen { return; }
      ghost var start := seen;
      Enter(node, g, objects);
      var next := Next(node.shape, node.items, node.entries);
      WalkStarts(Pruned(g), node, next, start);
      for i := 0 to |next|
        invariant Valid(g, objects)
        invariant Walking(Pruned(g), node, next, i, start, seen)
      {
        ghost var before := seen;
        NextInGraph(g, node, next, i);
        SmallerSet(objects - seen, objects - start);
        Scrub(next[i], g, objects);
        WalkGoesOn(Pruned(g), node, next, i, start, before, seen);
      }
      WalkEnds(Pruned(g), node, next, start, seen);
    }
  }

  /** Everything an object reaches once the active keys are gone. */
  ghost predicate IsReachOf(g: Graph, root: PdfObject, objects: set<PdfObject>) {
    objects <= g.Keys && forall o :: o in g ==> (o in objects <==> Reaches(Pruned(g), root, o))
  }

  /**
   `flatten`: from any graph, cycles included, the walk ends with exactly what the root still
   reaches scrubbed in place, every other object as it was, and the report of what went.
   */
  method Flatten(root: PdfObject, ghost objects: set<PdfObject>) returns (removed: set<string>)
    requires root in objects && Closed(Snapshot(objects))
    modifies objects
    ensures var g := old(Snapshot(objects));
            exists seen: set<PdfObject> | seen <= objects ::
              IsReachOf(g, root, seen) && ScrubbedSoFar(g, Snapshot(objects), seen) && Reported(g, seen, removed)
    ensures forall o :: o in objects && Reaches(Snapshot(objects), root, o) ==> !HoldsActive(Snapshot(objects), o)
    ensures removed == {} <==> Snapshot(objects) == old(Snapshot(objects))
  {
    ghost var g := Snapshot(objects);
    var scrubber := new Scrubber();
    scrubber.Scrub(root, g, objects);
    removed := scrubber.removed;
    forall o | o in g && Reaches(Pruned(g), root, o) ensures o in scrubber.seen {
      var n: nat :| ReachesIn(Pruned(g), root, o, n);
      ClosedHoldsReached(Pruned(g), scrubber.seen, root, o, n);
    }
    assert IsReachOf(g, root, scrubber.seen);
    EmptyReportExactly(g, Snapshot(objects), root, scrubber.seen, removed);
    forall o | o in objects && Reaches(Snapshot(objects), root, o) ensures !HoldsActive(Snapshot(objects), o) {
      NothingActiveIsReached(g, Snapshot(objects), root, scrubber.seen, o);
    }
  }

  // -------------------------------------------------------------------------
  // What the walk leaves
  // -------------------------------------------------------------------------

  /** A dictionary that holds an active key. */
  predicate HoldsActive(g: Graph, o: PdfObject) {
    o in g && o.shape.Dictionary? && exists key :: key in ACTIVE_KEYS && HasKey(g[o], key)
  }

  /** The scrubbed objects are those the root reaches in the changed graph too, by every edge left there. */
  lemma ReachIsUnchanged(g: Graph, now: Graph, root: PdfObject, seen: set<PdfObject>, o: PdfObject, n: nat)
    requires Closed(g) && root in g && IsReachOf(g, root, seen) && ScrubbedSoFar(g, now, seen)
    requires ReachesIn(now, root, o, n)
    ensures o in seen
  {
    ReachesItself(Pruned(g), root);
    forall a, b | a in seen && b in now && Edge(now, a, b) ensures b in seen {
      assert Edge(Pruned(g), a, b);
      ReachesThenEdge(Pruned(g), root, a, b);
    }
    ClosedHoldsReached(now, seen, root, o, n);
  }

  lemma ReachesThenEdge(g: Graph, a: PdfObject, b: PdfObject, c: PdfObject)
    requires Reaches(g, a, b) && b in g && c in g && Edge(g, b, c)
    ensures Reaches(g, a, c)
  {
    var n: nat :| ReachesIn(g, a, b, n);
    StepsThenEdge(g, a, b, c, n);
  }

  lemma {:induction false} StepsThenEdge(g: Graph, a: PdfObject, b: PdfObject, c: PdfObject, n: nat)
    requires ReachesIn(g, a, b, n) && c in g && Edge(g, b, c)
    ensures ReachesIn(g, a, c, n + 1)
  {
    if n == 0 {
      assert ReachesIn(g, c, c, 0);
    } else {
      var m :| m in g && Edge(g, a, m) && ReachesIn(g, m, b, n - 1);
      StepsThenEdge(g, m, b, c, n - 1);
    }
  }

  /** Nothing the root reaches in the changed graph holds an active key. */
  lemma NothingActiveIsReached(g: Graph, now: Graph, root: PdfObject, seen: set<PdfObject>, o: PdfObject)
    requires Closed(g) && root in g && IsReachOf(g, root, seen) && ScrubbedSoFar(g, now, seen)
    requires Reaches(now, root, o)
    ensures !HoldsActive(now, o)
  {
    var n: nat :| ReachesIn(now, root, o, n);
    ReachIsUnchanged(g, now, root, seen, o, n);
  }

  /** Only active keys go: every other entry stays, with its value and in its order. */
  lemma {:induction false} OtherEntriesStay(entries: seq<Entry>, key: string)
    requires !Active(key)
    ensures ValuesAt(Scrubbed(entries), key) == ValuesAt(entries, key)
  {
    if entries != [] {
      var (init, last) := (entries[..|entries| - 1], entries[|entries| - 1]);
      OtherEntriesStay(init, key);
      var rest := Scrubbed(init);
      assert (rest + [last])[..|rest|] == rest;
    }
  }

  /** The values under one key, in order. */
  function ValuesAt(entries: seq<Entry>, key: string): seq<PdfObject> {
    if entries == [] then []
    else
      var (init, last) := (entries[..|entries| - 1], entries[|entries| - 1]);
      ValuesAt(init, key) + if last.key == key then [last.value] else []
  }

  /** The report is empty exactly when the walk changed nothing, so the file may be kept as it was. */
  lemma EmptyReportExactly(g: Graph, now: Graph, root: PdfObject, seen: set<PdfObject>, removed: set<string>)
    requires IsReachOf(g, root, seen) && ScrubbedSoFar(g, now, seen) && Reported(g, seen, removed)
    ensures removed == {} <==> now == g
    ensures removed == {} <==> forall o :: o in g && Reaches(Pruned(g), root, o) ==> !HoldsActive(g, o)
  {
    if removed == {} {
      forall o | o in seen ensures !HoldsActive(g, o) && now[o] == g[o] {
        forall key | key in ACTIVE_KEYS && o.shape.Dictionary? ensures !HasKey(g[o], key) {
          assert key !in removed;
        }
      }
    } else {
      var key :| key in removed;
      var o :| o in seen && o in g && o.shape.Dictionary? && HasKey(g[o], key);
      assert HoldsActive(g, o);
      assert !HasKey(now[o], key);
    }
  }

  /** By the edges left when the active keys go, a walk reaches nothing it did not reach before. */
  lemma {:induction false} PrunedReachesLess(g: Graph, a: PdfObject, b: PdfObject, n: nat)
    requires Closed(g) && ReachesIn(Pruned(g), a, b, n)
    ensures ReachesIn(g, a, b, n)
  {
    if n > 0 {
      var m :| m in Pruned(g) && Edge(Pruned(g), a, m) && ReachesIn(Pruned(g), m, b, n - 1);
      PrunedEdge(g, a, m);
      PrunedReachesLess(g, m, b, n - 1);
    }
  }

  lemma PrunedEdge(g: Graph, a: PdfObject, b: PdfObject)
    requires Edge(Pruned(g), a, b)
    ensures Edge(g, a, b)
  {
    if a.shape.Dictionary? {
      var i :| 0 <= i < |Pruned(g)[a]| && Pruned(g)[a][i].value == b;
      var j := WithoutKeepsEntry(g[a], KeySet(ACTIVE_KEYS), i);
      assert g[a][j].value == b;
    }
  }

  /** A second walk, from the same root, over what a first one left: it deletes and reports nothing. */
  lemma SecondWalkIsEmpty(g: Graph, now: Graph, later: Graph, root: PdfObject, seen: set<PdfObject>, again: set<PdfObject>, removed: set<string>)
    requires Closed(g) && Closed(now) && root in g && IsReachOf(g, root, seen) && ScrubbedSoFar(g, now, seen)
    requires IsReachOf(now, root, again) && ScrubbedSoFar(now, later, again) && Reported(now, again, removed)
    ensures removed == {} && later == now
  {
    forall o | o in now && Reaches(Pruned(now), root, o) ensures !HoldsActive(now, o) {
      var n: nat :| ReachesIn(Pruned(now), root, o, n);
      PrunedReachesLess(now, root, o, n);
      NothingActiveIsReached(g, now, root, seen, o);
    }
    EmptyReportExactly(now, later, root, again, removed);
  }

  /** Deleting entries leaves every value among the objects. */
  lemma ScrubbedIsClosed(g: Graph, now: Graph, seen: set<PdfObject>)
    requires Closed(g) && ScrubbedSoFar(g, now, seen)
    ensures Closed(now)
  {
    PrunedIsClosed(g);
    forall a, i | a in now && 0 <= i < |Next(a.shape, a.items, now[a])| ensures Next(a.shape, a.items, now[a])[i] in now {
      if a in seen {
        assert Next(a.shape, a.items, Pruned(g)[a])[i] in Pruned(g);
      } else {
        assert Next(a.shape, a.items, g[a])[i] in g;
      }
    }
  }

  /** So a file flattened once is flat: flattening it again reports nothing and changes nothing. */
  method FlattenTwice(root: PdfObject, ghost objects: set<PdfObject>) returns (first: set<string>, second: set<string>)
    requires root in objects && Closed(Snapshot(objects))
    modifies objects
    ensures second == {}
    ensures first == {} <==> Snapshot(objects) == old(Snapshot(objects))
  {
    ghost var g := Snapshot(objects);
    first := Flatten(root, objects);
    ghost var now := Snapshot(objects);
    ghost var seen: set<PdfObject> :| seen <= objects && IsReachOf(g, root, seen) && ScrubbedSoFar(g, now, seen) && Reported(g, seen, first);
    ScrubbedIsClosed(g, now, seen);
    second := Flatten(root, objects);
    ghost var again: set<PdfObject> :| again <= objects && IsReachOf(now, root, again) && ScrubbedSoFar(now, Snapshot(objects), again) && Reported(now, again, second);
    SecondWalkIsEmpty(g, now, Snapshot(objects), root, seen, again, second);
  }
}
