/** Distances between notes, and the search. */
module Distances {
  import opened Sequences
  import opened Notes
  import opened Digraphs

  // Links count in either direction; the search walks them outwards from a note, nearest first.

  // ---------------------------------------------------------------------------------------------
  // By path: what is asked for
  // ---------------------------------------------------------------------------------------------

  ghost predicate Adjacent(edges: seq<NamedEdge>, a: NotePath, b: NotePath) {
    exists e :: e in edges && Joins(e, a, b)
  }

  predicate Joins(e: NamedEdge, a: NotePath, b: NotePath) {
    (e.src == a && e.dst == b) || (e.src == b && e.dst == a)
  }

  /** `b` can be reached from `a` over at most `n` links, in either direction. */
  ghost predicate Within(edges: seq<NamedEdge>, a: NotePath, b: NotePath, n: nat)
    decreases n
  {
    a == b || (n > 0 && exists c :: Within(edges, a, c, n - 1) && Adjacent(edges, c, b))
  }

  ghost predicate AtDistance(edges: seq<NamedEdge>, a: NotePath, b: NotePath, n: nat) {
    Within(edges, a, b, n) && (n > 0 ==> !Within(edges, a, b, n - 1))
  }

  /** Each note on the way is linked to the next. */
  ghost predicate IsWalk(edges: seq<NamedEdge>, walk: seq<NotePath>) {
    walk != [] && forall i :: 0 <= i < |walk| - 1 ==> Adjacent(edges, walk[i], walk[i + 1])
  }

  ghost predicate WalkTo(edges: seq<NamedEdge>, walk: seq<NotePath>, a: NotePath, b: NotePath) {
    IsWalk(edges, walk) && walk[0] == a && walk[|walk| - 1] == b
  }

  lemma {:induction false} WithinHasWalk(edges: seq<NamedEdge>, a: NotePath, b: NotePath, n: nat) returns (walk: seq<NotePath>)
    requires Within(edges, a, b, n)
    ensures WalkTo(edges, walk, a, b) && |walk| <= n + 1
    decreases n
  {
    hide Adjacent;
    if a == b {
      walk := [a];
    } else {
      var c :| Within(edges, a, c, n - 1) && Adjacent(edges, c, b);
      walk := WithinHasWalk(edges, a, c, n - 1);
      walk := walk + [b];
    }
  }

  lemma {:induction false} WalkStaysWithin(edges: seq<NamedEdge>, walk: seq<NotePath>, a: NotePath, b: NotePath, n: nat)
    requires WalkTo(edges, walk, a, b) && |walk| <= n + 1
    ensures Within(edges, a, b, n)
    decreases |walk|
  {
    hide Adjacent;
    if |walk| > 1 {
      var init := walk[..|walk| - 1];
      assert Adjacent(edges, walk[|walk| - 2], walk[|walk| - 1]);
      WalkStaysWithin(edges, init, a, init[|init| - 1], n - 1);
    }
  }

  /** Within a distance means: some walk that short leads there. */
  lemma WithinIsWalk(edges: seq<NamedEdge>, a: NotePath, b: NotePath, n: nat)
    ensures Within(edges, a, b, n) <==> exists walk :: WalkTo(edges, walk, a, b) && |walk| <= n + 1
  {
    hide WalkTo;
    if Within(edges, a, b, n) {
      var walk := WithinHasWalk(edges, a, b, n);
    }
    if walk :| WalkTo(edges, walk, a, b) && |walk| <= n + 1 {
      WalkStaysWithin(edges, walk, a, b, n);
    }
  }

  // ---------------------------------------------------------------------------------------------
  // By slot: how it is computed
  // ---------------------------------------------------------------------------------------------

  /** The far ends of a node's outgoing edges, newest first. */
  function Successors(g: Graph, x: nat): seq<nat> {
    var ids := Outgoing(g, x);
    seq<nat>(|ids|, i requires 0 <= i < |ids| => assert ids[i] in ids; g.edges[ids[i]].dst)
  }

  function Predecessors(g: Graph, x: nat): seq<nat> {
    var ids := Incoming(g, x);
    seq<nat>(|ids|, i requires 0 <= i < |ids| => assert ids[i] in ids; g.edges[ids[i]].src)
  }

  ghost predicate Near(g: Graph, a: nat, b: nat) {
    exists e :: 0 <= e < |g.edges| && EdgeJoins(g.edges[e], a, b)
  }

  predicate EdgeJoins(e: Edge, a: nat, b: nat) {
    (e.src == a && e.dst == b) || (e.src == b && e.dst == a)
  }

  ghost predicate Reaches(g: Graph, a: nat, b: nat, n: nat)
    decreases n
  {
    a == b || (n > 0 && exists c: nat :: Reaches(g, a, c, n - 1) && Near(g, c, b))
  }

  ghost predicate ReachesIn(g: Graph, a: nat, b: nat, n: nat) {
    Reaches(g, a, b, n) && (n > 0 ==> !Reaches(g, a, b, n - 1))
  }

  lemma SuccessorsAre(g: Graph, x: nat, y: nat)
    requires GraphOk(g)
    ensures y in Successors(g, x) <==> exists e: nat :: Leaves(g, e, x) && g.edges[e].dst == y
  {
    var ids := Outgoing(g, x);
    if e: nat :| Leaves(g, e, x) && g.edges[e].dst == y {
      assert e in g.order && e in ids;
      var i :| 0 <= i < |ids| && ids[i] == e;
      assert Successors(g, x)[i] == y;
    }
    if y in Successors(g, x) {
      var i :| 0 <= i < |ids| && Successors(g, x)[i] == y;
      assert ids[i] in ids;
      assert Leaves(g, ids[i], x);
    }
  }

  lemma PredecessorsAre(g: Graph, x: nat, y: nat)
    requires GraphOk(g)
    ensures y in Predecessors(g, x) <==> exists e: nat :: Enters(g, e, x) && g.edges[e].src == y
  {
    var ids := Incoming(g, x);
    if e: nat :| Enters(g, e, x) && g.edges[e].src == y {
      assert e in g.order && e in ids;
      var i :| 0 <= i < |ids| && ids[i] == e;
      assert Predecessors(g, x)[i] == y;
    }
    if y in Predecessors(g, x) {
      var i :| 0 <= i < |ids| && Predecessors(g, x)[i] == y;
      assert ids[i] in ids;
      assert Enters(g, ids[i], x);
    }
  }

  lemma NeighborsAreNear(g: Graph, x: nat)
    requires GraphOk(g)
    ensures forall y: nat :: y in Successors(g, x) || y in Predecessors(g, x) <==> Near(g, x, y)
    ensures forall y: nat :: Near(g, x, y) ==> y < |g.nodes|
  {
    hide Successors, Predecessors;
    forall y: nat ensures y in Successors(g, x) || y in Predecessors(g, x) <==> Near(g, x, y) {
      SuccessorsAre(g, x, y);
      PredecessorsAre(g, x, y);
      if Near(g, x, y) {
        var e :| 0 <= e < |g.edges| && EdgeJoins(g.edges[e], x, y);
        assert Leaves(g, e, x) || Enters(g, e, x);
      }
    }
  }

  lemma NearNamed(g: Graph, a: nat, b: nat)
    requires GraphOk(g) && a < |g.nodes| && b < |g.nodes|
    ensures Near(g, a, b) <==> Adjacent(Named(g), g.nodes[a], g.nodes[b])
  {
    var edges := Named(g);
    if Near(g, a, b) {
      var e :| 0 <= e < |g.edges| && EdgeJoins(g.edges[e], a, b);
      assert e in g.order;
      var i :| 0 <= i < |g.order| && g.order[i] == e;
      assert edges[i] in edges && Joins(edges[i], g.nodes[a], g.nodes[b]);
    }
    if Adjacent(edges, g.nodes[a], g.nodes[b]) {
      var i :| 0 <= i < |edges| && Joins(edges[i], g.nodes[a], g.nodes[b]);
      assert g.order[i] < |g.edges|;
      assert EdgeJoins(g.edges[g.order[i]], a, b);
    }
  }

  lemma LinkedIsNode(g: Graph, c: NotePath, b: NotePath) returns (x: nat)
    requires GraphOk(g) && Adjacent(Named(g), c, b)
    ensures x < |g.nodes| && g.nodes[x] == c
  {
    var edges := Named(g);
    var i :| 0 <= i < |edges| && Joins(edges[i], c, b);
    var e := g.edges[g.order[i]];
    x := if edges[i].src == c then e.src else e.dst;
  }

  /** Distance by slot is distance by path. */
  lemma {:induction false} ReachesNamed(g: Graph, a: nat, b: nat, n: nat)
    requires GraphOk(g) && a < |g.nodes| && b < |g.nodes|
    ensures Reaches(g, a, b, n) <==> Within(Named(g), g.nodes[a], g.nodes[b], n)
    decreases n
  {
    hide GraphOk, Named, Near, Adjacent;
    assert g.nodes[a] == g.nodes[b] <==> a == b by {
      NodesDiffer(g, a, b);
    }
    if a != b && n > 0 {
      if Reaches(g, a, b, n) {
        var c: nat :| Reaches(g, a, c, n - 1) && Near(g, c, b);
        NearBounds(g, c, b);
        NearNamed(g, c, b);
        ReachesNamed(g, a, c, n - 1);
      }
      if Within(Named(g), g.nodes[a], g.nodes[b], n) {
        var p :| Within(Named(g), g.nodes[a], p, n - 1) && Adjacent(Named(g), p, g.nodes[b]);
        var c := LinkedIsNode(g, p, g.nodes[b]);
        NearNamed(g, c, b);
        ReachesNamed(g, a, c, n - 1);
      }
    }
  }

  lemma NodesDiffer(g: Graph, a: nat, b: nat)
    requires GraphOk(g) && a < |g.nodes| && b < |g.nodes|
    ensures g.nodes[a] == g.nodes[b] <==> a == b
  {
  }

  lemma NearBounds(g: Graph, a: nat, b: nat)
    requires GraphOk(g) && Near(g, a, b)
    ensures a < |g.nodes| && b < |g.nodes|
  {
  }

  lemma {:induction false} ReachesMore(g: Graph, a: nat, b: nat, m: nat, n: nat)
    requires Reaches(g, a, b, m) && m <= n
    ensures Reaches(g, a, b, n)
    decreases m
  {
    hide Near;
    if a != b {
      var c: nat :| Reaches(g, a, c, m - 1) && Near(g, c, b);
      ReachesMore(g, a, c, m - 1, n - 1);
    }
  }

  // ---------------------------------------------------------------------------------------------
  // The search
  // ---------------------------------------------------------------------------------------------

  datatype Stop = Stop(slot: nat, hops: nat)

  ghost predicate Seen(trail: seq<Stop>, y: nat) {
    exists i :: 0 <= i < |trail| && trail[i].slot == y
  }

  ghost predicate AllNearSeen(g: Graph, trail: seq<Stop>, x: nat) {
    forall y: nat :: Near(g, x, y) ==> Seen(trail, y)
  }

  /** Every stop stands at its exact distance, each slot once, nearer ones first. */
  ghost predicate Measured(g: Graph, start: nat, trail: seq<Stop>) {
    && trail != [] && trail[0] == Stop(start, 0)
    && (forall i, j :: 0 <= i < j < |trail| ==> trail[i].slot != trail[j].slot)
    && (forall i :: 0 <= i < |trail| ==> trail[i].slot < |g.nodes| && ReachesIn(g, start, trail[i].slot, trail[i].hops))
    && (forall i, j :: 0 <= i <= j < |trail| ==> trail[i].hops <= trail[j].hops)
  }

  /** All stops ever queued, the first `k` of them worked off. */
  ghost predicate Searching(g: Graph, start: nat, maxHops: nat, trail: seq<Stop>, k: nat) {
    && Measured(g, start, trail) && k <= |trail|
    && trail[|trail| - 1].hops <= maxHops
    && (k < |trail| ==> trail[|trail| - 1].hops <= trail[k].hops + 1)
    && (forall i :: 0 <= i < k && trail[i].hops < maxHops ==> AllNearSeen(g, trail, trail[i].slot))
  }

  function Stops(slots: seq<nat>, hops: nat): (stops: seq<Stop>)
    ensures |stops| == |slots| && forall i :: 0 <= i < |slots| ==> stops[i] == Stop(slots[i], hops)
  {
    seq(|slots|, i requires 0 <= i < |slots| => Stop(slots[i], hops))
  }

  /** If every stop nearer than `limit` has had its neighbours seen, everything that near is seen. */
  lemma {:induction false} Covered(g: Graph, start: nat, trail: seq<Stop>, limit: nat, b: nat, n: nat)
    requires Measured(g, start, trail)
    requires forall i :: 0 <= i < |trail| && trail[i].hops < limit ==> AllNearSeen(g, trail, trail[i].slot)
    requires n <= limit && Reaches(g, start, b, n)
    ensures Seen(trail, b)
    decreases n
  {
    hide Near;
    if start == b {
      assert trail[0].slot == b;
    } else {
      var c: nat :| Reaches(g, start, c, n - 1) && Near(g, c, b);
      Covered(g, start, trail, limit, c, n - 1);
      var i :| 0 <= i < |trail| && trail[i].slot == c;
      if trail[i].hops >= n {
        ReachesMore(g, start, c, n - 1, trail[i].hops - 1);
      }
      assert AllNearSeen(g, trail, trail[i].slot);
    }
  }

  lemma SearchBegins(g: Graph, start: nat, maxHops: nat)
    requires start < |g.nodes|
    ensures Searching(g, start, maxHops, [Stop(start, 0)], 0)
    ensures SeesAll({start}, [Stop(start, 0)]) && InSlots([Stop(start, 0)], |g.nodes|)
  {
  }

  /** A slot next to a stop at `hops` that was not seen before stands exactly one further out. */
  lemma OneFurther(g: Graph, start: nat, maxHops: nat, trail: seq<Stop>, k: nat, y: nat)
    requires Searching(g, start, maxHops, trail, k) && k < |trail| && trail[k].hops < maxHops
    requires Near(g, trail[k].slot, y) && !Seen(trail, y)
    ensures ReachesIn(g, start, y, trail[k].hops + 1)
  {
    hide Near, Seen, AllNearSeen;
    if Reaches(g, start, y, trail[k].hops) {
      Covered(g, start, trail, trail[k].hops, y, trail[k].hops);
    }
  }

  lemma SearchStep(g: Graph, start: nat, maxHops: nat, trail: seq<Stop>, k: nat, new_: seq<nat>)
    requires GraphOk(g) && Searching(g, start, maxHops, trail, k) && k < |trail| && trail[k].hops < maxHops
    requires NoDup(new_) && forall y: nat :: y in new_ <==> Near(g, trail[k].slot, y) && !Seen(trail, y)
    ensures Searching(g, start, maxHops, trail + Stops(new_, trail[k].hops + 1), k + 1)
  {
    hide GraphOk, Near, ReachesIn;
    var more := trail + Stops(new_, trail[k].hops + 1);
    forall i | 0 <= i < |more| ensures more[i].slot < |g.nodes| && ReachesIn(g, start, more[i].slot, more[i].hops) {
      if i >= |trail| {
        assert new_[i - |trail|] in new_;
        OneFurther(g, start, maxHops, trail, k, new_[i - |trail|]);
        NearBounds(g, trail[k].slot, new_[i - |trail|]);
      }
    }
    forall i, j | 0 <= i < j < |more| ensures more[i].slot != more[j].slot {
      if j >= |trail| {
        assert new_[j - |trail|] in new_;
        if i < |trail| {
          assert more[i] == trail[i];
        }
      }
    }
    SeenMore(g, trail, new_, trail[k].hops + 1, trail[k].slot);
    forall i | 0 <= i < k + 1 && more[i].hops < maxHops ensures AllNearSeen(g, more, more[i].slot) {
      if i < k {
        SeenStays(g, trail, Stops(new_, trail[k].hops + 1), trail[i].slot);
      }
    }
  }

  lemma SeenStays(g: Graph, trail: seq<Stop>, more: seq<Stop>, x: nat)
    requires AllNearSeen(g, trail, x)
    ensures AllNearSeen(g, trail + more, x)
  {
    hide Near;
    forall y: nat | Near(g, x, y) ensures Seen(trail + more, y) {
      var i :| 0 <= i < |trail| && trail[i].slot == y;
      assert (trail + more)[i].slot == y;
    }
  }

  lemma SeenMore(g: Graph, trail: seq<Stop>, new_: seq<nat>, hops: nat, x: nat)
    requires forall y: nat :: y in new_ <==> Near(g, x, y) && !Seen(trail, y)
    ensures AllNearSeen(g, trail + Stops(new_, hops), x)
    ensures forall y: nat :: Seen(trail + Stops(new_, hops), y) <==> Seen(trail, y) || y in new_
  {
    hide Near;
    var more := trail + Stops(new_, hops);
    forall y: nat ensures Seen(more, y) <==> Seen(trail, y) || y in new_ {
      if Seen(trail, y) {
        var i :| 0 <= i < |trail| && trail[i].slot == y;
        assert more[i].slot == y;
      }
      if y in new_ {
        var i :| 0 <= i < |new_| && new_[i] == y;
        assert more[|trail| + i].slot == y;
      }
      if Seen(more, y) {
        var i :| 0 <= i < |more| && more[i].slot == y;
        if i < |trail| {
          assert trail[i].slot == y;
        } else {
          assert new_[i - |trail|] == y;
        }
      }
    }
  }

  lemma SearchSkip(g: Graph, start: nat, maxHops: nat, trail: seq<Stop>, k: nat)
    requires Searching(g, start, maxHops, trail, k) && k < |trail| && trail[k].hops >= maxHops
    ensures Searching(g, start, maxHops, trail, k + 1)
  {
  }

  ghost predicate SeesAll(visited: set<nat>, trail: seq<Stop>) {
    forall y: nat :: y in visited <==> Seen(trail, y)
  }

  predicate InSlots(trail: seq<Stop>, n: nat) {
    forall i :: 0 <= i < |trail| ==> trail[i].slot < n
  }

  /** What one stop's successors and then its predecessors add, taken together. */
  lemma Discovered(g: Graph, start: nat, maxHops: nat, trail: seq<Stop>, k: nat, new_: seq<nat>, more: seq<nat>, visited: set<nat>)
    requires GraphOk(g) && Searching(g, start, maxHops, trail, k) && k < |trail| && trail[k].hops < maxHops
    requires NoDup(new_) && NoDup(more)
    requires forall y: nat :: y in new_ <==> y in Successors(g, trail[k].slot) && !Seen(trail, y)
    requires forall y: nat :: y in more <==> y in Predecessors(g, trail[k].slot) && !Seen(trail, y) && y !in new_
    requires forall y: nat :: y in visited <==> Seen(trail, y) || y in new_ || y in more
    ensures var after := trail + Stops(new_ + more, trail[k].hops + 1);
            Searching(g, start, maxHops, after, k + 1) && SeesAll(visited, after) && InSlots(after, |g.nodes|)
    ensures Stops(new_ + more, trail[k].hops + 1) == Stops(new_, trail[k].hops + 1) + Stops(more, trail[k].hops + 1)
  {
    hide GraphOk, Searching, Near, Seen, Successors, Predecessors;
    NoDupConcat(new_, more);
    NeighborsAreNear(g, trail[k].slot);
    SearchStep(g, start, maxHops, trail, k, new_ + more);
    SeenMore(g, trail, new_ + more, trail[k].hops + 1, trail[k].slot);
    SearchInSlots(g, start, maxHops, trail + Stops(new_ + more, trail[k].hops + 1), k + 1);
  }

  lemma SearchInSlots(g: Graph, start: nat, maxHops: nat, trail: seq<Stop>, k: nat)
    requires Searching(g, start, maxHops, trail, k)
    ensures InSlots(trail, |g.nodes|) && trail != []
  {
  }

  lemma SearchBounds(g: Graph, start: nat, maxHops: nat, trail: seq<Stop>, k: nat)
    requires Searching(g, start, maxHops, trail, k)
    ensures |trail| <= |g.nodes|
    ensures k < |trail| ==> (trail[k].hops > 0 <==> k > 0)
  {
    hide Near, AllNearSeen;
    var slots := seq<nat>(|trail|, i requires 0 <= i < |trail| => trail[i].slot);
    DistinctBelow(slots, |g.nodes|);
  }

  lemma {:induction false} DistinctBelow(s: seq<nat>, n: nat)
    requires NoDup(s) && forall i :: 0 <= i < |s| ==> s[i] < n
    ensures |s| <= n
    decreases |s|
  {
    if s != [] {
      var last := |s| - 1;
      assert s[last] < n;
      DistinctBelow(RenamedAll(s[..last], n - 1, s[last]), n - 1);
    }
  }

  function NotesAt(nodes: seq<NotePath>, stops: seq<Stop>): (notes: seq<NotePath>)
    requires forall i :: 0 <= i < |stops| ==> stops[i].slot < |nodes|
    ensures |notes| == |stops| && forall i :: 0 <= i < |stops| ==> notes[i] == nodes[stops[i].slot]
  {
    seq(|stops|, i requires 0 <= i < |stops| => nodes[stops[i].slot])
  }

  function HopsOf(stops: seq<Stop>): (hops: seq<nat>)
    ensures |hops| == |stops| && forall i :: 0 <= i < |stops| ==> hops[i] == stops[i].hops
  {
    seq(|stops|, i requires 0 <= i < |stops| => stops[i].hops)
  }

  /** The notes at distance 1 to `maxHops`, each once, with their distances, nearest first. */
  ghost predicate IsNeighbourhood(edges: seq<NamedEdge>, p: NotePath, maxHops: nat, notes: seq<NotePath>, hops: seq<nat>) {
    && |hops| == |notes| && NoDup(notes)
    && (forall i :: 0 <= i < |notes| ==> 1 <= hops[i] <= maxHops && AtDistance(edges, p, notes[i], hops[i]))
    && (forall i, j :: 0 <= i <= j < |hops| ==> hops[i] <= hops[j])
    && (forall q :: q != p && Within(edges, p, q, maxHops) ==> q in notes)
  }

  lemma SearchEnds(g: Graph, start: nat, maxHops: nat, trail: seq<Stop>)
    requires GraphOk(g) && start < |g.nodes| && Searching(g, start, maxHops, trail, |trail|)
    ensures IsNeighbourhood(Named(g), g.nodes[start], maxHops, NotesAt(g.nodes, trail[1..]), HopsOf(trail[1..]))
  {
    hide GraphOk, Named, Near, Reaches, Within, AllNearSeen;
    var found, p := trail[1..], g.nodes[start];
    var notes := NotesAt(g.nodes, found);
    forall i | 0 <= i < |found|
      ensures 1 <= found[i].hops <= maxHops && AtDistance(Named(g), p, notes[i], found[i].hops)
    {
      SearchPoint(g, start, maxHops, trail, i + 1);
    }
    forall i, j | 0 <= i < j < |notes| ensures notes[i] != notes[j] {
      NodesDiffer(g, trail[i + 1].slot, trail[j + 1].slot);
    }
    forall q | q != p && Within(Named(g), p, q, maxHops) ensures q in notes {
      SearchComplete(g, start, maxHops, trail, q);
    }
  }

  lemma SearchPoint(g: Graph, start: nat, maxHops: nat, trail: seq<Stop>, i: nat)
    requires GraphOk(g) && start < |g.nodes| && Searching(g, start, maxHops, trail, |trail|) && 0 < i < |trail|
    ensures 1 <= trail[i].hops <= maxHops
    ensures AtDistance(Named(g), g.nodes[start], g.nodes[trail[i].slot], trail[i].hops)
  {
    hide GraphOk, Named, Near, Within, AllNearSeen;
    ReachesNamed(g, start, trail[i].slot, trail[i].hops);
    if trail[i].hops > 0 {
      ReachesNamed(g, start, trail[i].slot, trail[i].hops - 1);
    }
  }

  lemma SearchComplete(g: Graph, start: nat, maxHops: nat, trail: seq<Stop>, q: NotePath)
    requires GraphOk(g) && start < |g.nodes| && Searching(g, start, maxHops, trail, |trail|)
    requires q != g.nodes[start] && Within(Named(g), g.nodes[start], q, maxHops)
    ensures q in NotesAt(g.nodes, trail[1..])
  {
    hide GraphOk, Named, Near, Reaches, AllNearSeen;
    var c :| Within(Named(g), g.nodes[start], c, maxHops - 1) && Adjacent(Named(g), c, q);
    var x := AdjacentEnd(g, c, q);
    ReachesNamed(g, start, x, maxHops);
    Covered(g, start, trail, maxHops, x, maxHops);
    var i :| 0 <= i < |trail| && trail[i].slot == x;
    assert NotesAt(g.nodes, trail[1..])[i - 1] == q;
  }

  lemma AdjacentEnd(g: Graph, c: NotePath, b: NotePath) returns (x: nat)
    requires GraphOk(g) && Adjacent(Named(g), c, b)
    ensures x < |g.nodes| && g.nodes[x] == b
  {
    assert Adjacent(Named(g), b, c) by {
      var e :| e in Named(g) && Joins(e, c, b);
      assert Joins(e, b, c);
    }
    x := LinkedIsNode(g, b, c);
  }

  /** The search's own variables: what it has visited, queued and reported, `k` stops worked off. */
  ghost predicate Exploring(g: Graph, start: nat, maxHops: nat, trail: seq<Stop>, k: nat,
                            visited: set<nat>, queue: seq<Stop>, related: seq<NotePath>) {
    && k <= |trail| <= |g.nodes| && queue == trail[k..]
    && Searching(g, start, maxHops, trail, k) && SeesAll(visited, trail) && InSlots(trail, |g.nodes|)
    && related == NotesAt(g.nodes, if k == 0 then [] else trail[1..k])
  }

  lemma ExploreBegins(g: Graph, start: nat, maxHops: nat)
    requires start < |g.nodes|
    ensures Exploring(g, start, maxHops, [Stop(start, 0)], 0, {start}, [Stop(start, 0)], [])
  {
    hide Searching, SeesAll;
    SearchBegins(g, start, maxHops);
    SearchBounds(g, start, maxHops, [Stop(start, 0)], 0);
  }

  lemma ExploreHead(g: Graph, start: nat, maxHops: nat, trail: seq<Stop>, k: nat, visited: set<nat>,
                    queue: seq<Stop>, related: seq<NotePath>)
    requires Exploring(g, start, maxHops, trail, k, visited, queue, related) && queue != []
    ensures k < |trail| <= |g.nodes| && queue[0] == trail[k] && queue[1..] == trail[k + 1..]
    ensures queue[0].slot < |g.nodes|
    ensures NotesAt(g.nodes, trail[1..k + 1]) == if trail[k].hops > 0 then related + [g.nodes[trail[k].slot]] else related
  {
    hide Searching, SeesAll, Reaches;
    SearchBounds(g, start, maxHops, trail, k);
    if k > 0 {
      assert trail[1..k + 1] == trail[1..k] + [trail[k]];
    }
  }

  lemma SliceOfPrefix<T>(a: seq<T>, b: seq<T>, i: nat, j: nat)
    requires i <= j <= |a|
    ensures (a + b)[i..j] == a[i..j]
  {
  }

  lemma ExploringInSlots(g: Graph, start: nat, maxHops: nat, trail: seq<Stop>, k: nat, visited: set<nat>,
                         queue: seq<Stop>, related: seq<NotePath>)
    requires Exploring(g, start, maxHops, trail, k, visited, queue, related)
    ensures InSlots(trail, |g.nodes|)
  {
  }

  lemma DropOfConcat<T>(a: seq<T>, b: seq<T>, k: nat)
    requires k <= |a|
    ensures (a + b)[k..] == a[k..] + b
  {
  }

  /** One stop worked off: what its neighbours added, or nothing if it stands at the limit. */
  lemma ExploreStep(g: Graph, start: nat, maxHops: nat, trail: seq<Stop>, k: nat, visited: set<nat>,
                    queue: seq<Stop>, related: seq<NotePath>, new_: seq<nat>, more: seq<nat>)
    requires GraphOk(g) && Exploring(g, start, maxHops, trail, k, visited, queue, related) && queue != []
    requires k < |trail| && InSlots(trail, |g.nodes|) && trail[k].hops < maxHops
    requires NoDup(new_) && NoDup(more)
    requires forall y :: y in new_ <==> y in Successors(g, trail[k].slot) && y !in visited
    requires forall y :: y in more <==> y in Predecessors(g, trail[k].slot) && y !in visited + Elements(new_)
    ensures var hops := trail[k].hops + 1;
            Exploring(g, start, maxHops, trail + Stops(new_ + more, hops), k + 1, visited + Elements(new_) + Elements(more),
                      queue[1..] + Stops(new_, hops) + Stops(more, hops), NotesAt(g.nodes, trail[1..k + 1]))
  {
    hide GraphOk, Searching, Seen, Successors, Predecessors, NoDup;
    var hops := trail[k].hops + 1;
    var after := trail + Stops(new_ + more, hops);
    Discovered(g, start, maxHops, trail, k, new_, more, visited + Elements(new_) + Elements(more));
    SearchBounds(g, start, maxHops, after, k + 1);
    DropOfConcat(trail, Stops(new_ + more, hops), k + 1);
    assert trail[k + 1..] + (Stops(new_, hops) + Stops(more, hops)) == queue[1..] + Stops(new_, hops) + Stops(more, hops);
    SliceOfPrefix(trail, Stops(new_ + more, hops), 1, k + 1);
  }

  lemma ExploreSkip(g: Graph, start: nat, maxHops: nat, trail: seq<Stop>, k: nat, visited: set<nat>,
                    queue: seq<Stop>, related: seq<NotePath>)
    requires Exploring(g, start, maxHops, trail, k, visited, queue, related) && queue != []
    requires k < |trail| && InSlots(trail, |g.nodes|) && trail[k].hops >= maxHops
    ensures Exploring(g, start, maxHops, trail, k + 1, visited, queue[1..], NotesAt(g.nodes, trail[1..k + 1]))
  {
    hide Searching, SeesAll;
    SearchSkip(g, start, maxHops, trail, k);
  }

  lemma ExploreEnds(g: Graph, start: nat, maxHops: nat, trail: seq<Stop>, k: nat, visited: set<nat>, related: seq<NotePath>)
    requires GraphOk(g) && start < |g.nodes| && Exploring(g, start, maxHops, trail, k, visited, [], related)
    ensures trail != [] && IsNeighbourhood(Named(g), g.nodes[start], maxHops, related, HopsOf(trail[1..]))
  {
    hide GraphOk, Named, SeesAll, Searching, IsNeighbourhood;
    SearchInSlots(g, start, maxHops, trail, k);
    assert k == |trail| && trail[1..k] == trail[1..];
    SearchEnds(g, start, maxHops, trail);
  }
}
