/** The graph library under the link graph. */
module Digraphs {
  import opened Sequences
  import opened Notes

  // The part of petgraph's `Graph` it uses: nodes and edges in slots, removal by moving the last slot
  // into the freed one, and adjacency lists that start with the newest edge.

  datatype Edge = Edge(src: nat, dst: nat, link: Link)

  /**
   * `order` lists the edge slots newest first. A node's adjacency list is the sub-list of the
   * edges that leave (or enter) it: inserting at its head and unlinking keep that order, and slot
   * renumbering changes the numbers but not the positions.
   */
  datatype Graph = Graph(nodes: seq<NotePath>, edges: seq<Edge>, order: seq<nat>)

  /** An edge by the names of its ends. */
  datatype NamedEdge = NamedEdge(src: NotePath, dst: NotePath, link: Link)

  ghost predicate GraphOk(g: Graph) {
    && NoDup(g.nodes)
    && (forall e :: 0 <= e < |g.edges| ==> g.edges[e].src < |g.nodes| && g.edges[e].dst < |g.nodes|)
    && Permutes(g.order, |g.edges|)
  }

  /** Each slot below `n` is listed exactly once, and nothing else is. */
  ghost predicate Permutes(order: seq<nat>, n: nat) {
    && NoDup(order)
    && (forall i :: 0 <= i < |order| ==> order[i] < n)
    && (forall e: nat :: e < n ==> e in order)
  }

  function NameEdge(nodes: seq<NotePath>, e: Edge): NamedEdge
    requires e.src < |nodes| && e.dst < |nodes|
  {
    NamedEdge(nodes[e.src], nodes[e.dst], e.link)
  }

  /** All edges by name, newest first. */
  ghost function Named(g: Graph): (view: seq<NamedEdge>)
    requires GraphOk(g)
  {
    seq(|g.order|, i requires 0 <= i < |g.order| => NameEdge(g.nodes, g.edges[g.order[i]]))
  }

  function AddNode(g: Graph, node: NotePath): Graph {
    g.(nodes := g.nodes + [node])
  }

  function AddEdge(g: Graph, src: nat, dst: nat, link: Link): Graph {
    Graph(g.nodes, g.edges + [Edge(src, dst, link)], [|g.edges|] + g.order)
  }

  /** `s` without `x`. */
  function Without<T(==, !new)>(s: seq<T>, x: T): (r: seq<T>)
    ensures forall y :: y in r <==> y in s && y != x
    ensures |r| <= |s|
  {
    if s == [] then []
    else
      var init := Without(s[..|s| - 1], x);
      if s[|s| - 1] == x then init else init + [s[|s| - 1]]
  }

  function Renamed(i: nat, from: nat, to: nat): nat {
    if i == from then to else i
  }

  function RenamedAll(s: seq<nat>, from: nat, to: nat): (r: seq<nat>)
    ensures |r| == |s|
    ensures forall i :: 0 <= i < |s| ==> r[i] == Renamed(s[i], from, to)
  {
    seq(|s|, i requires 0 <= i < |s| => Renamed(s[i], from, to))
  }

  /** Remove the edge in slot `e`, if there is one; the last edge moves into its slot. */
  function RemoveEdge(g: Graph, e: nat): Graph {
    if e >= |g.edges| then g
    else
      var last := |g.edges| - 1;
      Graph(g.nodes, g.edges[e := g.edges[last]][..last], RenamedAll(Without(g.order, e), last, e))
  }

  predicate Leaves(g: Graph, e: nat, node: nat) {
    e < |g.edges| && g.edges[e].src == node
  }

  predicate Enters(g: Graph, e: nat, node: nat) {
    e < |g.edges| && g.edges[e].dst == node
  }

  /** The slots in `order` of the edges that leave a node. */
  function OutgoingIn(g: Graph, node: nat, order: seq<nat>): (ids: seq<nat>)
    ensures forall e :: e in ids <==> e in order && Leaves(g, e, node)
  {
    if order == [] then []
    else
      var rest := OutgoingIn(g, node, order[..|order| - 1]);
      if Leaves(g, order[|order| - 1], node) then rest + [order[|order| - 1]] else rest
  }

  function IncomingIn(g: Graph, node: nat, order: seq<nat>): (ids: seq<nat>)
    ensures forall e :: e in ids <==> e in order && Enters(g, e, node)
  {
    if order == [] then []
    else
      var rest := IncomingIn(g, node, order[..|order| - 1]);
      if Enters(g, order[|order| - 1], node) then rest + [order[|order| - 1]] else rest
  }

  /** The edge slots of a node's adjacency lists, newest first. */
  function Outgoing(g: Graph, node: nat): seq<nat> {
    OutgoingIn(g, node, g.order)
  }

  function Incoming(g: Graph, node: nat): seq<nat> {
    IncomingIn(g, node, g.order)
  }

  // ---------------------------------------------------------------------------------------------
  // Adding
  // ---------------------------------------------------------------------------------------------

  lemma AddNodeKeeps(g: Graph, node: NotePath)
    requires GraphOk(g) && node !in g.nodes
    ensures GraphOk(AddNode(g, node)) && Named(AddNode(g, node)) == Named(g)
  {
    NoDupConcat(g.nodes, [node]);
    var g' := AddNode(g, node);
    assert forall i :: 0 <= i < |g.order| ==> g.order[i] < |g.edges|;
    assert Named(g') == Named(g);
  }

  lemma AddEdgeKeeps(g: Graph, src: nat, dst: nat, link: Link)
    requires GraphOk(g) && src < |g.nodes| && dst < |g.nodes|
    ensures GraphOk(AddEdge(g, src, dst, link))
    ensures Named(AddEdge(g, src, dst, link)) == [NamedEdge(g.nodes[src], g.nodes[dst], link)] + Named(g)
  {
    var g' := AddEdge(g, src, dst, link);
    NoDupConcat([|g.edges|], g.order);
    forall e: nat | e < |g'.edges| ensures e in g'.order {
      if e < |g.edges| {
        assert e in g.order;
      }
    }
    assert GraphOk(g');
    assert Named(g') == [NamedEdge(g.nodes[src], g.nodes[dst], link)] + Named(g);
  }

  // ---------------------------------------------------------------------------------------------
  // Removing an edge
  // ---------------------------------------------------------------------------------------------

  lemma {:induction false} WithoutAt<T(!new)>(s: seq<T>, x: T, i: nat)
    requires NoDup(s) && i < |s| && s[i] == x
    ensures Without(s, x) == s[..i] + s[i + 1..]
  {
    var init := s[..|s| - 1];
    if i == |s| - 1 {
      WithoutAbsent(init, x);
      assert s[..i] + s[i + 1..] == init;
    } else {
      WithoutAt(init, x, i);
      assert s[..i] + s[i + 1..] == (init[..i] + init[i + 1..]) + [s[|s| - 1]];
    }
  }

  lemma {:induction false} WithoutAbsent<T(!new)>(s: seq<T>, x: T)
    requires x !in s
    ensures Without(s, x) == s
  {
    if s != [] {
      WithoutAbsent(s[..|s| - 1], x);
      assert s == s[..|s| - 1] + [s[|s| - 1]];
    }
  }

  lemma {:induction false} WithoutNoDup<T(!new)>(s: seq<T>, x: T)
    requires NoDup(s)
    ensures NoDup(Without(s, x))
  {
    if s != [] {
      WithoutNoDup(s[..|s| - 1], x);
      assert s[|s| - 1] !in s[..|s| - 1];
    }
  }

  lemma RenumberedPermutes(order: seq<nat>, e: nat, n: nat)
    requires Permutes(order, n) && e < n
    ensures Permutes(RenamedAll(Without(order, e), n - 1, e), n - 1)
  {
    var kept := Without(order, e);
    var renumbered := RenamedAll(kept, n - 1, e);
    WithoutNoDup(order, e);
    forall i | 0 <= i < |kept| ensures kept[i] < n && kept[i] != e {
      assert kept[i] in kept;
      var k :| 0 <= k < |order| && order[k] == kept[i];
    }
    forall x: nat | x < n - 1 ensures x in renumbered {
      var y := if x == e then n - 1 else x;
      assert y in order && y in kept;
      var i :| 0 <= i < |kept| && kept[i] == y;
      assert renumbered[i] == x;
    }
  }

  /** Removing an edge takes exactly that edge out of the named list, wherever the last slot moves. */
  lemma RemoveEdgeNamed(g: Graph, e: nat, i: nat)
    requires GraphOk(g) && e < |g.edges| && i < |g.order| && g.order[i] == e
    ensures GraphOk(RemoveEdge(g, e))
    ensures Named(RemoveEdge(g, e)) == Named(g)[..i] + Named(g)[i + 1..]
  {
    var g' := RemoveEdge(g, e);
    RenumberedPermutes(g.order, e, |g.edges|);
    assert GraphOk(g');
    WithoutAt(g.order, e, i);
    var kept := g.order[..i] + g.order[i + 1..];
    var left := Named(g)[..i] + Named(g)[i + 1..];
    forall k | 0 <= k < |kept| ensures Named(g')[k] == left[k] {
      assert kept[k] == if k < i then g.order[k] else g.order[k + 1];
      assert g'.order[k] == Renamed(kept[k], |g.edges| - 1, e);
      assert kept[k] != e && kept[k] < |g.edges|;
      assert g'.edges[g'.order[k]] == g.edges[kept[k]];
    }
    assert |Named(g')| == |left|;
  }
}
