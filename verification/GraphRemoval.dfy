/** Removing several edges, or a node, from a graph whose slots renumber underneath. */
module GraphRemoval {
  import opened Sequences
  import opened Notes
  import opened Digraphs

  /** Which named edges are meant. */
  datatype Which = LeavingNote(note: NotePath) | TouchingNote(note: NotePath)

  predicate Meant(which: Which, e: NamedEdge) {
    match which
    case LeavingNote(p) => e.src == p
    case TouchingNote(p) => e.src == p || e.dst == p
  }

  /** The edges that are not meant, in order. */
  function Others(view: seq<NamedEdge>, which: Which): seq<NamedEdge> {
    if view == [] then []
    else
      var rest := Others(view[..|view| - 1], which);
      if Meant(which, view[|view| - 1]) then rest else rest + [view[|view| - 1]]
  }

  function Count(view: seq<NamedEdge>, which: Which): nat {
    if view == [] then 0
    else Count(view[..|view| - 1], which) + if Meant(which, view[|view| - 1]) then 1 else 0
  }

  lemma {:induction false} OthersAre(view: seq<NamedEdge>, which: Which)
    ensures forall e :: e in Others(view, which) <==> e in view && !Meant(which, e)
  {
    if view != [] {
      OthersAre(view[..|view| - 1], which);
      assert view == view[..|view| - 1] + [view[|view| - 1]];
    }
  }

  lemma {:induction false} CountIsZero(view: seq<NamedEdge>, which: Which)
    ensures Count(view, which) == 0 <==> forall e :: e in view ==> !Meant(which, e)
  {
    if view != [] {
      CountIsZero(view[..|view| - 1], which);
      assert view == view[..|view| - 1] + [view[|view| - 1]];
    }
  }

  /** Taking a meant edge out of the list changes the rest not at all and the count by one. */
  lemma {:induction false} TakeOut(view: seq<NamedEdge>, which: Which, i: nat)
    requires i < |view| && Meant(which, view[i])
    ensures Others(view[..i] + view[i + 1..], which) == Others(view, which)
    ensures Count(view[..i] + view[i + 1..], which) + 1 == Count(view, which)
  {
    hide Meant;
    var init, last := view[..|view| - 1], view[|view| - 1];
    if i == |view| - 1 {
      assert view[..i] + view[i + 1..] == init;
    } else {
      TakeOut(init, which, i);
      var without := view[..i] + view[i + 1..];
      assert without == (init[..i] + init[i + 1..]) + [last];
      assert without[..|without| - 1] == init[..i] + init[i + 1..];
    }
  }

  lemma {:induction false} NothingMeant(view: seq<NamedEdge>, which: Which)
    requires Count(view, which) == 0
    ensures Others(view, which) == view
  {
    if view != [] {
      NothingMeant(view[..|view| - 1], which);
      assert view == view[..|view| - 1] + [view[|view| - 1]];
    }
  }

  // ---------------------------------------------------------------------------------------------
  // Removing a list of edge slots in turn
  // ---------------------------------------------------------------------------------------------

  function RemoveEach(g: Graph, ids: seq<nat>): Graph {
    if ids == [] then g else RemoveEdge(RemoveEach(g, ids[..|ids| - 1]), ids[|ids| - 1])
  }

  /** The slots in `ids` all hold edges of `node`, and none is listed twice. */
  ghost predicate EdgesOf(g: Graph, node: nat, ids: seq<nat>) {
    NoDup(ids) && forall i :: 0 <= i < |ids| ==> Leaves(g, ids[i], node)
  }

  /** No slot number comes too late: by its turn, fewer edges have gone than would hide it. */
  predicate InTime(g: Graph, ids: seq<nat>) {
    forall i :: 0 <= i < |ids| ==> ids[i] + i < |g.edges|
  }

  /**
   * Where the removal stands: slots not yet worked on hold what they held, the edges of other
   * notes are all there in order, and what is gone is exactly what was removed.
   */
  ghost predicate Standing(g: Graph, node: nat, ids: seq<nat>, now: Graph)
    requires GraphOk(g) && node < |g.nodes|
  {
    && GraphOk(now) && now.nodes == g.nodes
    && |now.edges| <= |g.edges| <= |now.edges| + |ids|
    && (forall s: nat :: s < |now.edges| && s !in ids ==> now.edges[s] == g.edges[s])
    && Others(Named(now), LeavingNote(g.nodes[node])) == Others(Named(g), LeavingNote(g.nodes[node]))
    && Count(Named(g), LeavingNote(g.nodes[node])) == Count(Named(now), LeavingNote(g.nodes[node])) + (|g.edges| - |now.edges|)
    && (forall x :: x in Named(now) ==> x in Named(g))
    && (|g.edges| == |now.edges| + |ids| <==> InTime(g, ids))
  }

  lemma RemoveOneOfNode(now: Graph, node: nat, e: nat)
    requires GraphOk(now) && node < |now.nodes| && Leaves(now, e, node)
    ensures GraphOk(RemoveEdge(now, e))
    ensures var p := LeavingNote(now.nodes[node]);
            && Others(Named(RemoveEdge(now, e)), p) == Others(Named(now), p)
            && Count(Named(now), p) == Count(Named(RemoveEdge(now, e)), p) + 1
            && forall x :: x in Named(RemoveEdge(now, e)) ==> x in Named(now)
  {
    assert e in now.order;
    var i :| 0 <= i < |now.order| && now.order[i] == e;
    RemoveEdgeNamed(now, e, i);
    TakeOut(Named(now), LeavingNote(now.nodes[node]), i);
  }

  lemma NoneIsInTime(g: Graph)
    ensures InTime(g, [])
  {
  }

  lemma OneMoreInTime(g: Graph, ids: seq<nat>, e: nat)
    ensures InTime(g, ids + [e]) <==> InTime(g, ids) && e + |ids| < |g.edges|
  {
    var more := ids + [e];
    if InTime(g, more) {
      forall i | 0 <= i < |ids| ensures ids[i] + i < |g.edges| {
        assert more[i] == ids[i];
      }
      assert more[|ids|] == e;
    }
  }

  lemma RemoveNothing(g: Graph, e: nat)
    requires e >= |g.edges|
    ensures RemoveEdge(g, e) == g
  {
  }

  lemma RemoveEdgeSlots(g: Graph, e: nat)
    requires e < |g.edges|
    ensures var after := RemoveEdge(g, e);
            && |after.edges| == |g.edges| - 1 && after.nodes == g.nodes
            && forall s: nat :: s < |after.edges| && s != e ==> after.edges[s] == g.edges[s]
  {
  }

  /** Removing slots of one note's edges in turn, whatever order they come in. */
  lemma {:induction false} RemoveEachStands(g: Graph, node: nat, ids: seq<nat>)
    requires GraphOk(g) && node < |g.nodes| && EdgesOf(g, node, ids)
    ensures Standing(g, node, ids, RemoveEach(g, ids))
  {
    hide GraphOk, Named, Others, Count, RemoveEdge, InTime;
    if ids == [] {
      assert InTime(g, ids) by {
        NoneIsInTime(g);
      }
    } else {
      var init, e := ids[..|ids| - 1], ids[|ids| - 1];
      assert ids == init + [e];
      NoDupSplit(init, [e]);
      RemoveEachStands(g, node, init);
      var before := RemoveEach(g, init);
      assert e !in init by {
        assert e in [e];
      }
      OneMoreInTime(g, init, e);
      if e < |before.edges| {
        assert before.edges[e] == g.edges[e];
        RemoveOneOfNode(before, node, e);
        RemoveEdgeSlots(before, e);
      } else {
        RemoveNothing(before, e);
      }
    }
  }

  /** The ids were all of the note's edges: each one counts once. */
  lemma {:induction false} CountIsOutgoing(g: Graph, node: nat, k: nat)
    requires GraphOk(g) && node < |g.nodes| && k <= |g.order|
    ensures Count(Named(g)[..k], LeavingNote(g.nodes[node])) == |OutgoingIn(g, node, g.order[..k])|
  {
    if k > 0 {
      assert Named(g)[..k][..k - 1] == Named(g)[..k - 1] && g.order[..k][..k - 1] == g.order[..k - 1];
      CountIsOutgoing(g, node, k - 1);
      var e := g.order[k - 1];
      assert g.edges[e].src == node <==> g.nodes[g.edges[e].src] == g.nodes[node];
    }
  }

  lemma {:induction false} OutgoingNoDup(g: Graph, node: nat, order: seq<nat>)
    requires NoDup(order)
    ensures NoDup(OutgoingIn(g, node, order))
  {
    if order != [] {
      OutgoingNoDup(g, node, order[..|order| - 1]);
      assert order[|order| - 1] !in order[..|order| - 1];
    }
  }

  /**
   * Removing a note's collected edge slots in turn keeps every other note's edges, in order, and
   * leaves some old edge of the note behind unless every slot number comes in time.
   */
  lemma RemovingOutgoingEdges(g: Graph, node: nat)
    requires GraphOk(g) && node < |g.nodes|
    ensures var after := RemoveEach(g, Outgoing(g, node));
            var own := LeavingNote(g.nodes[node]);
            && GraphOk(after) && after.nodes == g.nodes
            && Others(Named(after), own) == Others(Named(g), own)
            && (forall e :: e in Named(after) ==> e in Named(g))
            && (Count(Named(after), own) == 0 <==> InTime(g, Outgoing(g, node)))
            && (InTime(g, Outgoing(g, node)) ==> Named(after) == Others(Named(g), own))
  {
    var ids := Outgoing(g, node);
    OutgoingNoDup(g, node, g.order);
    forall i | 0 <= i < |ids| ensures Leaves(g, ids[i], node) {
      assert ids[i] in ids;
    }
    RemoveEachStands(g, node, ids);
    CountIsOutgoing(g, node, |g.order|);
    assert Named(g)[..|g.order|] == Named(g) && g.order[..|g.order|] == g.order;
    if InTime(g, ids) {
      NothingMeant(Named(RemoveEach(g, ids)), LeavingNote(g.nodes[node]));
    }
  }

  /** Descending slot numbers, as they are while no removal has moved an edge, always come in time. */
  lemma {:induction false} DescendingIsInTime(g: Graph, ids: seq<nat>)
    requires forall i, j :: 0 <= i < j < |ids| ==> ids[i] > ids[j]
    requires ids != [] ==> ids[0] < |g.edges|
    ensures InTime(g, ids)
  {
    forall i | 0 <= i < |ids| ensures ids[i] + i < |g.edges| {
      DescendsBy(ids, i);
    }
  }

  lemma {:induction false} DescendsBy(ids: seq<nat>, i: nat)
    requires i < |ids| && forall a, b :: 0 <= a < b < |ids| ==> ids[a] > ids[b]
    ensures ids[i] + i <= ids[0]
  {
    if i > 0 {
      DescendsBy(ids, i - 1);
    }
  }

  /** Notes a, b, c: first a link of b, then two of a, so that b's edge sits in slot 0. */
  function ThreeLinks(a: NotePath, b: NotePath, c: NotePath, l0: Link, l1: Link, l2: Link): Graph {
    AddEdge(AddEdge(AddEdge(Graph([a, b, c], [], []), 1, 2, l0), 0, 1, l1), 0, 2, l2)
  }

  lemma ThreeLinksOutgoing(g: Graph)
    requires |g.edges| == 3 && g.edges[0].src == 1 && g.edges[1].src == 0 && g.edges[2].src == 0 && g.order == [2, 1, 0]
    ensures Outgoing(g, 1) == [0]
  {
    var order := g.order;
    assert order[..2] == [2, 1] && order[..2][..1] == [2] && order[..2][..1][..0] == [];
    assert OutgoingIn(g, 1, order[..2][..1]) == [];
    assert OutgoingIn(g, 1, order[..2]) == [];
  }

  lemma ThreeLinksDropFirst(nodes: seq<NotePath>, e0: Edge, e1: Edge, e2: Edge)
    ensures RemoveEdge(Graph(nodes, [e0, e1, e2], [2, 1, 0]), 0) == Graph(nodes, [e2, e1], [0, 1])
  {
    hide Without, RenamedAll;
    var order: seq<nat> := [2, 1, 0];
    var g := Graph(nodes, [e0, e1, e2], order);
    WithoutAt(order, 0, 2);
    assert Without(order, 0) == [2, 1];
    assert RenamedAll([2, 1], 2, 0) == [0, 1];
    assert g.edges[0 := g.edges[2]][..2] == [e2, e1];
  }

  lemma ThreeLinksWithoutFirst(a: NotePath, b: NotePath, c: NotePath, l0: Link, l1: Link, l2: Link)
    ensures var g := ThreeLinks(a, b, c, l0, l1, l2);
            RemoveEach(g, Outgoing(g, 1)) == Graph([a, b, c], [Edge(0, 2, l2), Edge(0, 1, l1)], [0, 1])
  {
    hide Outgoing, RemoveEdge;
    var g := ThreeLinks(a, b, c, l0, l1, l2);
    assert g == Graph([a, b, c], [Edge(1, 2, l0), Edge(0, 1, l1), Edge(0, 2, l2)], [2, 1, 0]);
    ThreeLinksOutgoing(g);
    ThreeLinksDropFirst([a, b, c], Edge(1, 2, l0), Edge(0, 1, l1), Edge(0, 2, l2));
    assert [0][..0] == [] && RemoveEach(g, []) == g;
  }

  lemma TwoLinksLeaveOne(a: NotePath, b: NotePath, c: NotePath, l1: Link, l2: Link)
    ensures var g := Graph([a, b, c], [Edge(0, 2, l2), Edge(0, 1, l1)], [0, 1]);
            Outgoing(g, 0) == [0, 1] && RemoveEach(g, [0, 1]) == Graph([a, b, c], [Edge(0, 1, l1)], [0])
  {
    var e1, e2 := Edge(0, 1, l1), Edge(0, 2, l2);
    var g := Graph([a, b, c], [e2, e1], [0, 1]);
    assert [0, 1][..1] == [0] && [0][..0] == [];
    assert OutgoingIn(g, 0, [0]) == [0];
    assert RemoveEach(g, [0]) == RemoveEdge(g, 0);
    WithoutAt([0, 1], 0, 0);
    assert [0, 1][..0] + [0, 1][1..] == [1] && RenamedAll([1], 1, 0) == [0];
    assert [e2, e1][0 := e1][..1] == [e1];
  }

  /** An update as the graph sees it: the node's outgoing edges go one by one, then its new links come in. */
  function Updated(g: Graph, node: nat, links: seq<(nat, Link)>): Graph {
    if links == [] then RemoveEach(g, Outgoing(g, node))
    else
      var last := links[|links| - 1];
      AddEdge(Updated(g, node, links[..|links| - 1]), node, last.0, last.1)
  }

  /** Three notes just added, then b comes to link to c, and a to b and to c. */
  lemma ThreeLinksByUpdates(a: NotePath, b: NotePath, c: NotePath, l0: Link, l1: Link, l2: Link)
    ensures Updated(Updated(Graph([a, b, c], [], []), 1, [(2, l0)]), 0, [(1, l1), (2, l2)]) == ThreeLinks(a, b, c, l0, l1, l2)
  {
    hide RemoveEdge;
    var empty := Graph([a, b, c], [], []);
    assert Outgoing(empty, 1) == [] && RemoveEach(empty, []) == empty;
    var link: seq<(nat, Link)> := [(2, l0)];
    assert link[..0] == [];
    var one := Updated(empty, 1, link);
    assert Updated(empty, 1, []) == empty;
    assert one == AddEdge(Updated(empty, 1, link[..0]), 1, 2, l0);
    assert AddEdge(empty, 1, 2, l0) == Graph([a, b, c], [Edge(1, 2, l0)], [0]);
    assert [0][..0] == [] && OutgoingIn(one, 0, []) == [] && Outgoing(one, 0) == [] && RemoveEach(one, []) == one;
    var links: seq<(nat, Link)> := [(1, l1), (2, l2)];
    assert links[..1] == [(1, l1)] && links[..1][..0] == [];
    assert Updated(one, 0, links[..1]) == AddEdge(one, 0, 1, l1);
  }

  /**
   * The condition can fail, in a run of nothing but updates: b comes to link to c, a to b and to c,
   * then b to nothing and a to nothing. Once b's edge is gone, a's slots read 0, 1, and removing
   * them in turn leaves one of a's edges standing.
   */
  lemma AnOldEdgeCanSurvive(a: NotePath, b: NotePath, c: NotePath, l0: Link, l1: Link, l2: Link)
    requires a != b && b != c && a != c
    ensures var g := Updated(Updated(Graph([a, b, c], [], []), 1, [(2, l0)]), 0, [(1, l1), (2, l2)]);
            var without := Updated(g, 1, []);
            var after := Updated(without, 0, []);
            && GraphOk(g) && GraphOk(without) && GraphOk(after)
            && !InTime(without, Outgoing(without, 0))
            && Named(after) == [NamedEdge(a, b, l1)]
  {
    hide Updated, Outgoing;
    var empty := Graph([a, b, c], [], []);
    assert GraphOk(empty);
    AddEdgeKeeps(empty, 1, 2, l0);
    var one := AddEdge(empty, 1, 2, l0);
    AddEdgeKeeps(one, 0, 1, l1);
    AddEdgeKeeps(AddEdge(one, 0, 1, l1), 0, 2, l2);
    var g := ThreeLinks(a, b, c, l0, l1, l2);
    assert g.nodes == [a, b, c];
    ThreeLinksByUpdates(a, b, c, l0, l1, l2);
    RemovingOutgoingEdges(g, 1);
    ThreeLinksWithoutFirst(a, b, c, l0, l1, l2);
    UpdatedToNothing(g, 1);
    var without := Updated(g, 1, []);
    UpdatedToNothing(without, 0);
    RemovingOutgoingEdges(without, 0);
    TwoLinksLeaveOne(a, b, c, l1, l2);
    assert [0, 1][1] + 1 >= |without.edges|;
  }

  lemma UpdatedToNothing(g: Graph, node: nat)
    ensures Updated(g, node, []) == RemoveEach(g, Outgoing(g, node))
  {
  }

  // ---------------------------------------------------------------------------------------------
  // Removing a node
  // ---------------------------------------------------------------------------------------------

  /** Unlink the newest outgoing edge until none is left. */
  function DropOutgoing(g: Graph, node: nat): Graph
    decreases |g.edges|
  {
    var ids := Outgoing(g, node);
    if ids == [] then g
    else
      assert ids[0] in ids;
      DropOutgoing(RemoveEdge(g, ids[0]), node)
  }

  function DropIncoming(g: Graph, node: nat): Graph
    decreases |g.edges|
  {
    var ids := Incoming(g, node);
    if ids == [] then g
    else
      assert ids[0] in ids;
      DropIncoming(RemoveEdge(g, ids[0]), node)
  }

  function MoveEnd(e: Edge, from: nat, to: nat): Edge {
    Edge(Renamed(e.src, from, to), Renamed(e.dst, from, to), e.link)
  }

  /** The last node moves into the slot of the removed one. */
  function MoveLastNode(g: Graph, node: nat): Graph
    requires node < |g.nodes|
  {
    var last := |g.nodes| - 1;
    Graph(g.nodes[node := g.nodes[last]][..last],
          seq(|g.edges|, i requires 0 <= i < |g.edges| => MoveEnd(g.edges[i], last, node)), g.order)
  }

  function RemoveNode(g: Graph, node: nat): Graph
    requires node < |g.nodes|
  {
    DropsKeepNodes(g, node);
    MoveLastNode(DropIncoming(DropOutgoing(g, node), node), node)
  }

  lemma {:induction false} DropOutgoingNodes(g: Graph, node: nat)
    ensures DropOutgoing(g, node).nodes == g.nodes
    decreases |g.edges|
  {
    var ids := Outgoing(g, node);
    if ids != [] {
      assert ids[0] in ids;
      DropOutgoingNodes(RemoveEdge(g, ids[0]), node);
    }
  }

  lemma {:induction false} DropIncomingNodes(g: Graph, node: nat)
    ensures DropIncoming(g, node).nodes == g.nodes
    decreases |g.edges|
  {
    var ids := Incoming(g, node);
    if ids != [] {
      assert ids[0] in ids;
      DropIncomingNodes(RemoveEdge(g, ids[0]), node);
    }
  }

  lemma DropsKeepNodes(g: Graph, node: nat)
    ensures DropIncoming(DropOutgoing(g, node), node).nodes == g.nodes
  {
    DropOutgoingNodes(g, node);
    DropIncomingNodes(DropOutgoing(g, node), node);
  }

  lemma RemoveTouching(g: Graph, node: nat, e: nat)
    requires GraphOk(g) && node < |g.nodes| && (Leaves(g, e, node) || Enters(g, e, node))
    ensures GraphOk(RemoveEdge(g, e)) && |RemoveEdge(g, e).edges| < |g.edges|
    ensures Others(Named(RemoveEdge(g, e)), TouchingNote(g.nodes[node])) == Others(Named(g), TouchingNote(g.nodes[node]))
  {
    assert e in g.order;
    var i :| 0 <= i < |g.order| && g.order[i] == e;
    RemoveEdgeNamed(g, e, i);
    TakeOut(Named(g), TouchingNote(g.nodes[node]), i);
  }

  lemma {:induction false} DropOutgoingKeeps(g: Graph, node: nat)
    requires GraphOk(g) && node < |g.nodes|
    ensures var after := DropOutgoing(g, node);
            && GraphOk(after) && after.nodes == g.nodes && Outgoing(after, node) == []
            && Others(Named(after), TouchingNote(g.nodes[node])) == Others(Named(g), TouchingNote(g.nodes[node]))
    decreases |g.edges|
  {
    var ids := Outgoing(g, node);
    if ids != [] {
      assert ids[0] in ids;
      RemoveTouching(g, node, ids[0]);
      DropOutgoingKeeps(RemoveEdge(g, ids[0]), node);
    }
  }

  /** Unlinking incoming edges brings no outgoing edge back. */
  lemma {:induction false} DropIncomingKeeps(g: Graph, node: nat)
    requires GraphOk(g) && node < |g.nodes| && Outgoing(g, node) == []
    ensures var after := DropIncoming(g, node);
            && GraphOk(after) && after.nodes == g.nodes && Incoming(after, node) == [] && Outgoing(after, node) == []
            && Others(Named(after), TouchingNote(g.nodes[node])) == Others(Named(g), TouchingNote(g.nodes[node]))
    decreases |g.edges|
  {
    var ids := Incoming(g, node);
    if ids != [] {
      assert ids[0] in ids;
      RemoveTouching(g, node, ids[0]);
      StillNoOutgoing(g, node, ids[0]);
      DropIncomingKeeps(RemoveEdge(g, ids[0]), node);
    }
  }

  lemma NoneLeaves(g: Graph, node: nat)
    requires GraphOk(g)
    ensures Outgoing(g, node) == [] <==> forall e :: 0 <= e < |g.edges| ==> g.edges[e].src != node
  {
    var ids := Outgoing(g, node);
    forall e: nat | e < |g.edges| ensures Leaves(g, e, node) <==> e in ids {
      assert e in g.order;
    }
    if ids != [] {
      assert ids[0] in ids && Leaves(g, ids[0], node);
    } else {
      forall e | 0 <= e < |g.edges| ensures g.edges[e].src != node {
        assert Leaves(g, e, node) <==> e in ids;
      }
    }
  }

  lemma StillNoOutgoing(g: Graph, node: nat, e: nat)
    requires GraphOk(g) && Outgoing(g, node) == [] && e < |g.edges| && GraphOk(RemoveEdge(g, e))
    ensures Outgoing(RemoveEdge(g, e), node) == []
  {
    hide GraphOk, Outgoing;
    NoneLeaves(g, node);
    NoneLeaves(RemoveEdge(g, e), node);
  }

  lemma NothingTouches(g: Graph, node: nat)
    requires GraphOk(g) && node < |g.nodes| && Outgoing(g, node) == [] && Incoming(g, node) == []
    ensures forall e :: 0 <= e < |g.edges| ==> g.edges[e].src != node && g.edges[e].dst != node
    ensures Count(Named(g), TouchingNote(g.nodes[node])) == 0
  {
    forall e: nat | e < |g.edges| ensures g.edges[e].src != node && g.edges[e].dst != node {
      assert e in g.order;
      assert Leaves(g, e, node) ==> e in Outgoing(g, node);
      assert Enters(g, e, node) ==> e in Incoming(g, node);
    }
    forall e | e in Named(g) ensures !Meant(TouchingNote(g.nodes[node]), e) {
      var i :| 0 <= i < |Named(g)| && Named(g)[i] == e;
      assert g.order[i] < |g.edges|;
    }
    CountIsZero(Named(g), TouchingNote(g.nodes[node]));
  }

  /** With no edge left at the node, moving the last node into its slot renames nothing. */
  lemma MoveLastNodeNamed(g: Graph, node: nat)
    requires GraphOk(g) && node < |g.nodes|
    requires forall e :: 0 <= e < |g.edges| ==> g.edges[e].src != node && g.edges[e].dst != node
    ensures GraphOk(MoveLastNode(g, node)) && Named(MoveLastNode(g, node)) == Named(g)
  {
    var after := MoveLastNode(g, node);
    var last := |g.nodes| - 1;
    SlotFreed(g.nodes, node);
    forall e: nat | e < |g.edges|
      ensures after.edges[e].src < last && after.edges[e].dst < last
      ensures NameEdge(after.nodes, after.edges[e]) == NameEdge(g.nodes, g.edges[e])
    {
    }
    assert GraphOk(after);
    forall i | 0 <= i < |g.order| ensures Named(after)[i] == Named(g)[i] {
      assert g.order[i] < |g.edges|;
    }
  }

  lemma SlotFreed(nodes: seq<NotePath>, node: nat)
    requires NoDup(nodes) && node < |nodes|
    ensures var after := nodes[node := nodes[|nodes| - 1]][..|nodes| - 1];
            NoDup(after) && forall p :: p in after <==> p in nodes && p != nodes[node]
  {
    var last := |nodes| - 1;
    var after := nodes[node := nodes[last]][..last];
    forall p | p in nodes && p != nodes[node] ensures p in after {
      var i :| 0 <= i < |nodes| && nodes[i] == p;
      assert after[if i == last then node else i] == p;
    }
  }

  /** Removing a node takes out exactly the edges at it, and keeps the rest in order. */
  lemma RemoveNodeNamed(g: Graph, node: nat)
    requires GraphOk(g) && node < |g.nodes|
    ensures var after := RemoveNode(g, node);
            && GraphOk(after)
            && Named(after) == Others(Named(g), TouchingNote(g.nodes[node]))
            && after.nodes == g.nodes[node := g.nodes[|g.nodes| - 1]][..|g.nodes| - 1]
  {
    hide GraphOk, Named, Others, Count, DropOutgoing, DropIncoming;
    DropOutgoingKeeps(g, node);
    var once := DropOutgoing(g, node);
    DropIncomingKeeps(once, node);
    var twice := DropIncoming(once, node);
    NothingTouches(twice, node);
    MoveLastNodeNamed(twice, node);
    NothingMeant(Named(twice), TouchingNote(g.nodes[node]));
  }
}
