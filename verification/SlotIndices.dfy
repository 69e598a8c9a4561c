/** The link graph as it is stored: indices hold node slots, and slots renumber when a node goes. */
module SlotIndices {
  import opened Wrappers
  import opened Sequences
  import opened Notes
  import opened Digraphs
  import opened GraphRemoval
  import opened LinkTargets
  import opened Texts
  import opened ListIndices
  import opened LinkViews

  datatype Slots = Slots(text: Text, graph: Graph, files: map<string, seq<nat>>, aliases: map<string, seq<nat>>,
                         paths: map<NotePath, nat>, suffixes: map<seq<string>, seq<nat>>,
                         unresolved: map<NotePath, seq<Link>>)

  ghost predicate AllBelow(ids: seq<nat>, n: nat) {
    forall i :: 0 <= i < |ids| ==> ids[i] < n
  }

  ghost predicate InRange<K(!new)>(m: map<K, seq<nat>>, n: nat) {
    forall k :: k in m ==> AllBelow(m[k], n)
  }

  ghost predicate PathsOk(nodes: seq<NotePath>, paths: map<NotePath, nat>) {
    && (forall p :: p in paths ==> paths[p] < |nodes| && nodes[paths[p]] == p)
    && forall i :: 0 <= i < |nodes| ==> nodes[i] in paths
  }

  ghost predicate SlotsOk(s: Slots) {
    && GraphOk(s.graph) && PathsOk(s.graph.nodes, s.paths)
    && InRange(s.files, |s.graph.nodes|) && InRange(s.aliases, |s.graph.nodes|) && InRange(s.suffixes, |s.graph.nodes|)
  }

  function Names(nodes: seq<NotePath>, ids: seq<nat>): (names: seq<NotePath>)
    requires forall i :: 0 <= i < |ids| ==> ids[i] < |nodes|
  {
    seq(|ids|, i requires 0 <= i < |ids| => nodes[ids[i]])
  }

  ghost function ByPath<K(!new)>(nodes: seq<NotePath>, m: map<K, seq<nat>>): map<K, seq<NotePath>>
    requires InRange(m, |nodes|)
  {
    map k | k in m :: Names(nodes, m[k])
  }

  ghost function TableOf(s: Slots): NameTable
    requires SlotsOk(s)
  {
    var nodes := s.graph.nodes;
    NameTable(s.text, ByPath(nodes, s.files), ByPath(nodes, s.aliases), ByPath(nodes, s.suffixes))
  }

  ghost function ViewOf(s: Slots): LinkView
    requires SlotsOk(s)
  {
    LinkView(s.paths.Keys, TableOf(s), Named(s.graph), s.unresolved)
  }

  // ---------------------------------------------------------------------------------------------
  // Entering a node
  // ---------------------------------------------------------------------------------------------

  lemma ByPathGrows<K(!new)>(nodes: seq<NotePath>, p: NotePath, m: map<K, seq<nat>>)
    requires InRange(m, |nodes|)
    ensures InRange(m, |nodes + [p]|) && ByPath(nodes + [p], m) == ByPath(nodes, m)
  {
    forall k | k in m ensures AllBelow(m[k], |nodes + [p]|) && Names(nodes + [p], m[k]) == Names(nodes, m[k]) {
      assert AllBelow(m[k], |nodes|);
    }
  }

  lemma ByPathPush<K(!new)>(nodes: seq<NotePath>, m: map<K, seq<nat>>, k: K, x: nat)
    requires InRange(m, |nodes|) && x < |nodes|
    ensures InRange(Push(m, k, x), |nodes|)
    ensures ByPath(nodes, Push(m, k, x)) == Push(ByPath(nodes, m), k, nodes[x])
  {
    var m' := Push(m, k, x);
    assert k in m ==> AllBelow(m[k], |nodes|);
    assert AllBelow(At(m, k) + [x], |nodes|);
    assert Names(nodes, At(m, k) + [x]) == At(ByPath(nodes, m), k) + [nodes[x]];
    forall j | j in m' ensures AllBelow(m'[j], |nodes|) {
    }
  }

  lemma {:induction false} ByPathPushSuffixes(nodes: seq<NotePath>, m: map<seq<string>, seq<nat>>, keys: seq<string>, i: nat, x: nat)
    requires InRange(m, |nodes|) && x < |nodes| && i <= |keys|
    ensures InRange(PushSuffixes(m, keys, i, x), |nodes|)
    ensures ByPath(nodes, PushSuffixes(m, keys, i, x)) == PushSuffixes(ByPath(nodes, m), keys, i, nodes[x])
    decreases |keys| - i
  {
    if i < |keys| {
      ByPathPushSuffixes(nodes, m, keys, i + 1, x);
      ByPathPush(nodes, PushSuffixes(m, keys, i + 1, x), keys[i..], x);
    }
  }

  lemma NamesContain(nodes: seq<NotePath>, ids: seq<nat>, x: nat)
    requires NoDup(nodes) && AllBelow(ids, |nodes|) && x < |nodes|
    ensures x in ids <==> nodes[x] in Names(nodes, ids)
  {
    if x in ids {
      var i :| 0 <= i < |ids| && ids[i] == x;
      assert Names(nodes, ids)[i] == nodes[x];
    }
    if nodes[x] in Names(nodes, ids) {
      var i :| 0 <= i < |ids| && Names(nodes, ids)[i] == nodes[x];
      assert ids[i] == x;
    }
  }

  lemma {:induction false} ByPathPushAliases(text: Text, nodes: seq<NotePath>, m: map<string, seq<nat>>, aliases: seq<string>, x: nat)
    requires NoDup(nodes) && InRange(m, |nodes|) && x < |nodes|
    ensures InRange(PushAliases(text, m, aliases, x), |nodes|)
    ensures ByPath(nodes, PushAliases(text, m, aliases, x)) == PushAliases(text, ByPath(nodes, m), aliases, nodes[x])
  {
    if aliases != [] {
      var init, key := aliases[..|aliases| - 1], text.lower(aliases[|aliases| - 1]);
      ByPathPushAliases(text, nodes, m, init, x);
      var before := PushAliases(text, m, init, x);
      ByPathPush(nodes, before, key, x);
      assert key in before ==> AllBelow(before[key], |nodes|);
      NamesContain(nodes, At(before, key), x);
      assert At(ByPath(nodes, before), key) == Names(nodes, At(before, key));
      if x in At(before, key) {
        assert before[key := At(before, key)] == before;
        assert ByPath(nodes, before)[key := At(ByPath(nodes, before), key)] == ByPath(nodes, before);
      }
    }
  }

  /** The stored graph with a node entered for a new path. */
  function Entered(s: Slots, p: NotePath): Slots {
    var x: nat := |s.graph.nodes|;
    s.(graph := AddNode(s.graph, p), paths := s.paths[p := x],
       files := PushStem(s.text, s.files, p, x), suffixes := PushSuffixes(s.suffixes, Keyed(s.text, p), 0, x))
  }

  lemma EnteredIsAdmitted(s: Slots, p: NotePath)
    requires SlotsOk(s) && p !in s.paths
    ensures SlotsOk(Entered(s, p)) && ViewOf(Entered(s, p)) == Admit(ViewOf(s), p)
  {
    hide GraphOk, Named, StemKey;
    var nodes, x := s.graph.nodes, |s.graph.nodes|;
    var more := nodes + [p];
    AddNodeKeeps(s.graph, p);
    ByPathGrows(nodes, p, s.files);
    ByPathGrows(nodes, p, s.aliases);
    ByPathGrows(nodes, p, s.suffixes);
    match StemKey(s.text, p) {
      case None =>
      case Some(key) => ByPathPush(more, s.files, key, x);
    }
    ByPathPushSuffixes(more, s.suffixes, Keyed(s.text, p), 0, x);
    assert s.paths[p := x].Keys == s.paths.Keys + {p};
  }

  lemma AliasedIsWithAliases(s: Slots, p: NotePath, aliases: seq<string>)
    requires SlotsOk(s) && p in s.paths
    ensures var after := s.(aliases := PushAliases(s.text, s.aliases, aliases, s.paths[p]));
            SlotsOk(after) && ViewOf(after) == WithAliases(ViewOf(s), p, aliases)
  {
    hide Named;
    ByPathPushAliases(s.text, s.graph.nodes, s.aliases, aliases, s.paths[p]);
  }

  // ---------------------------------------------------------------------------------------------
  // Removing a node
  // ---------------------------------------------------------------------------------------------

  function RenameEach<K>(m: map<K, seq<nat>>, from: nat, to: nat): map<K, seq<nat>> {
    map k | k in m :: RenamedAll(m[k], from, to)
  }

  /** The node list once the last node has moved into slot `x`. */
  function Freed(nodes: seq<NotePath>, x: nat): seq<NotePath>
    requires x < |nodes|
  {
    nodes[x := nodes[|nodes| - 1]][..|nodes| - 1]
  }

  lemma {:induction false} NamesWithout(nodes: seq<NotePath>, ids: seq<nat>, x: nat)
    requires NoDup(nodes) && AllBelow(ids, |nodes|) && x < |nodes|
    ensures AllBelow(Without(ids, x), |nodes|)
    ensures Names(nodes, Without(ids, x)) == Without(Names(nodes, ids), nodes[x])
  {
    if ids != [] {
      var init, last := ids[..|ids| - 1], ids[|ids| - 1];
      NamesWithout(nodes, init, x);
      assert nodes[last] == nodes[x] <==> last == x;
      assert Names(nodes, ids) == Names(nodes, init) + [nodes[last]];
      assert (Names(nodes, init) + [nodes[last]])[..|init|] == Names(nodes, init);
      if last != x {
        assert Names(nodes, Without(init, x) + [last]) == Names(nodes, Without(init, x)) + [nodes[last]];
      }
    }
  }

  /** Renaming the last slot to the freed one leaves every other list entry its name. */
  lemma NamesRenamed(nodes: seq<NotePath>, ids: seq<nat>, x: nat)
    requires AllBelow(ids, |nodes|) && x < |nodes| && x !in ids
    ensures AllBelow(RenamedAll(ids, |nodes| - 1, x), |nodes| - 1)
    ensures Names(Freed(nodes, x), RenamedAll(ids, |nodes| - 1, x)) == Names(nodes, ids)
  {
    var last := |nodes| - 1;
    forall i | 0 <= i < |ids|
      ensures Renamed(ids[i], last, x) < last && Freed(nodes, x)[Renamed(ids[i], last, x)] == nodes[ids[i]]
    {
      assert ids[i] in ids;
    }
  }

  lemma ListRemoved(nodes: seq<NotePath>, ids: seq<nat>, x: nat)
    requires NoDup(nodes) && AllBelow(ids, |nodes|) && x < |nodes|
    ensures var left := RenamedAll(Without(ids, x), |nodes| - 1, x);
            && (Without(ids, x) == [] <==> Without(Names(nodes, ids), nodes[x]) == [])
            && AllBelow(left, |Freed(nodes, x)|)
            && Names(Freed(nodes, x), left) == Without(Names(nodes, ids), nodes[x])
  {
    hide Without, NoDup;
    NamesWithout(nodes, ids, x);
    NamesRenamed(nodes, Without(ids, x), x);
  }

  lemma ByPathRemoved<K(!new)>(nodes: seq<NotePath>, m: map<K, seq<nat>>, x: nat)
    requires NoDup(nodes) && InRange(m, |nodes|) && x < |nodes|
    ensures var m' := RenameEach(DropEach(m, x), |nodes| - 1, x);
            InRange(m', |Freed(nodes, x)|) && ByPath(Freed(nodes, x), m') == DropEach(ByPath(nodes, m), nodes[x])
  {
    hide Without, RenamedAll, Names, Freed, NoDup;
    forall k | k in m
      ensures AllBelow(m[k], |nodes|)
      ensures Without(m[k], x) == [] <==> Without(Names(nodes, m[k]), nodes[x]) == []
      ensures AllBelow(RenamedAll(Without(m[k], x), |nodes| - 1, x), |Freed(nodes, x)|)
      ensures Names(Freed(nodes, x), RenamedAll(Without(m[k], x), |nodes| - 1, x)) == Without(Names(nodes, m[k]), nodes[x])
    {
      ListRemoved(nodes, m[k], x);
    }
  }

  /** The stored graph with the node of `q` removed. */
  function Vacated(s: Slots, q: NotePath): Slots
    requires q in s.paths && s.paths[q] < |s.graph.nodes|
  {
    var x, last := s.paths[q], |s.graph.nodes| - 1;
    Slots(s.text, RemoveNode(s.graph, x),
          RenameEach(DropEach(s.files, x), last, x), RenameEach(DropEach(s.aliases, x), last, x),
          if x == last then s.paths - {q} else (s.paths - {q})[s.graph.nodes[last] := x],
          RenameEach(DropEach(s.suffixes, x), last, x), s.unresolved - {q})
  }

  lemma PathsFreed(nodes: seq<NotePath>, paths: map<NotePath, nat>, q: NotePath)
    requires NoDup(nodes) && PathsOk(nodes, paths) && q in paths
    ensures var x, last := paths[q], |nodes| - 1;
            var after := if x == last then paths - {q} else (paths - {q})[nodes[last] := x];
            PathsOk(Freed(nodes, x), after) && after.Keys == paths.Keys - {q}
  {
    var x, last := paths[q], |nodes| - 1;
    var after := if x == last then paths - {q} else (paths - {q})[nodes[last] := x];
    var freed := Freed(nodes, x);
    assert nodes[last] in paths && nodes[x] == q;
    assert after.Keys == paths.Keys - {q};
    forall p | p in after ensures after[p] < |freed| && freed[after[p]] == p {
      assert p in paths && nodes[paths[p]] == p && p != q;
    }
    forall i | 0 <= i < |freed| ensures freed[i] in after {
      assert freed[i] == if i == x then nodes[last] else nodes[i];
      assert nodes[i] in paths;
    }
  }

  lemma RemoveNodeFrees(g: Graph, x: nat)
    requires GraphOk(g) && x < |g.nodes|
    ensures GraphOk(RemoveNode(g, x)) && RemoveNode(g, x).nodes == Freed(g.nodes, x)
    ensures Named(RemoveNode(g, x)) == Others(Named(g), TouchingNote(g.nodes[x]))
  {
    hide GraphOk, Named, RemoveNode;
    RemoveNodeNamed(g, x);
  }

  /** Whichever slot the last node moves to, by path the removal is just forgetting `q`. */
  lemma VacatedIsForgotten(s: Slots, q: NotePath)
    requires SlotsOk(s) && q in s.paths
    ensures SlotsOk(Vacated(s, q)) && ViewOf(Vacated(s, q)) == Forget(ViewOf(s), q)
  {
    hide Named, Others, RemoveNode, Freed, RenameEach, DropEach, ByPath, InRange, NoDup;
    var x := s.paths[q];
    RemoveNodeFrees(s.graph, x);
    ByPathRemoved(s.graph.nodes, s.files, x);
    ByPathRemoved(s.graph.nodes, s.aliases, x);
    ByPathRemoved(s.graph.nodes, s.suffixes, x);
    PathsFreed(s.graph.nodes, s.paths, q);
  }

  // ---------------------------------------------------------------------------------------------
  // The file index is touched at one key only
  // ---------------------------------------------------------------------------------------------

  ghost predicate OnlyUnder<K(!new)>(m: map<K, seq<nat>>, x: nat, key: Option<K>) {
    forall k :: x in At(m, k) ==> key == Some(k)
  }

  lemma StemOnly(s: Slots, x: nat)
    requires SlotsOk(s) && ViewOk(ViewOf(s)) && x < |s.graph.nodes|
    ensures OnlyUnder(s.files, x, StemKey(s.text, s.graph.nodes[x]))
    ensures forall k :: k in s.files ==> s.files[k] != []
  {
    hide StemKey, IsSuffixKey, Named;
    var names := TableOf(s);
    forall k | x in At(s.files, k) ensures StemKey(s.text, s.graph.nodes[x]) == Some(k) {
      assert AllBelow(s.files[k], |s.graph.nodes|);
      NamesContain(s.graph.nodes, s.files[k], x);
      assert s.graph.nodes[x] in At(names.files, k);
    }
    forall k | k in s.files ensures s.files[k] != [] {
      assert ListOk(names.files[k], s.paths.Keys);
    }
  }

  function DropAt<K(==)>(m: map<K, seq<nat>>, k: K, x: nat): map<K, seq<nat>> {
    if k !in m then m else if Without(m[k], x) == [] then m - {k} else m[k := Without(m[k], x)]
  }

  function RenameAt<K(==)>(m: map<K, seq<nat>>, k: K, from: nat, to: nat): map<K, seq<nat>> {
    if k !in m then m else m[k := RenamedAll(m[k], from, to)]
  }

  lemma WithoutElsewhere<K(!new)>(m: map<K, seq<nat>>, x: nat, key: Option<K>)
    requires OnlyUnder(m, x, key)
    ensures forall k :: k in m && key != Some(k) ==> Without(m[k], x) == m[k]
  {
    hide Without;
    forall k | k in m && key != Some(k) ensures Without(m[k], x) == m[k] {
      assert x !in At(m, k);
      WithoutAbsent(m[k], x);
    }
  }

  /** Dropping under the one key there is drops everywhere. */
  lemma DropAtOneKey<K(!new)>(m: map<K, seq<nat>>, x: nat, key: Option<K>)
    requires OnlyUnder(m, x, key) && forall k :: k in m ==> m[k] != []
    ensures DropEach(m, x) == if key.None? then m else DropAt(m, key.value, x)
  {
    hide Without, OnlyUnder;
    WithoutElsewhere(m, x, key);
    var after := if key.None? then m else DropAt(m, key.value, x);
    forall k ensures k in DropEach(m, x) <==> k in after {
    }
    forall k | k in after ensures DropEach(m, x)[k] == after[k] {
    }
  }

  lemma RenameAtOneKey<K(!new)>(m: map<K, seq<nat>>, from: nat, to: nat, key: Option<K>)
    requires OnlyUnder(m, from, key)
    ensures RenameEach(m, from, to) == if key.None? then m else RenameAt(m, key.value, from, to)
  {
    hide RenamedAll;
    forall k | k in m && key != Some(k) ensures RenamedAll(m[k], from, to) == m[k] {
      assert from !in At(m, k);
      forall i | 0 <= i < |m[k]| ensures m[k][i] != from {
        assert m[k][i] in m[k];
      }
    }
  }

  lemma OnlyUnderDropped<K(!new)>(m: map<K, seq<nat>>, from: nat, x: nat, key: Option<K>)
    requires OnlyUnder(m, from, key)
    ensures OnlyUnder(DropEach(m, x), from, key)
  {
    forall k | from in At(DropEach(m, x), k) ensures key == Some(k) {
      assert from in At(m, k);
    }
  }

  lemma RenameToItself<K(!new)>(m: map<K, seq<nat>>, x: nat)
    ensures RenameEach(m, x, x) == m
  {
    forall k | k in m ensures RenamedAll(m[k], x, x) == m[k] {
    }
  }

  // ---------------------------------------------------------------------------------------------
  // Resolution by slot
  // ---------------------------------------------------------------------------------------------

  /** The slot whose path has the fewest components, the first such on ties. */
  function ShortestSlot(nodes: seq<NotePath>, ids: seq<nat>): (x: nat)
    requires ids != [] && forall i :: 0 <= i < |ids| ==> ids[i] < |nodes|
    ensures x in ids
  {
    if |ids| == 1 then ids[0]
    else
      var best, last := ShortestSlot(nodes, ids[..|ids| - 1]), ids[|ids| - 1];
      if |nodes[last]| < |nodes[best]| then last else best
  }

  lemma {:induction false} ShortestSlotNamed(nodes: seq<NotePath>, ids: seq<nat>)
    requires ids != [] && AllBelow(ids, |nodes|)
    ensures nodes[ShortestSlot(nodes, ids)] == Shortest(Names(nodes, ids))
  {
    if |ids| > 1 {
      ShortestSlotNamed(nodes, ids[..|ids| - 1]);
      assert Names(nodes, ids)[..|ids| - 1] == Names(nodes, ids[..|ids| - 1]);
    }
  }

  /** The slot the parts of a target lead to: by stem, then by alias, then by path suffix. */
  function SlotFor(nodes: seq<NotePath>, files: map<string, seq<nat>>, aliases: map<string, seq<nat>>,
                   suffixes: map<seq<string>, seq<nat>>, parts: seq<string>): Option<nat>
    requires parts != [] && InRange(suffixes, |nodes|)
  {
    if |parts| == 1 && At(files, parts[0]) != [] then Some(At(files, parts[0])[0])
    else if At(aliases, Join(parts)) != [] then Some(At(aliases, Join(parts))[0])
    else
      var candidates := At(suffixes, parts);
      if |candidates| == 1 then Some(candidates[0])
      else if candidates != [] then
        assert parts in suffixes && AllBelow(suffixes[parts], |nodes|);
        Some(ShortestSlot(nodes, candidates))
      else None
  }

  lemma SlotForNamed(s: Slots, parts: seq<string>)
    requires SlotsOk(s) && parts != []
    ensures var slot := SlotFor(s.graph.nodes, s.files, s.aliases, s.suffixes, parts);
            && (slot.Some? ==> slot.value < |s.graph.nodes|)
            && (if slot.None? then None else Some(s.graph.nodes[slot.value])) == ResolveParts(TableOf(s), parts)
  {
    hide GraphOk, Join, ByPath, InRange;
    var nodes := s.graph.nodes;
    AtByPath(nodes, s.files, parts[0]);
    AtByPath(nodes, s.aliases, Join(parts));
    AtByPath(nodes, s.suffixes, parts);
    var candidates := At(s.suffixes, parts);
    if candidates != [] {
      ShortestSlotNamed(nodes, candidates);
    }
  }

  /** A new edge changes the view by that edge alone. */
  lemma Connected(s: Slots, src: nat, dst: nat, link: Link)
    requires SlotsOk(s) && src < |s.graph.nodes| && dst < |s.graph.nodes|
    ensures var after := s.(graph := AddEdge(s.graph, src, dst, link));
            && SlotsOk(after)
            && ViewOf(after)
            == ViewOf(s).(edges := [NamedEdge(s.graph.nodes[src], s.graph.nodes[dst], link)] + ViewOf(s).edges)
  {
    hide GraphOk, Named;
    AddEdgeKeeps(s.graph, src, dst, link);
  }

  /** The stored unresolved links show in the view as they are. */
  lemma StoredLinksShow(s: Slots, unresolved: map<NotePath, seq<Link>>)
    requires SlotsOk(s)
    ensures SlotsOk(s.(unresolved := unresolved))
    ensures ViewOf(s.(unresolved := unresolved)) == ViewOf(s).(unresolved := unresolved)
  {
  }

  lemma SlotOf(s: Slots, p: NotePath)
    requires SlotsOk(s) && p in s.paths
    ensures s.paths[p] < |s.graph.nodes| && s.graph.nodes[s.paths[p]] == p
    ensures forall x: nat :: x < |s.graph.nodes| ==> (s.graph.nodes[x] == p <==> x == s.paths[p])
  {
  }

  lemma AtByPath<K(!new)>(nodes: seq<NotePath>, m: map<K, seq<nat>>, k: K)
    requires InRange(m, |nodes|)
    ensures AllBelow(At(m, k), |nodes|) && At(ByPath(nodes, m), k) == Names(nodes, At(m, k))
  {
    assert k in m ==> AllBelow(m[k], |nodes|);
  }
}
