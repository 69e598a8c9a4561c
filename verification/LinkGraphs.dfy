/** The link graph object: its indices and graph updated in place. */
module LinkGraphs {
  import opened Wrappers
  import opened Sequences
  import opened Notes
  import opened Digraphs
  import opened GraphRemoval
  import opened LinkTargets
  import opened Texts
  import opened ListIndices
  import opened LinkViews
  import opened LinkAccounts
  import opened LinkRuns
  import opened SlotIndices
  import opened LinkSteps
  import opened Distances

  class LinkGraph {
    const text: Text
    var graph: Graph
    var fileIndex: map<string, seq<nat>>
    var aliasIndex: map<string, seq<nat>>
    var pathIndex: map<NotePath, nat>
    var unresolved: map<NotePath, seq<Link>>
    var suffixIndex: map<seq<string>, seq<nat>>

    ghost function Stored(): Slots
      reads this
    {
      Slots(text, graph, fileIndex, aliasIndex, pathIndex, suffixIndex, unresolved)
    }

    ghost predicate Valid()
      reads this
    {
      SlotsOk(Stored()) && ViewOk(ViewOf(Stored()))
    }

    /** What the graph says, by path. */
    ghost function View(): LinkView
      requires SlotsOk(Stored())
      reads this
    {
      ViewOf(Stored())
    }

    constructor (text: Text)
      ensures Valid() && View() == EmptyView(text)
    {
      this.text := text;
      graph := Graph([], [], []);
      fileIndex, aliasIndex, suffixIndex := map[], map[], map[];
      pathIndex, unresolved := map[], map[];
      new;
      assert Named(graph) == [];
      EmptyIsOk(text);
    }

    // -------------------------------------------------------------------------------------------
    // Resolving
    // -------------------------------------------------------------------------------------------

    /** The slot a link target resolves to: by stem, then by alias, then by path suffix. */
    function ResolveLink(target: string): (slot: Option<nat>)
      requires SlotsOk(Stored())
      reads this
      ensures slot.Some? ==> slot.value < |graph.nodes|
      ensures (if slot.None? then None else Some(graph.nodes[slot.value])) == Resolve(TableOf(Stored()), target)
    {
      match Normalize(text, target)
      case None => None
      case Some(parts) =>
        SlotForNamed(Stored(), parts);
        SlotFor(graph.nodes, fileIndex, aliasIndex, suffixIndex, parts)
    }

    // -------------------------------------------------------------------------------------------
    // Adding a file
    // -------------------------------------------------------------------------------------------

    /** Create a node and enter it under its path, its stem and every suffix of its path. */
    method EnterNode(path: NotePath) returns (idx: nat)
      requires Valid() && path !in pathIndex
      modifies `graph, `pathIndex, `fileIndex, `suffixIndex
      ensures Valid() && View() == Admit(old(View()), path)
      ensures path in pathIndex && pathIndex[path] == idx
    {
      hide SlotsOk, ViewOk, ViewOf, Admit, StemKey, Keyed, AddNode, PushStem;
      ghost var before := Stored();
      idx := |graph.nodes|;
      graph := AddNode(graph, path);
      pathIndex := pathIndex[path := idx];
      var stem := StemKey(text, path);
      if stem.Some? {
        fileIndex := Push(fileIndex, stem.value, idx);
      }
      StemPushed(text, before.files, path, idx);
      EnterSuffixes(Keyed(text, path), idx);
      assert Stored() == Entered(before, path);
      EnteredIsAdmitted(before, path);
      ShowsStored(before);
      AdmittedIsOk(ViewOf(before), path);
    }

    /** Enter a node under every suffix of its path's components, shortest first. */
    method EnterSuffixes(components: seq<string>, idx: nat)
      modifies `suffixIndex
      ensures suffixIndex == PushSuffixes(old(suffixIndex), components, 0, idx)
    {
      var i: nat := |components|;
      while i > 0
        invariant i <= |components|
        invariant suffixIndex == PushSuffixes(old(suffixIndex), components, i, idx)
      {
        i := i - 1;
        suffixIndex := Push(suffixIndex, components[i..], idx);
      }
    }

    /** Add a file, or only its aliases if the graph knows it, and reconcile. */
    method AddFile(file: NoteFile) returns (ghost order: seq<NotePath>)
      requires Valid()
      modifies this
      ensures Valid() && Settled(View())
      ensures Happens(old(View()), Added(file, order), View())
    {
      hide SlotsOk, ViewOk, Settled, Admit, Reconciled, Lists;
      ghost var start := View();
      ShowsStored(Stored());
      var idx;
      if file.path in pathIndex {
        idx := pathIndex[file.path];
      } else {
        idx := EnterNode(file.path);
      }
      ghost var known := Stored();
      assert ViewOf(known) == Known(start, file.path);
      EnterAliases(file.aliases, file.path, idx);
      IndexedKeepsOk(start, file);
      order := ReconcileUnresolvedLinks();
    }

    /** Enter a node under each of its aliases it is not entered under yet. */
    method EnterAliases(aliases: seq<string>, ghost path: NotePath, idx: nat)
      requires SlotsOk(Stored()) && path in pathIndex && pathIndex[path] == idx
      modifies `aliasIndex
      ensures SlotsOk(Stored()) && View() == WithAliases(old(View()), path, aliases)
    {
      hide SlotsOk, ViewOf;
      ghost var known := Stored();
      var j := 0;
      while j < |aliases|
        invariant j <= |aliases|
        invariant aliasIndex == PushAliases(text, known.aliases, aliases[..j], idx)
      {
        assert aliases[..j + 1][..j] == aliases[..j];
        aliasIndex := PushNew(aliasIndex, text.lower(aliases[j]), idx);
        j := j + 1;
      }
      assert aliases[..j] == aliases;
      AliasedIsWithAliases(known, path, aliases);
    }

    /** Turn every stored link that resolves by now into an edge; sources come in any order. */
    method ReconcileUnresolvedLinks() returns (ghost order: seq<NotePath>)
      requires Valid()
      modifies `graph, `unresolved
      ensures Valid() && Settled(View())
      ensures Lists(order, old(unresolved)) && View() == Reconciled(old(View()), order)
    {
      hide SlotsOk, ViewOk, ViewOf, Settled, Resolved, Unresolvable, Marked, Reconciled, Lists, Midway;
      ghost var start := View();
      ShowsStored(Stored());
      var taken := unresolved;
      unresolved := map[];
      order := [];
      var todo := taken.Keys;
      MidwayBegins(old(Stored()));
      while todo != {}
        invariant todo <= taken.Keys
        invariant Midway(Stored(), start, taken, order, todo)
        decreases |todo|
      {
        // The invariant places every source in pathIndex, so the lookup cannot fail.
        var source :| source in todo;
        MidwayKnows(Stored(), start, taken, order, todo, source);
        ghost var left, before := todo, Stored();
        todo := todo - {source};
        assert todo + {source} == left;
        var remaining := ReconcileSource(source, taken[source]);
        MidwayStep(before, Stored(), start, taken, order, todo, source);
        order := order + [source];
        if remaining != [] {
          unresolved := unresolved[source := remaining];
        }
      }
      MidwayEnds(Stored(), start, order);
      ReconciledKeepsOk(start, order);
    }

    /** Edges for the links of one source that resolve; the others are handed back. */
    method ReconcileSource(source: NotePath, links: seq<Link>) returns (remaining: seq<Link>)
      requires SlotsOk(Stored()) && source in pathIndex
      modifies `graph
      ensures SlotsOk(Stored())
      ensures remaining == Unresolvable(old(View()).names, links)
      ensures var before := old(View());
              View() == before.(edges := Resolved(before.names, source, Marked(links, true)) + before.edges)
    {
      hide SlotsOk, Named, Resolve, Resolved, Unresolvable, Marked, AddEdge, ViewOf, TableOf, ResolveLink;
      ghost var before, names := View(), View().names;
      remaining := [];
      var idx := pathIndex[source];
      var j := 0;
      StartsEmpty(names, source);
      while j < |links|
        invariant j <= |links|
        invariant SlotsOk(Stored())
        invariant remaining == Unresolvable(names, links[..j])
        invariant View() == before.(edges := Resolved(names, source, Marked(links[..j], true)) + before.edges)
      {
        var link := links[j].(valid := true);
        assert links[..j + 1] == links[..j] + [links[j]];
        MarkedAppend(links[..j], links[j], true);
        UnresolvableAppend(names, links[..j], links[j]);
        ShowsStored(Stored());
        var found := ResolveLink(links[j].target);
        Landed(Stored(), before, source, Marked(links[..j], true), link, found);
        if found.None? {
          remaining := remaining + [links[j]];
        } else if found.value != idx {
          graph := AddEdge(graph, idx, found.value, link);
        }
        j := j + 1;
      }
      assert links[..j] == links;
    }

    // -------------------------------------------------------------------------------------------
    // Removing a file
    // -------------------------------------------------------------------------------------------

    /** Take a slot out of every list of an index, and the lists this empties out of the index. */
    static method DropFromLists<K(==, !new)>(index: map<K, seq<nat>>, x: nat) returns (left: map<K, seq<nat>>)
      ensures left == DropEach(index, x)
    {
      left := index;
      var todo := index.Keys;
      while todo != {}
        invariant todo <= index.Keys && left.Keys == index.Keys
        invariant forall k :: k in index ==> left[k] == if k in todo then index[k] else Without(index[k], x)
        decreases |todo|
      {
        var k :| k in todo;
        todo := todo - {k};
        left := left[k := Without(left[k], x)];
      }
      left := map k | k in left && left[k] != [] :: left[k];
    }

    /** Replace one slot by another in every list of an index. */
    static method RenameInLists<K(==, !new)>(index: map<K, seq<nat>>, from: nat, to: nat) returns (renamed: map<K, seq<nat>>)
      ensures renamed == RenameEach(index, from, to)
    {
      renamed := index;
      var todo := index.Keys;
      while todo != {}
        invariant todo <= index.Keys && renamed.Keys == index.Keys
        invariant forall k :: k in index ==> renamed[k] == if k in todo then index[k] else RenamedAll(index[k], from, to)
        decreases |todo|
      {
        var k :| k in todo;
        todo := todo - {k};
        renamed := renamed[k := RenamedAll(renamed[k], from, to)];
      }
    }

    /** Remove a file: by path, the graph without it, whichever slot the last node moves to. */
    method RemoveFile(path: NotePath)
      requires Valid()
      modifies this
      ensures Valid() && Happens(old(View()), Removed(path), View())
      ensures old(Settled(View())) ==> Settled(View())
    {
      hide SlotsOk, ViewOk, ViewOf, Settled, StemKey, RemoveNode, Forget, RenameEach, DropEach, DropAt, RenameAt;
      ghost var before := Stored();
      ShowsStored(before);
      RemoveKeeps(ViewOf(before), path);
      if path in pathIndex {
        SlotOf(before, path);
        FileIndexFollows(before, path);
        VacatedIsForgotten(before, path);
        var idx := pathIndex[path];
        DropFromIndices(path, idx);
        var last: nat := |graph.nodes| - 1;
        var swapped := if last != idx then Some(graph.nodes[last]) else None;
        graph := RemoveNode(graph, idx);
        if swapped.Some? {
          MoveInIndices(swapped.value, last, idx);
        } else {
          RenameToItself(aliasIndex, idx);
          RenameToItself(suffixIndex, idx);
        }
      }
    }

    /** Take a node out of every index. */
    method DropFromIndices(path: NotePath, idx: nat)
      modifies `pathIndex, `unresolved, `fileIndex, `aliasIndex, `suffixIndex
      ensures pathIndex == old(pathIndex) - {path} && unresolved == old(unresolved) - {path}
      ensures var stem := StemKey(text, path);
              fileIndex == if stem.None? then old(fileIndex) else DropAt(old(fileIndex), stem.value, idx)
      ensures aliasIndex == DropEach(old(aliasIndex), idx) && suffixIndex == DropEach(old(suffixIndex), idx)
    {
      hide DropEach, DropAt, StemKey;
      pathIndex := pathIndex - {path};
      unresolved := unresolved - {path};
      var stem := StemKey(text, path);
      if stem.Some? {
        fileIndex := DropAt(fileIndex, stem.value, idx);
      }
      aliasIndex := DropFromLists(aliasIndex, idx);
      suffixIndex := DropFromLists(suffixIndex, idx);
    }

    /** Point every index entry of a node that moved at its new slot. */
    method MoveInIndices(path: NotePath, from: nat, to: nat)
      modifies `pathIndex, `fileIndex, `aliasIndex, `suffixIndex
      ensures pathIndex == old(pathIndex)[path := to]
      ensures var stem := StemKey(text, path);
              fileIndex == if stem.None? then old(fileIndex) else RenameAt(old(fileIndex), stem.value, from, to)
      ensures aliasIndex == RenameEach(old(aliasIndex), from, to) && suffixIndex == RenameEach(old(suffixIndex), from, to)
    {
      hide RenameEach, RenameAt, StemKey;
      pathIndex := pathIndex[path := to];
      var stem := StemKey(text, path);
      if stem.Some? {
        fileIndex := RenameAt(fileIndex, stem.value, from, to);
      }
      aliasIndex := RenameInLists(aliasIndex, from, to);
      suffixIndex := RenameInLists(suffixIndex, from, to);
    }

    // -------------------------------------------------------------------------------------------
    // Updating a file's links
    // -------------------------------------------------------------------------------------------

    /** Replace a note's outgoing edges and stored links by what its links give now. */
    method UpdateLinks(file: NoteFile) returns (ghost cleared: seq<NamedEdge>)
      requires Valid()
      modifies this
      ensures Valid() && Happens(old(View()), Updated(file, cleared), View())
      ensures file.path in old(pathIndex) ==>
                (From(cleared, file.path) == [] <==> InTime(old(graph), old(Outgoing(graph, pathIndex[file.path]))))
      ensures file.path !in old(pathIndex) ==> cleared == old(View()).edges
      ensures old(Settled(View())) && file.path in old(pathIndex) ==> Settled(View())
    {
      hide SlotsOk, ViewOk, ViewOf, Settled, Admit, Linked, Outgoing, InTime, From, Clears, AfterUpdate;
      ghost var start := View();
      ShowsStored(Stored());
      KnownKeepsOk(start, file.path);
      var idx;
      if file.path in pathIndex {
        idx := pathIndex[file.path];
      } else {
        idx := EnterNode(file.path);
      }
      ghost var known := Stored();
      SlotOf(known, file.path);
      ClearingIsExact(known, file.path);
      RemoveOutgoingEdges(idx);
      cleared := Named(graph);
      StoredLinksShow(Stored(), unresolved - {file.path});
      ShowsStored(known);
      unresolved := unresolved - {file.path};
      LinkedIsUpdated(ViewOf(known), start, file, cleared);
      ConnectLinks(file.path, idx, file.links);
      ClearsSame(start, ViewOf(known), file.path, cleared);
      UpdateFollows(start, file, cleared);
    }

    /** Work a note's links in: an edge for each that resolves to another note, the rest stored as broken. */
    method ConnectLinks(path: NotePath, idx: nat, links: seq<Link>)
      requires SlotsOk(Stored()) && path in pathIndex && pathIndex[path] == idx && path !in unresolved
      modifies `graph, `unresolved
      ensures SlotsOk(Stored()) && View() == Linked(old(View()), path, Wanted(text, links))
    {
      hide SlotsOk, ViewOf, Linking, IsGraphLink, AddEdge, Resolve, ResolveLink, TableOf;
      ghost var base := View();
      LinkingBegins(Stored(), path);
      var j := 0;
      while j < |links|
        invariant j <= |links|
        invariant Linking(Stored(), base, path, links[..j])
      {
        assert links[..j + 1] == links[..j] + [links[j]];
        LinkingKnows(Stored(), base, path, links[..j]);
        // Only links that name a note take part; a bare fragment is not one.
        if IsGraphLink(text, links[j]) {
          var found := ResolveLink(links[j].target);
          LinkingStep(Stored(), base, path, links[..j], links[j], found);
          if found.None? {
            unresolved := Push(unresolved, path, links[j].(valid := false));
          } else if found.value != idx {
            graph := AddEdge(graph, idx, found.value, links[j]);
          }
        } else {
          LinkingSkip(Stored(), base, path, links[..j], links[j]);
        }
        j := j + 1;
      }
      assert links[..j] == links;
      LinkingMeans(Stored(), base, path, links);
    }

    /** Collect a node's outgoing edge slots, then remove them one by one. */
    method RemoveOutgoingEdges(idx: nat)
      modifies `graph
      ensures graph == RemoveEach(old(graph), Outgoing(old(graph), idx))
    {
      hide Outgoing, RemoveEdge;
      var outgoing := Outgoing(graph, idx);
      var j := 0;
      while j < |outgoing|
        invariant j <= |outgoing|
        invariant graph == RemoveEach(old(graph), outgoing[..j])
      {
        assert outgoing[..j + 1][..j] == outgoing[..j];
        graph := RemoveEdge(graph, outgoing[j]);
        j := j + 1;
      }
      assert outgoing[..j] == outgoing;
    }

    // -------------------------------------------------------------------------------------------
    // Related notes
    // -------------------------------------------------------------------------------------------

    /** The notes within some number of links of a note, in either direction, nearest first. */
    method RelatedNotes(path: NotePath, maxHops: nat) returns (related: seq<NotePath>, ghost hops: seq<nat>)
      requires Valid()
      ensures path !in pathIndex ==> related == []
      ensures path in pathIndex ==> IsNeighbourhood(View().edges, path, maxHops, related, hops)
    {
      hide SlotsOk, ViewOk, ViewOf, GraphOk, Named, Exploring, IsNeighbourhood, Successors, Predecessors;
      hide Elements, NoDup, InSlots, NotesAt, HopsOf, Stops;
      ShowsStored(Stored());
      related, hops := [], [];
      if path !in pathIndex {
        return;
      }
      SlotOf(Stored(), path);
      var start := pathIndex[path];
      var visited := {start};
      var queue := [Stop(start, 0)];
      ghost var trail, k: nat := queue, 0;
      ExploreBegins(graph, start, maxHops);
      while queue != []
        invariant Exploring(graph, start, maxHops, trail, k, visited, queue, related)
        decreases |graph.nodes| - k
      {
        ExploreHead(graph, start, maxHops, trail, k, visited, queue, related);
        ghost var seen, waiting, told := visited, queue, related;
        ExploringInSlots(graph, start, maxHops, trail, k, visited, queue, related);
        var stop := queue[0];
        queue := queue[1..];
        if stop.hops > 0 {
          related := related + [graph.nodes[stop.slot]];
        }
        if stop.hops < maxHops {
          ghost var new_, more;
          visited, queue, new_ := Discover(Successors(graph, stop.slot), stop.hops + 1, visited, queue);
          visited, queue, more := Discover(Predecessors(graph, stop.slot), stop.hops + 1, visited, queue);
          ExploreStep(graph, start, maxHops, trail, k, seen, waiting, told, new_, more);
          trail := trail + Stops(new_ + more, stop.hops + 1);
        } else {
          ExploreSkip(graph, start, maxHops, trail, k, seen, waiting, told);
        }
        k := k + 1;
      }
      ExploreEnds(graph, start, maxHops, trail, k, visited, related);
      hops := HopsOf(trail[1..]);
    }

    /** Queue the slots not visited yet, in order, and mark them visited. */
    static method Discover(slots: seq<nat>, hops: nat, visited: set<nat>, queue: seq<Stop>)
      returns (nowVisited: set<nat>, nowQueue: seq<Stop>, ghost new_: seq<nat>)
      ensures NoDup(new_) && forall y :: y in new_ <==> y in slots && y !in visited
      ensures nowVisited == visited + Elements(new_)
      ensures nowQueue == queue + Stops(new_, hops)
    {
      nowVisited, nowQueue, new_ := visited, queue, [];
      var j := 0;
      while j < |slots|
        invariant j <= |slots|
        invariant NoDup(new_) && forall y :: y in new_ <==> y in slots[..j] && y !in visited
        invariant nowVisited == visited + Elements(new_)
        invariant nowQueue == queue + Stops(new_, hops)
      {
        assert slots[..j + 1] == slots[..j] + [slots[j]];
        if slots[j] !in nowVisited {
          NoDupConcat(new_, [slots[j]]);
          assert Stops(new_ + [slots[j]], hops) == Stops(new_, hops) + [Stop(slots[j], hops)];
          nowVisited := nowVisited + {slots[j]};
          nowQueue := nowQueue + [Stop(slots[j], hops)];
          new_ := new_ + [slots[j]];
        }
        j := j + 1;
      }
      assert slots[..j] == slots;
    }
  }
}
