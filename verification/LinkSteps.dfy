/**
 * The link graph's loops, one step at a time, and what its stored form shows by path: reconciling
 * source by source and link by link, following the two stems' keys of the file index when a node
 * goes, clearing a note's edges, and working its links in. The methods of the object keep these
 * facts as their loop invariants.
 */
module LinkSteps {
  import opened Wrappers
  import opened Sequences
  import opened Notes
  import opened Digraphs
  import opened GraphRemoval
  import opened LinkTargets
  import opened Texts
  import opened ListIndices
  import opened LinkViews
  import opened LinkAccounts
  import opened LinkRuns
  import opened SlotIndices

  /** `order` lists the sources taken that are no longer to do. */
  ghost predicate Visited(order: seq<NotePath>, taken: map<NotePath, seq<Link>>, todo: set<NotePath>) {
    NoDup(order) && forall p :: p in order <==> p in taken && p !in todo
  }

  /** How far reconciling `start` has come with the sources in `order` done and those in `todo` left. */
  ghost predicate Midway(s: Slots, start: LinkView, taken: map<NotePath, seq<Link>>, order: seq<NotePath>, todo: set<NotePath>) {
    && SlotsOk(s) && ViewOk(start) && taken == start.unresolved
    && Visited(order, taken, todo)
    && (forall p :: p in order ==> p in taken)
    && ViewOf(s) == start.(edges := ResolvedFrom(start.names, taken, order) + start.edges,
                           unresolved := RestOf(start.names, taken, todo))
  }

  lemma MidwayBegins(s: Slots)
    requires SlotsOk(s) && ViewOk(ViewOf(s))
    ensures Midway(s.(unresolved := map[]), ViewOf(s), s.unresolved, [], s.unresolved.Keys)
  {
    hide SlotsOk, ViewOk, RestOf, ResolvedFrom, TableOf;
    StoredLinksShow(s, map[]);
    RestEnds(ViewOf(s).names, s.unresolved);
  }

  lemma MidwayKnows(s: Slots, start: LinkView, taken: map<NotePath, seq<Link>>, order: seq<NotePath>, todo: set<NotePath>, p: NotePath)
    requires Midway(s, start, taken, order, todo) && p in taken
    ensures SlotsOk(s) && p in s.paths && ViewOf(s).names == start.names
  {
    hide SlotsOk, NamesOk, RestOf, ResolvedFrom, Visited;
    ShowsStored(s);
  }

  lemma MidwayStep(s: Slots, now: Slots, start: LinkView, taken: map<NotePath, seq<Link>>, order: seq<NotePath>,
                   todo: set<NotePath>, p: NotePath)
    requires p in taken && p !in todo && Midway(s, start, taken, order, todo + {p})
    requires SlotsOk(now) && now.unresolved == s.unresolved
    requires SlotsOk(s)
    requires ViewOf(now) == ViewOf(s).(edges := Resolved(start.names, p, Marked(taken[p], true)) + ViewOf(s).edges)
    ensures var left := Unresolvable(start.names, taken[p]);
            var after := if left == [] then now else now.(unresolved := now.unresolved[p := left]);
            Midway(after, start, taken, order + [p], todo)
  {
    hide SlotsOk, ViewOk, RestOf, ResolvedFrom, Resolved, Unresolvable, Marked, ViewOf;
    var names := start.names;
    VisitStep(order, taken, todo + {p}, p);
    assert todo + {p} - {p} == todo;
    RestStep(names, taken, todo + {p}, p);
    ResolvedFromAppend(names, taken, order, p);
    ShowsStored(now);
    StoredLinksShow(now, now.unresolved[p := Unresolvable(names, taken[p])]);
    assert Resolved(names, p, Marked(taken[p], true)) + (ResolvedFrom(names, taken, order) + start.edges)
        == ResolvedFrom(names, taken, order + [p]) + start.edges;
  }

  lemma MidwayEnds(s: Slots, start: LinkView, order: seq<NotePath>)
    requires Midway(s, start, start.unresolved, order, {})
    ensures SlotsOk(s) && ViewOk(start) && Lists(order, start.unresolved) && ViewOf(s) == Reconciled(start, order)
  {
    hide SlotsOk, ViewOk, RestOf, ResolvedFrom, StillUnresolved, ViewOf;
    RestEnds(start.names, start.unresolved);
  }

  lemma VisitStep(order: seq<NotePath>, taken: map<NotePath, seq<Link>>, todo: set<NotePath>, p: NotePath)
    requires Visited(order, taken, todo) && p in taken && p in todo
    ensures Visited(order + [p], taken, todo - {p})
  {
    NoDupConcat(order, [p]);
  }

  /** One more link of a note worked in: an edge if it resolves to another note, nothing otherwise. */
  lemma Landed(s: Slots, before: LinkView, p: NotePath, done: seq<Link>, link: Link, slot: Option<nat>)
    requires SlotsOk(s) && p in s.paths
    requires ViewOf(s) == before.(edges := Resolved(before.names, p, done) + before.edges)
    requires slot.Some? ==> slot.value < |s.graph.nodes|
    requires (if slot.None? then None else Some(s.graph.nodes[slot.value])) == Resolve(before.names, link.target)
    ensures var after := if slot.None? || slot.value == s.paths[p] then s
                         else s.(graph := AddEdge(s.graph, s.paths[p], slot.value, link));
            && SlotsOk(after)
            && ViewOf(after) == before.(edges := Resolved(before.names, p, done + [link]) + before.edges)
  {
    hide SlotsOk, ViewOf, Resolve, Resolved, AddEdge;
    SlotOf(s, p);
    ResolvedAppend(before.names, p, done, link);
    if slot.Some? && slot.value != s.paths[p] {
      Connected(s, s.paths[p], slot.value, link);
      assert [NamedEdge(p, s.graph.nodes[slot.value], link)] + (Resolved(before.names, p, done) + before.edges)
          == ([NamedEdge(p, s.graph.nodes[slot.value], link)] + Resolved(before.names, p, done)) + before.edges;
    }
  }

  lemma ShowsStored(s: Slots)
    requires SlotsOk(s)
    ensures ViewOf(s).unresolved == s.unresolved && ViewOf(s).notes == s.paths.Keys
    ensures GraphOk(s.graph) && ViewOf(s).names == TableOf(s) && ViewOf(s).edges == Named(s.graph)
  {
  }

  lemma StemPushed(text: Text, files: map<string, seq<nat>>, path: NotePath, idx: nat)
    ensures PushStem(text, files, path, idx)
         == if StemKey(text, path).None? then files else Push(files, StemKey(text, path).value, idx)
  {
  }

  lemma StartsEmpty(names: NameTable, p: NotePath)
    ensures Resolved(names, p, Marked([], true)) == [] && Unresolvable(names, []) == []
  {
  }

  lemma AdmittedIsOk(v: LinkView, p: NotePath)
    requires ViewOk(v) && p !in v.notes
    ensures ViewOk(Admit(v, p))
  {
    hide NamesOk;
    AdmitKeepsNames(v, p);
  }

  // ---------------------------------------------------------------------------------------------
  // Removing a file
  // ---------------------------------------------------------------------------------------------

  /** Touching the file index at the two stems' keys only does what touching every list would do. */
  lemma FileIndexFollows(s: Slots, p: NotePath)
    requires SlotsOk(s) && ViewOk(ViewOf(s)) && p in s.paths
    ensures var x, last := s.paths[p], |s.graph.nodes| - 1;
            var dropped := if StemKey(s.text, p).None? then s.files else DropAt(s.files, StemKey(s.text, p).value, x);
            && dropped == DropEach(s.files, x)
            && (x == last ==> RenameEach(dropped, last, x) == dropped)
            && (x != last ==>
                  var key := StemKey(s.text, s.graph.nodes[last]);
                  RenameEach(dropped, last, x) == if key.None? then dropped else RenameAt(dropped, key.value, last, x))
  {
    hide StemKey, ViewOk, ViewOf, GraphOk, DropAt, RenameAt, DropEach, RenameEach;
    var x, last: nat := s.paths[p], |s.graph.nodes| - 1;
    StemOnly(s, x);
    StemOnly(s, last);
    DropAtOneKey(s.files, x, StemKey(s.text, p));
    OnlyUnderDropped(s.files, last, x, StemKey(s.text, s.graph.nodes[last]));
    RenameAtOneKey(DropEach(s.files, x), last, x, StemKey(s.text, s.graph.nodes[last]));
    RenameToItself(DropEach(s.files, x), x);
  }

  // ---------------------------------------------------------------------------------------------
  // Updating a file
  // ---------------------------------------------------------------------------------------------

  /** What removing the collected edge slots leaves of the view. */
  lemma ClearingIsExact(s: Slots, p: NotePath)
    requires SlotsOk(s) && p in s.paths && s.paths[p] < |s.graph.nodes|
    ensures var ids := Outgoing(s.graph, s.paths[p]);
            var after := s.(graph := RemoveEach(s.graph, ids));
            && GraphOk(after.graph) && SlotsOk(after) && ViewOf(after) == ViewOf(s).(edges := Named(after.graph))
            && Clears(ViewOf(s), p, Named(after.graph))
            && (From(Named(after.graph), p) == [] <==> InTime(s.graph, ids))
  {
    hide GraphOk, Named, Others, Count, Outgoing, InTime, RemoveEach, From;
    var x := s.paths[p];
    RemovingOutgoingEdges(s.graph, x);
    var after := RemoveEach(s.graph, Outgoing(s.graph, x));
    CountIsZero(Named(after), LeavingNote(p));
    FromNone(Named(after), p);
  }

  /** The links in `done` have been worked into `base`, whose stored links for `p` were gone. */
  ghost predicate Linking(s: Slots, base: LinkView, p: NotePath, done: seq<Link>) {
    && SlotsOk(s) && p in s.paths && p !in base.unresolved
    && ViewOf(s) == Linked(base, p, Wanted(base.names.text, done))
  }

  function Linked(base: LinkView, p: NotePath, wanted: seq<Link>): LinkView {
    var broken := Marked(Unresolvable(base.names, wanted), false);
    base.(edges := Resolved(base.names, p, wanted) + base.edges,
          unresolved := if broken == [] then base.unresolved else base.unresolved[p := broken])
  }

  lemma LinkingBegins(s: Slots, p: NotePath)
    requires SlotsOk(s) && p in s.paths && p !in s.unresolved
    ensures Linking(s, ViewOf(s), p, [])
  {
    hide SlotsOk, ViewOf;
    ShowsStored(s);
    var base := ViewOf(s);
    assert Linked(base, p, []) == base by {
      assert Resolved(base.names, p, []) == [] && Unresolvable(base.names, []) == [];
    }
  }

  lemma LinkingKnows(s: Slots, base: LinkView, p: NotePath, done: seq<Link>)
    requires Linking(s, base, p, done)
    ensures SlotsOk(s) && p in s.paths && TableOf(s) == base.names && s.text == base.names.text
  {
    hide SlotsOk, ByPath;
    ShowsStored(s);
  }

  lemma LinkingSkip(s: Slots, base: LinkView, p: NotePath, done: seq<Link>, link: Link)
    requires Linking(s, base, p, done) && !IsGraphLink(base.names.text, link)
    ensures Linking(s, base, p, done + [link])
  {
    hide SlotsOk, ViewOf, IsGraphLink, Linked, Wanted;
    WantedAppend(base.names.text, done, link);
    assert Wanted(base.names.text, done) + [] == Wanted(base.names.text, done);
  }

  lemma LinkingStep(s: Slots, base: LinkView, p: NotePath, done: seq<Link>, link: Link, slot: Option<nat>)
    requires Linking(s, base, p, done) && IsGraphLink(base.names.text, link)
    requires SlotsOk(s) && p in s.paths
    requires slot.Some? ==> slot.value < |s.graph.nodes|
    requires (if slot.None? then None else Some(s.graph.nodes[slot.value])) == Resolve(base.names, link.target)
    ensures var after := if slot.None? then s.(unresolved := Push(s.unresolved, p, link.(valid := false)))
                         else if slot.value == s.paths[p] then s
                         else s.(graph := AddEdge(s.graph, s.paths[p], slot.value, link));
            Linking(after, base, p, done + [link])
  {
    hide SlotsOk, ViewOf, IsGraphLink, Wanted, Resolve, Resolved, Unresolvable, Marked, AddEdge;
    var wanted, marked := Wanted(base.names.text, done), link.(valid := false);
    var broken := Unresolvable(base.names, wanted);
    WantedAppend(base.names.text, done, link);
    UnresolvableAppend(base.names, wanted, link);
    MarkedAppend(broken, link, false);
    MarkedEmpty(broken, false);
    ShowsStored(s);
    Landed(s, base.(unresolved := s.unresolved), p, wanted, link, slot);
    if slot.None? {
      StoredLinksShow(s, Push(s.unresolved, p, marked));
      ResolvedAppend(base.names, p, wanted, link);
      assert At(s.unresolved, p) == Marked(broken, false);
      assert Push(s.unresolved, p, marked) == base.unresolved[p := Marked(broken + [link], false)];
      assert [] + Resolved(base.names, p, wanted) == Resolved(base.names, p, wanted);
    } else {
      assert broken + [] == broken;
    }
  }

  lemma MarkedEmpty(links: seq<Link>, valid: bool)
    ensures Marked(links, valid) == [] <==> links == []
  {
  }

  lemma LinkedIsUpdated(known: LinkView, start: LinkView, file: NoteFile, cleared: seq<NamedEdge>)
    requires known == Known(start, file.path)
    ensures var base := known.(edges := cleared, unresolved := known.unresolved - {file.path});
            Linked(base, file.path, Wanted(base.names.text, file.links)) == AfterUpdate(start, file, cleared)
  {
    hide Resolved, Unresolvable, Marked, Wanted, Known;
  }

  lemma LinkingMeans(s: Slots, base: LinkView, p: NotePath, links: seq<Link>)
    requires Linking(s, base, p, links)
    ensures SlotsOk(s) && ViewOf(s) == Linked(base, p, Wanted(base.names.text, links)) && base.names.text == s.text
  {
    hide SlotsOk, ByPath, Wanted;
    ShowsStored(s);
  }

  /** Clearing depends on the edges alone, which entering the note left as they were. */
  lemma ClearsSame(start: LinkView, known: LinkView, p: NotePath, cleared: seq<NamedEdge>)
    requires ViewOk(start) && known.edges == start.edges && Clears(known, p, cleared)
    ensures Clears(start, p, cleared) && forall e :: e in cleared ==> e in start.edges
    ensures p !in start.notes ==> cleared == start.edges
  {
    hide ViewOk, Others;
    if p !in start.notes {
      ClearingNothing(start, p, cleared);
    }
  }

  lemma ClearingNothing(v: LinkView, p: NotePath, cleared: seq<NamedEdge>)
    requires ViewOk(v) && Clears(v, p, cleared) && p !in v.notes
    ensures cleared == v.edges
  {
    hide NamesOk, Others, Count;
    CountIsZero(v.edges, LeavingNote(p));
    CountIsZero(cleared, LeavingNote(p));
    NothingMeant(v.edges, LeavingNote(p));
    NothingMeant(cleared, LeavingNote(p));
  }

  lemma UpdateFollows(v: LinkView, file: NoteFile, cleared: seq<NamedEdge>)
    requires ViewOk(v) && forall e :: e in cleared ==> e in v.edges
    ensures ViewOk(AfterUpdate(v, file, cleared))
    ensures Settled(v) && file.path in v.notes ==> Settled(AfterUpdate(v, file, cleared))
  {
    hide ViewOk, Settled, AfterUpdate;
    UpdateKeepsOk(v, file, cleared);
    if Settled(v) && file.path in v.notes {
      UpdateOfKnownSettles(v, file, cleared);
    }
  }
}
