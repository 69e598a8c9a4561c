/** Every link is accounted for: as an edge, as unresolved, or as a link to its own note. */
module LinkAccounts {
  import opened Wrappers
  import opened Sequences
  import opened Notes
  import opened Digraphs
  import opened GraphRemoval
  import opened LinkTargets
  import opened Texts
  import opened ListIndices
  import opened LinkViews

  lemma {:induction false} ResolvedAre(names: NameTable, p: NotePath, links: seq<Link>)
    ensures forall e :: e in Resolved(names, p, links)
                   <==> e.src == p && e.link in links && e.dst != p && Resolve(names, e.link.target) == Some(e.dst)
  {
    hide Resolve;
    if links != [] {
      ResolvedAre(names, p, links[..|links| - 1]);
      assert links == links[..|links| - 1] + [links[|links| - 1]];
    }
  }

  /** The edge one link gives, if it gives one. */
  function ResolvedOne(names: NameTable, p: NotePath, link: Link): seq<NamedEdge> {
    match Resolve(names, link.target)
    case None => []
    case Some(q) => if q == p then [] else [NamedEdge(p, q, link)]
  }

  lemma ResolvedAppend(names: NameTable, p: NotePath, links: seq<Link>, link: Link)
    ensures Resolved(names, p, links + [link]) == ResolvedOne(names, p, link) + Resolved(names, p, links)
  {
    hide Resolve;
    assert (links + [link])[..|links|] == links;
  }

  lemma UnresolvableAppend(names: NameTable, links: seq<Link>, link: Link)
    ensures Unresolvable(names, links + [link])
         == Unresolvable(names, links) + if Resolve(names, link.target).None? then [link] else []
  {
    hide Resolve;
    assert (links + [link])[..|links|] == links;
  }

  lemma MarkedAppend(links: seq<Link>, link: Link, valid: bool)
    ensures Marked(links + [link], valid) == Marked(links, valid) + [link.(valid := valid)]
  {
  }

  lemma WantedAppend(text: Text, links: seq<Link>, link: Link)
    ensures Wanted(text, links + [link]) == Wanted(text, links) + if IsGraphLink(text, link) then [link] else []
  {
    hide IsGraphLink;
    assert (links + [link])[..|links|] == links;
  }

  lemma {:induction false} UnresolvableAre(names: NameTable, links: seq<Link>)
    ensures forall l :: l in Unresolvable(names, links) <==> l in links && Resolve(names, l.target).None?
  {
    hide Resolve;
    if links != [] {
      UnresolvableAre(names, links[..|links| - 1]);
      assert links == links[..|links| - 1] + [links[|links| - 1]];
    }
  }

  /** The links that resolve to the note they stand in. */
  function SelfLinks(names: NameTable, p: NotePath, links: seq<Link>): seq<Link> {
    if links == [] then []
    else
      var rest, link := SelfLinks(names, p, links[..|links| - 1]), links[|links| - 1];
      if Resolve(names, link.target) == Some(p) then rest + [link] else rest
  }

  function LinksOf(edges: seq<NamedEdge>): (links: seq<Link>)
    ensures |links| == |edges| && forall i :: 0 <= i < |edges| ==> links[i] == edges[i].link
  {
    seq(|edges|, i requires 0 <= i < |edges| => edges[i].link)
  }

  lemma LinksOfCons(e: NamedEdge, rest: seq<NamedEdge>)
    ensures multiset(LinksOf([e] + rest)) == multiset{e.link} + multiset(LinksOf(rest))
  {
    assert LinksOf([e] + rest) == [e.link] + LinksOf(rest);
  }

  /** No link is lost or doubled: each becomes one edge, stays unresolved, or points at its own note. */
  lemma {:induction false} EveryLinkAccounted(names: NameTable, p: NotePath, links: seq<Link>)
    ensures multiset(links) == multiset(LinksOf(Resolved(names, p, links)))
                             + multiset(Unresolvable(names, links)) + multiset(SelfLinks(names, p, links))
  {
    hide Resolve, LinksOf;
    if links == [] {
      assert LinksOf([]) == [];
    } else {
      var init, link := links[..|links| - 1], links[|links| - 1];
      EveryLinkAccounted(names, p, init);
      assert links == init + [link];
      assert multiset(links) == multiset(init) + multiset{link};
      match Resolve(names, link.target)
      case None =>
      case Some(q) =>
        if q != p {
          LinksOfCons(NamedEdge(p, q, link), Resolved(names, p, init));
        }
    }
  }

  // ---------------------------------------------------------------------------------------------
  // The edges of one note
  // ---------------------------------------------------------------------------------------------

  function From(view: seq<NamedEdge>, p: NotePath): seq<NamedEdge> {
    if view == [] then []
    else
      var rest, last := From(view[..|view| - 1], p), view[|view| - 1];
      if last.src == p then rest + [last] else rest
  }

  lemma {:induction false} FromConcat(a: seq<NamedEdge>, b: seq<NamedEdge>, p: NotePath)
    ensures From(a + b, p) == From(a, p) + From(b, p)
  {
    if b == [] {
      assert a + b == a;
    } else {
      assert (a + b)[..|a + b| - 1] == a + b[..|b| - 1];
      FromConcat(a, b[..|b| - 1], p);
    }
  }

  lemma {:induction false} FromAll(view: seq<NamedEdge>, p: NotePath)
    requires forall e :: e in view ==> e.src == p
    ensures From(view, p) == view
  {
    if view != [] {
      FromAll(view[..|view| - 1], p);
      assert view == view[..|view| - 1] + [view[|view| - 1]];
    }
  }

  lemma {:induction false} FromNone(view: seq<NamedEdge>, p: NotePath)
    ensures From(view, p) == [] <==> forall e :: e in view ==> e.src != p
  {
    if view != [] {
      FromNone(view[..|view| - 1], p);
      assert view == view[..|view| - 1] + [view[|view| - 1]];
    }
  }

  /** Setting one note's edges aside leaves the edges of every other. */
  lemma {:induction false} FromOthers(view: seq<NamedEdge>, p: NotePath, q: NotePath)
    requires p != q
    ensures From(Others(view, LeavingNote(p)), q) == From(view, q)
  {
    if view != [] {
      var init, last := view[..|view| - 1], view[|view| - 1];
      FromOthers(init, p, q);
      var rest := Others(init, LeavingNote(p));
      assert (rest + [last])[..|rest|] == rest;
    }
  }

  // ---------------------------------------------------------------------------------------------
  // Reconciling
  // ---------------------------------------------------------------------------------------------

  lemma {:induction false} ResolvedFromAre(names: NameTable, unresolved: map<NotePath, seq<Link>>, order: seq<NotePath>)
    requires forall p :: p in order ==> p in unresolved
    ensures forall e :: e in ResolvedFrom(names, unresolved, order)
                   <==> e.src in order && e in Resolved(names, e.src, Marked(unresolved[e.src], true))
  {
    hide Resolved, Marked;
    if order != [] {
      var init, p := order[..|order| - 1], order[|order| - 1];
      ResolvedFromAre(names, unresolved, init);
      assert order == init + [p];
      var own := Resolved(names, p, Marked(unresolved[p], true));
      forall e | e in own ensures e.src == p {
        ResolvedAre(names, p, Marked(unresolved[p], true));
      }
    }
  }

  /** Whatever order the sources are taken in, a source's new edges are those its stored links give. */
  lemma {:induction false} NewEdgesOf(names: NameTable, unresolved: map<NotePath, seq<Link>>, order: seq<NotePath>, p: NotePath)
    requires NoDup(order) && forall s :: s in order ==> s in unresolved
    ensures From(ResolvedFrom(names, unresolved, order), p)
         == if p in order then Resolved(names, p, Marked(unresolved[p], true)) else []
  {
    hide Resolved, Marked;
    if order != [] {
      var init, s := order[..|order| - 1], order[|order| - 1];
      assert order == init + [s];
      NoDupSplit(init, [s]);
      assert s in [s] && s !in init;
      NewEdgesOf(names, unresolved, init, p);
      var own := Resolved(names, s, Marked(unresolved[s], true));
      FromConcat(own, ResolvedFrom(names, unresolved, init), p);
      ResolvedAre(names, s, Marked(unresolved[s], true));
      if s == p {
        FromAll(own, p);
      } else {
        FromNone(own, p);
      }
    }
  }

  /** The order in which sources are reconciled shows in nothing but how their edges interleave. */
  lemma ReconcileOrderIrrelevant(v: LinkView, a: seq<NotePath>, b: seq<NotePath>, p: NotePath)
    requires Lists(a, v.unresolved) && Lists(b, v.unresolved)
    ensures From(Reconciled(v, a).edges, p) == From(Reconciled(v, b).edges, p)
    ensures Reconciled(v, a).unresolved == Reconciled(v, b).unresolved
  {
    NewEdgesOf(v.names, v.unresolved, a, p);
    NewEdgesOf(v.names, v.unresolved, b, p);
    FromConcat(ResolvedFrom(v.names, v.unresolved, a), v.edges, p);
    FromConcat(ResolvedFrom(v.names, v.unresolved, b), v.edges, p);
  }

  /**
   * Adding a file moves each stored link that now resolves to exactly one edge of its source, in
   * front of that source's other edges; only links that resolve to their own source are dropped.
   */
  lemma AddAccountsForStoredLinks(v: LinkView, file: NoteFile, order: seq<NotePath>, p: NotePath)
    requires Lists(order, v.unresolved) && p in v.unresolved
    ensures var after := AfterAdd(v, file, order);
            exists new_: seq<NamedEdge> ::
              && From(after.edges, p) == new_ + From(v.edges, p)
              && multiset(Marked(v.unresolved[p], true))
              == multiset(LinksOf(new_)) + multiset(Marked(At(after.unresolved, p), true))
               + multiset(SelfLinks(after.names, p, Marked(v.unresolved[p], true)))
  {
    hide Resolve;
    var after := AfterAdd(v, file, order);
    var stored := v.unresolved[p];
    var new_ := Resolved(after.names, p, Marked(stored, true));
    NewEdgesOf(after.names, v.unresolved, order, p);
    FromConcat(ResolvedFrom(after.names, v.unresolved, order), v.edges, p);
    EveryLinkAccounted(after.names, p, Marked(stored, true));
    MarkingKeepsUnresolvable(after.names, stored, true);
    assert From(after.edges, p) == new_ + From(v.edges, p);
  }

  lemma {:induction false} MarkingKeepsUnresolvable(names: NameTable, links: seq<Link>, valid: bool)
    ensures Unresolvable(names, Marked(links, valid)) == Marked(Unresolvable(names, links), valid)
  {
    hide Resolve;
    if links != [] {
      MarkingKeepsUnresolvable(names, links[..|links| - 1], valid);
      assert Marked(links, valid)[..|links| - 1] == Marked(links[..|links| - 1], valid);
    }
  }

  /** What the sources outside `todo` leave unresolved. */
  function RestOf(names: NameTable, taken: map<NotePath, seq<Link>>, todo: set<NotePath>): map<NotePath, seq<Link>> {
    map p | p in taken && p !in todo && Unresolvable(names, taken[p]) != [] :: Unresolvable(names, taken[p])
  }

  lemma RestEnds(names: NameTable, taken: map<NotePath, seq<Link>>)
    ensures RestOf(names, taken, taken.Keys) == map[]
    ensures RestOf(names, taken, {}) == StillUnresolved(names, taken)
    ensures ResolvedFrom(names, taken, []) == []
  {
  }

  lemma RestStep(names: NameTable, taken: map<NotePath, seq<Link>>, todo: set<NotePath>, p: NotePath)
    requires p in taken && p in todo
    ensures var left := Unresolvable(names, taken[p]);
            RestOf(names, taken, todo - {p})
            == if left == [] then RestOf(names, taken, todo) else RestOf(names, taken, todo)[p := left]
  {
    hide Unresolvable;
  }

  lemma ResolvedFromAppend(names: NameTable, taken: map<NotePath, seq<Link>>, order: seq<NotePath>, p: NotePath)
    requires p in taken && forall q :: q in order ==> q in taken
    ensures ResolvedFrom(names, taken, order + [p])
         == Resolved(names, p, Marked(taken[p], true)) + ResolvedFrom(names, taken, order)
  {
    hide Resolved, Marked;
    assert (order + [p])[..|order|] == order;
  }

  // ---------------------------------------------------------------------------------------------
  // Updating
  // ---------------------------------------------------------------------------------------------

  /**
   * What an update leaves. Other notes keep their edges, in order. The note's own edges are the
   * ones its wanted links resolve to, ahead of whatever the removal left of its old ones; and its
   * wanted links are all accounted for.
   */
  lemma UpdateIsExact(v: LinkView, file: NoteFile, cleared: seq<NamedEdge>, q: NotePath)
    requires Others(cleared, LeavingNote(file.path)) == Others(v.edges, LeavingNote(file.path))
    ensures var after := AfterUpdate(v, file, cleared);
            var wanted := Wanted(v.names.text, file.links);
            var new_ := Resolved(after.names, file.path, wanted);
            && From(after.edges, file.path) == new_ + From(cleared, file.path)
            && (q != file.path ==> From(after.edges, q) == From(v.edges, q))
            && multiset(wanted) == multiset(LinksOf(new_)) + multiset(Unresolvable(after.names, wanted))
                                 + multiset(SelfLinks(after.names, file.path, wanted))
            && At(after.unresolved, file.path) == Marked(Unresolvable(after.names, wanted), false)
  {
    var after := AfterUpdate(v, file, cleared);
    var wanted := Wanted(v.names.text, file.links);
    var new_ := Resolved(after.names, file.path, wanted);
    ResolvedAre(after.names, file.path, wanted);
    FromConcat(new_, cleared, file.path);
    FromAll(new_, file.path);
    if q != file.path {
      FromConcat(new_, cleared, q);
      FromNone(new_, q);
      FromOthers(cleared, file.path, q);
      FromOthers(v.edges, file.path, q);
    }
    EveryLinkAccounted(after.names, file.path, wanted);
  }
}
