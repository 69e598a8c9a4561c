/** Runs of the link graph: what every sequence of operations keeps. */
module LinkRuns {
  import opened Wrappers
  import opened Notes
  import opened Digraphs
  import opened GraphRemoval
  import opened LinkTargets
  import opened Texts
  import opened ListIndices
  import opened LinkViews
  import opened LinkResolution
  import opened LinkAccounts

  lemma ResolvesToNote(names: NameTable, notes: set<NotePath>, target: string)
    requires NamesOk(names, notes) && Resolve(names, target).Some?
    ensures Resolve(names, target).value in notes
  {
    hide Normalize, StemKey, IsSuffixKey;
    ResolveMeaning(LinkView(notes, names, [], map[]), target, Normalize(names.text, target).value);
  }

  lemma ResolvedEdgesOk(names: NameTable, notes: set<NotePath>, p: NotePath, links: seq<Link>)
    requires NamesOk(names, notes) && p in notes
    ensures EdgesOk(Resolved(names, p, links), notes)
  {
    hide Resolve, NamesOk;
    ResolvedAre(names, p, links);
    forall e | e in Resolved(names, p, links) ensures e.src in notes && e.dst in notes && e.src != e.dst {
      ResolvesToNote(names, notes, e.link.target);
    }
  }

  /** Reconciling keeps the indices and edges in order and leaves no stored link that resolves. */
  lemma ReconciledKeepsOk(v: LinkView, order: seq<NotePath>)
    requires ViewOk(v) && Lists(order, v.unresolved)
    ensures ViewOk(Reconciled(v, order)) && Settled(Reconciled(v, order))
  {
    hide Resolve, NamesOk, Resolved, Unresolvable, Marked;
    var after := Reconciled(v, order);
    ResolvedFromAre(v.names, v.unresolved, order);
    forall e | e in ResolvedFrom(v.names, v.unresolved, order) ensures e.src in v.notes && e.dst in v.notes && e.src != e.dst {
      ResolvedEdgesOk(v.names, v.notes, e.src, Marked(v.unresolved[e.src], true));
    }
    forall p | p in after.unresolved ensures NoneResolves(after.names, after.unresolved[p]) {
      UnresolvableAre(v.names, v.unresolved[p]);
    }
  }

  lemma AddKeeps(v: LinkView, file: NoteFile, order: seq<NotePath>)
    requires ViewOk(v) && Lists(order, v.unresolved)
    ensures ViewOk(AfterAdd(v, file, order)) && Settled(AfterAdd(v, file, order))
  {
    hide ViewOk, Indexed, Reconciled;
    IndexedKeepsOk(v, file);
    ReconciledKeepsOk(Indexed(v, file), order);
  }

  lemma RemoveKeeps(v: LinkView, q: NotePath)
    requires ViewOk(v)
    ensures ViewOk(AfterRemove(v, q))
    ensures Settled(v) ==> Settled(AfterRemove(v, q))
  {
    hide Resolve, NamesOk;
    if q in v.notes {
      ForgetKeepsOk(v, q);
      if Settled(v) {
        var after := Forget(v, q);
        forall p | p in after.unresolved ensures NoneResolves(after.names, after.unresolved[p]) {
          assert NoneResolves(v.names, v.unresolved[p]);
          forall l | l in v.unresolved[p] ensures Resolve(after.names, l.target).None? {
            ResolutionSurvivesRemoval(v, q, l.target);
          }
        }
      }
    }
  }

  lemma KnownKeepsOk(v: LinkView, p: NotePath)
    requires ViewOk(v)
    ensures ViewOk(Known(v, p)) && p in Known(v, p).notes && v.notes <= Known(v, p).notes
    ensures Known(v, p).edges == v.edges && Known(v, p).unresolved == v.unresolved
  {
    hide NamesOk;
    if p !in v.notes {
      AdmitKeepsNames(v, p) by {
        assert NamesOk(v.names, v.notes);
      }
    }
  }

  lemma UpdateKeepsOk(v: LinkView, file: NoteFile, cleared: seq<NamedEdge>)
    requires ViewOk(v) && forall e :: e in cleared ==> e in v.edges
    ensures ViewOk(AfterUpdate(v, file, cleared))
  {
    hide NamesOk, Resolve, Resolved, Unresolvable, Wanted, Known;
    KnownKeepsOk(v, file.path);
    var known := Known(v, file.path);
    ResolvedEdgesOk(known.names, known.notes, file.path, Wanted(known.names.text, file.links));
  }

  /** Under `names`, the note's own links end up settled whatever they are. */
  lemma UpdateSettlesOwn(v: LinkView, file: NoteFile, cleared: seq<NamedEdge>)
    ensures var after := AfterUpdate(v, file, cleared);
            file.path in after.unresolved ==> NoneResolves(after.names, after.unresolved[file.path])
  {
    hide Resolve, Unresolvable, Wanted, Known;
    var after := AfterUpdate(v, file, cleared);
    var wanted := Wanted(after.names.text, file.links);
    UnresolvableAre(after.names, wanted);
    if file.path in after.unresolved {
      forall l | l in after.unresolved[file.path] ensures Resolve(after.names, l.target).None? {
        var i :| 0 <= i < |after.unresolved[file.path]| && after.unresolved[file.path][i] == l;
        assert Unresolvable(after.names, wanted)[i] in Unresolvable(after.names, wanted);
      }
    }
  }

  lemma UpdateOfKnownSettles(v: LinkView, file: NoteFile, cleared: seq<NamedEdge>)
    requires Settled(v) && file.path in v.notes
    ensures Settled(AfterUpdate(v, file, cleared))
  {
    hide Resolve, Resolved, Unresolvable, Wanted, NoneResolves;
    var after := AfterUpdate(v, file, cleared);
    UpdateSettlesOwn(v, file, cleared);
    forall p | p in after.unresolved ensures NoneResolves(after.names, after.unresolved[p]) {
      assert p != file.path ==> NoneResolves(v.names, v.unresolved[p]);
    }
  }

  /** The target names a note at this path, by its stem or by its last components. */
  ghost predicate NamesPath(text: Text, p: NotePath, target: string) {
    var parts := Normalize(text, target);
    parts.Some? && ((|parts.value| == 1 && StemKey(text, p) == Some(parts.value[0])) || IsSuffixKey(text, p, parts.value))
  }

  /** A target that resolved to nothing before a note came in resolves now exactly if it names that note. */
  lemma AdmittedIsTheOnlyNews(v: LinkView, p: NotePath, target: string)
    requires ViewOk(v) && p !in v.notes && Resolve(v.names, target).None?
    ensures Resolve(Admit(v, p).names, target).Some? <==> NamesPath(v.names.text, p, target)
  {
    hide NamesOk, Resolve, Normalize, StemKey, IsSuffixKey;
    var known := Known(v, p);
    KnownKeepsOk(v, p);
    match Normalize(v.names.text, target)
    case None =>
      assert Resolve(known.names, target).None? by {
        NothingToResolve(known.names, target);
      }
    case Some(parts) =>
      ResolveMeaning(v, target, parts);
      ResolveMeaning(known, target, parts);
      assert forall q :: ByStem(known, parts, q) <==> ByStem(v, parts, q) || (q == p && ByStem(known, parts, p));
      assert forall q :: BySuffix(known, parts, q) <==> BySuffix(v, parts, q) || (q == p && BySuffix(known, parts, p));
      assert forall q :: ByAlias(known, parts, q) <==> ByAlias(v, parts, q);
      assert NamesPath(v.names.text, p, target) <==> ByStem(known, parts, p) || BySuffix(known, parts, p);
  }

  lemma NothingToResolve(names: NameTable, target: string)
    requires Normalize(names.text, target).None?
    ensures Resolve(names, target).None?
  {
  }

  /**
   * Updating a note the graph does not know creates it without reconciling: everything stays
   * settled exactly when no stored link names the new path.
   */
  lemma UpdateOfUnknownSettles(v: LinkView, file: NoteFile, cleared: seq<NamedEdge>)
    requires ViewOk(v) && Settled(v) && file.path !in v.notes
    ensures Settled(AfterUpdate(v, file, cleared))
       <==> forall p, l :: p in v.unresolved && l in v.unresolved[p] ==> !NamesPath(v.names.text, file.path, l.target)
  {
    hide NamesOk, Resolve, Resolved, Unresolvable, Wanted, NamesPath, Admit;
    var after := AfterUpdate(v, file, cleared);
    assert after.names == Admit(v, file.path).names;
    AdmitKeepsStored(v, file.path);
    UpdateSettlesOwn(v, file, cleared);
    forall p, l | p in v.unresolved && l in v.unresolved[p]
      ensures Resolve(after.names, l.target).Some? <==> NamesPath(v.names.text, file.path, l.target)
    {
      assert NoneResolves(v.names, v.unresolved[p]);
      AdmittedIsTheOnlyNews(v, file.path, l.target);
    }
    if Settled(after) {
      forall p, l | p in v.unresolved && l in v.unresolved[p] ensures !NamesPath(v.names.text, file.path, l.target) {
        assert p in after.unresolved && after.unresolved[p] == v.unresolved[p];
        assert NoneResolves(after.names, after.unresolved[p]);
      }
    }
  }

  lemma AdmitKeepsStored(v: LinkView, p: NotePath)
    requires ViewOk(v) && p !in v.notes
    ensures Admit(v, p).unresolved == v.unresolved && p !in v.unresolved
  {
  }

  /** The target spells one of the aliases. */
  ghost predicate NamesAlias(text: Text, aliases: seq<string>, target: string) {
    var parts := Normalize(text, target);
    parts.Some? && exists i :: 0 <= i < |aliases| && text.lower(aliases[i]) == Join(parts.value)
  }

  /** No stored link of another note spells an alias the note comes back with. */
  ghost predicate NoAliasIsNews(v: LinkView, file: NoteFile) {
    forall s, l :: s in v.unresolved && s != file.path && l in v.unresolved[s] ==> !NamesAlias(v.names.text, file.aliases, l.target)
  }

  /**
   * Deleting a note and adding it back brings none of the links into it back, not even as
   * unresolved ones, and leaves every other stored link stored, unless the note comes back with an
   * alias that some stored link spells.
   */
  lemma AddingBackRestoresNoLink(v: LinkView, file: NoteFile, order: seq<NotePath>)
    requires ViewOk(v) && Settled(v) && file.path in v.notes
    requires Lists(order, Forget(v, file.path).unresolved)
    ensures var after := AfterAdd(Forget(v, file.path), file, order);
            && after.notes == v.notes
            && (after.unresolved == v.unresolved - {file.path} <==> NoAliasIsNews(v, file))
            && (NoAliasIsNews(v, file) ==> after.edges == Others(v.edges, TouchingNote(file.path)))
  {
    hide NamesOk, Resolve, Resolved, Unresolvable, Known, Settled, NamesAlias;
    var p := file.path;
    var gone := Forget(v, p);
    ForgetKeepsOk(v, p);
    IndexedKeepsOk(gone, file);
    var back := Indexed(gone, file);
    forall s, l | s in back.unresolved && l in back.unresolved[s]
      ensures Resolve(back.names, l.target).Some? <==> NamesAlias(v.names.text, file.aliases, l.target)
    {
      StoredIsUnresolvable(v, s, l);
      BackResolvesOnlyAliases(v, file, l.target);
    }
    if NoAliasIsNews(v, file) {
      NothingNews(back.names, back.unresolved, order);
    } else {
      var s, l :| s in v.unresolved && s != p && l in v.unresolved[s] && NamesAlias(v.names.text, file.aliases, l.target);
      assert s in back.unresolved && l in back.unresolved[s];
      UnresolvableAre(back.names, back.unresolved[s]);
    }
  }

  lemma StoredIsUnresolvable(v: LinkView, s: NotePath, l: Link)
    requires Settled(v) && s in v.unresolved && l in v.unresolved[s]
    ensures Resolve(v.names, l.target).None?
  {
    assert NoneResolves(v.names, v.unresolved[s]);
  }

  /** What resolved to nothing before a note left resolves after its return exactly if it spells one of its aliases. */
  lemma BackResolvesOnlyAliases(v: LinkView, file: NoteFile, target: string)
    requires ViewOk(v) && file.path in v.notes
    requires Resolve(v.names, target).None?
    ensures Resolve(Indexed(Forget(v, file.path), file).names, target).Some?
       <==> NamesAlias(v.names.text, file.aliases, target)
  {
    hide NamesOk, Resolve, Normalize, StemKey, IsSuffixKey;
    var p := file.path;
    var gone := Forget(v, p);
    var back := Indexed(gone, file);
    ForgetKeepsOk(v, p);
    IndexedKeepsOk(gone, file);
    match Normalize(v.names.text, target)
    case None => NothingToResolve(back.names, target);
    case Some(parts) =>
      ResolveMeaning(v, target, parts);
      ResolveMeaning(back, target, parts);
      AtDrop(v.names.aliases, p, Join(parts));
      AtPushAliases(v.names.text, gone.names.aliases, file.aliases, p, Join(parts));
      assert forall q :: ByStem(back, parts, q) ==> ByStem(v, parts, q);
      assert forall q :: BySuffix(back, parts, q) ==> BySuffix(v, parts, q);
      assert forall q :: q in At(gone.names.aliases, Join(parts)) ==> ByAlias(v, parts, q);
      assert NamesAlias(v.names.text, file.aliases, target) <==> ByAlias(back, parts, p);
      assert forall q :: ByAlias(back, parts, q) ==> q == p;
  }

  /** If nothing stored resolves, reconciling does nothing. */
  lemma {:induction false} NothingNews(names: NameTable, unresolved: map<NotePath, seq<Link>>, order: seq<NotePath>)
    requires forall p :: p in order ==> p in unresolved
    requires forall p :: p in unresolved ==> unresolved[p] != [] && NoneResolves(names, unresolved[p])
    ensures ResolvedFrom(names, unresolved, order) == []
    ensures StillUnresolved(names, unresolved) == unresolved
  {
    hide Resolve, Marked, Resolved;
    if order != [] {
      var p := order[|order| - 1];
      NothingNews(names, unresolved, order[..|order| - 1]);
      var none := Resolved(names, p, Marked(unresolved[p], true));
      ResolvedAre(names, p, Marked(unresolved[p], true));
      assert NoneResolves(names, unresolved[p]);
      if none != [] {
        assert none[0] in none;
        MarkedTargets(unresolved[p], none[0].link);
        assert false;
      }
    }
    forall p | p in unresolved ensures Unresolvable(names, unresolved[p]) == unresolved[p] {
      AllUnresolvable(names, unresolved[p]);
    }
  }

  lemma MarkedTargets(links: seq<Link>, l: Link)
    requires l in Marked(links, true)
    ensures exists k :: k in links && k.target == l.target
  {
    var i :| 0 <= i < |links| && Marked(links, true)[i] == l;
    assert links[i] in links;
  }

  lemma {:induction false} AllUnresolvable(names: NameTable, links: seq<Link>)
    requires NoneResolves(names, links)
    ensures Unresolvable(names, links) == links
  {
    hide Resolve;
    if links != [] {
      AllUnresolvable(names, links[..|links| - 1]);
      assert links == links[..|links| - 1] + [links[|links| - 1]];
    }
  }

  // ---------------------------------------------------------------------------------------------
  // Runs
  // ---------------------------------------------------------------------------------------------

  /** `order` is how the unresolved sources were visited; `cleared` what removing old edges left. */
  datatype Event =
    | Added(file: NoteFile, order: seq<NotePath>)
    | Removed(path: NotePath)
    | Updated(file: NoteFile, cleared: seq<NamedEdge>)

  ghost predicate Happens(v: LinkView, event: Event, after: LinkView) {
    match event
    case Added(file, order) => Lists(order, v.unresolved) && after == AfterAdd(v, file, order)
    case Removed(path) => after == AfterRemove(v, path)
    case Updated(file, cleared) => Clears(v, file.path, cleared) && after == AfterUpdate(v, file, cleared)
  }

  /** Only edges of `p` were removed, none was made up, and the rest kept their order. */
  ghost predicate Clears(v: LinkView, p: NotePath, cleared: seq<NamedEdge>) {
    && Others(cleared, LeavingNote(p)) == Others(v.edges, LeavingNote(p))
    && forall e :: e in cleared ==> e in v.edges
  }

  function EmptyView(text: Text): LinkView {
    LinkView({}, NameTable(text, map[], map[], map[]), [], map[])
  }

  ghost predicate IsRun(text: Text, views: seq<LinkView>, events: seq<Event>) {
    && |views| == |events| + 1 && views[0] == EmptyView(text)
    && forall i :: 0 <= i < |events| ==> Happens(views[i], events[i], views[i + 1])
  }

  /** No update came for a note that had not been added. */
  ghost predicate UpdatesKnown(views: seq<LinkView>, events: seq<Event>)
    requires |views| == |events| + 1
  {
    forall i :: 0 <= i < |events| ==> events[i].Updated? ==> events[i].file.path in views[i].notes
  }

  lemma StepKeeps(v: LinkView, event: Event, after: LinkView)
    requires ViewOk(v) && Happens(v, event, after)
    ensures ViewOk(after)
    ensures Settled(v) && (event.Updated? ==> event.file.path in v.notes) ==> Settled(after)
  {
    hide ViewOk, Settled, AfterAdd, AfterRemove, AfterUpdate;
    match event
    case Added(file, order) => AddKeeps(v, file, order);
    case Removed(path) => RemoveKeeps(v, path);
    case Updated(file, cleared) =>
      UpdateKeepsOk(v, file, cleared);
      if Settled(v) && file.path in v.notes {
        UpdateOfKnownSettles(v, file, cleared);
      }
  }

  /** Every stored link is marked as broken. */
  ghost predicate AllBroken(v: LinkView) {
    forall p, l :: p in v.unresolved && l in v.unresolved[p] ==> !l.valid
  }

  lemma {:induction false} UnresolvableWithin(names: NameTable, links: seq<Link>)
    ensures forall l :: l in Unresolvable(names, links) ==> l in links
  {
    hide Resolve;
    if links != [] {
      UnresolvableWithin(names, links[..|links| - 1]);
    }
  }

  lemma BrokenKept(v: LinkView, event: Event, after: LinkView)
    requires AllBroken(v) && Happens(v, event, after)
    ensures AllBroken(after)
  {
    hide Resolve, Resolved, Unresolvable, Wanted;
    match event
    case Added(file, order) =>
      var names := Indexed(v, file).names;
      forall p, l | p in after.unresolved && l in after.unresolved[p] ensures !l.valid {
        UnresolvableWithin(names, v.unresolved[p]);
      }
    case Removed(path) =>
    case Updated(file, cleared) =>
  }

  /** The edges that adding a note brings stand for links marked as valid, ahead of all others. */
  lemma AddedEdgesAreValid(v: LinkView, file: NoteFile, order: seq<NotePath>) returns (more: seq<NamedEdge>)
    requires Lists(order, v.unresolved)
    ensures AfterAdd(v, file, order).edges == more + v.edges && forall e :: e in more ==> e.link.valid
  {
    hide Resolve, Resolved;
    var names := Indexed(v, file).names;
    more := ResolvedFrom(names, v.unresolved, order);
    ResolvedFromAre(names, v.unresolved, order);
    forall e | e in more ensures e.link.valid {
      ResolvedAre(names, e.src, Marked(v.unresolved[e.src], true));
    }
  }

  /**
   * In every run from the empty graph all indices stay exact, and as long as updates only come for
   * notes already added, no stored unresolved link ever resolves.
   */
  lemma {:induction false} RunKeeps(text: Text, views: seq<LinkView>, events: seq<Event>)
    requires IsRun(text, views, events)
    ensures ViewOk(views[|events|])
    ensures UpdatesKnown(views, events) ==> Settled(views[|events|])
    ensures AllBroken(views[|events|])
    decreases |events|
  {
    hide ViewOk, Settled, Happens, AllBroken;
    if events == [] {
      EmptyIsOk(text);
    } else {
      var n := |events| - 1;
      RunKeeps(text, views[..n + 1], events[..n]);
      StepKeeps(views[n], events[n], views[n + 1]);
      BrokenKept(views[n], events[n], views[n + 1]);
    }
  }

  lemma EmptyIsOk(text: Text)
    ensures ViewOk(EmptyView(text)) && Settled(EmptyView(text)) && AllBroken(EmptyView(text))
  {
  }

  lemma OneNote(text: Text, p: NotePath)
    ensures var a := AfterAdd(EmptyView(text), NoteFile(p, [], []), []);
            && a == Admit(EmptyView(text), p).(unresolved := map[])
            && a.notes == {p} && a.edges == [] && a.names.text == text
  {
    hide Resolve, StemKey, Keyed;
    var a := Indexed(EmptyView(text), NoteFile(p, [], []));
    assert a == Admit(EmptyView(text), p);
    assert ResolvedFrom(a.names, a.unresolved, []) == [];
    assert StillUnresolved(a.names, a.unresolved) == map[];
  }

  lemma NoLinks(names: NameTable, p: NotePath)
    ensures Wanted(names.text, []) == [] && Unresolvable(names, []) == [] && Resolved(names, p, []) == []
  {
  }

  lemma OneBrokenLink(v: LinkView, p: NotePath, link: Link)
    requires p in v.notes && IsGraphLink(v.names.text, link) && Resolve(v.names, link.target).None?
    ensures var after := AfterUpdate(v, NoteFile(p, [], [link]), []);
            && after.names == v.names && after.notes == v.notes && after.edges == []
            && after.unresolved == v.unresolved[p := [link.(valid := false)]]
  {
    hide Resolve, IsGraphLink, Wanted, Unresolvable, Resolved;
    assert [] + [link] == [link];
    WantedAppend(v.names.text, [], link);
    UnresolvableAppend(v.names, [], link);
    ResolvedAppend(v.names, p, [], link);
    NoLinks(v.names, p);
    assert Marked([link], false) == [link.(valid := false)];
  }

  /**
   * An update for an unknown note can leave a stored link that resolves: a note links to one that
   * does not exist, and the update that brings that one in does not reconcile.
   */
  lemma UpdateOfUnknownCanUnsettle(text: Text, p: NotePath, q: NotePath, link: Link)
    requires IsGraphLink(text, link) && NamesPath(text, q, link.target)
    requires p != q && !NamesPath(text, p, link.target)
    ensures var a := AfterAdd(EmptyView(text), NoteFile(p, [], []), []);
            var b := AfterUpdate(a, NoteFile(p, [], [link]), []);
            var c := AfterUpdate(b, NoteFile(q, [], []), []);
            && IsRun(text, [EmptyView(text), a, b, c],
                     [Added(NoteFile(p, [], []), []), Updated(NoteFile(p, [], [link]), []), Updated(NoteFile(q, [], []), [])])
            && Settled(b) && !Settled(c)
  {
    hide Normalize, StemKey, IsSuffixKey, IsGraphLink, Keyed, NamesPath, PlainPath, Settled, ViewOk, Resolve, Admit, AfterUpdate,
         AfterAdd;
    var empty := EmptyView(text);
    EmptyIsOk(text);
    AddKeeps(empty, NoteFile(p, [], []), []);
    OneNote(text, p);
    var a := AfterAdd(empty, NoteFile(p, [], []), []);
    Unheard(text, p, link.target);
    OneBrokenLink(a, p, link);
    var file := NoteFile(p, [], [link]);
    var b := AfterUpdate(a, file, []);
    UpdateKeepsOk(a, file, []);
    UpdateOfKnownSettles(a, file, []);
    UpdateOfUnknownSettles(b, NoteFile(q, [], []), []);
    assert link.(valid := false) in b.unresolved[p];
  }

  lemma Unheard(text: Text, p: NotePath, target: string)
    requires !NamesPath(text, p, target)
    ensures Resolve(Admit(EmptyView(text), p).names, target).None?
  {
    hide Normalize, StemKey, IsSuffixKey, NamesPath, Admit, Join;
    EmptyIsOk(text);
    AdmittedIsTheOnlyNews(EmptyView(text), p, target);
  }

  /** For instance, a.md comes to link to b before there is a b.md. */
  lemma SuchAnUpdate() returns (text: Text)
    ensures var a := AfterAdd(EmptyView(text), NoteFile(["a.md"], [], []), []);
            var b := AfterUpdate(a, NoteFile(["a.md"], [], [Link(WikiLink, "b", true)]), []);
            Settled(b) && !Settled(AfterUpdate(b, NoteFile(["b.md"], [], []), []))
  {
    hide AfterAdd, AfterUpdate, Settled, IsGraphLink, NamesPath;
    text := Text((s: string) => s, (c: char) => c == ' ', (c: char) => false, (c: char) => false);
    SimpleTarget(text);
    UpdateOfUnknownCanUnsettle(text, ["a.md"], ["b.md"], Link(WikiLink, "b", true));
  }

  lemma SimpleTarget(text: Text)
    requires (forall s :: text.lower(s) == s) && (forall c :: text.white(c) <==> c == ' ')
    ensures IsGraphLink(text, Link(WikiLink, "b", true))
    ensures NamesPath(text, ["b.md"], "b") && !NamesPath(text, ["a.md"], "b")
  {
    hide Normalize, Keyed, Stem, StartsWith, IsSuffixKey, BeforeHash, Trim, LastIndex, Segments;
    OneLetter(text);
    SegmentsOfOne("b");
    FileKeys(text, 'a');
    FileKeys(text, 'b');
  }

  lemma OneLetter(text: Text)
    requires (forall s :: text.lower(s) == s) && (forall c :: text.white(c) <==> c == ' ')
    ensures BeforeHash("b") == "b" && LastIndex("b", '.') == None
    ensures TrimEnd(text, "b") == "b" && Trim(text, "b") == "b"
    ensures Normalize(text, "b") == Some(["b"])
  {
    hide Normalize, IsSuffixKey, Join, Keyed, PlainPath;
    assert "b"[1..] == "" && "b"[..0] == "";
    OneLetterPath(text);
    OwnPathNormalizes(text, ["b"]);
  }

  lemma OneLetterPath(text: Text)
    requires (forall s :: text.lower(s) == s) && (forall c :: text.white(c) <==> c == ' ')
    ensures PlainPath(text, ["b"]) && Join(["b"]) == "b" && Keyed(text, ["b"]) == ["b"]
  {
    assert Key(text, "b") == "b";
  }

  lemma FileKeys(text: Text, c: char)
    requires c != '.' && forall s :: text.lower(s) == s
    ensures var path := [[c, '.', 'm', 'd']];
            && StemKey(text, path) == Some([c])
            && forall key :: IsSuffixKey(text, path, key) <==> key == [[c]]
  {
    hide Stem;
    StemOfFile(c);
    var path := [[c, '.', 'm', 'd']];
    assert path[0][..1] == [c] && path[0][1..] == ".md";
    assert Keyed(text, path) == [[c]];
  }

  lemma StemOfFile(c: char)
    requires c != '.'
    ensures Stem([[c, '.', 'm', 'd']]) == Some([c])
  {
    var s := [c, '.', 'm', 'd'];
    assert s[..3] == [c, '.', 'm'] && s[..3][..2] == [c, '.'];
    assert LastIndex([c, '.'], '.') == Some(1);
    assert LastIndex([c, '.', 'm'], '.') == Some(1);
    assert s[..1] == [c];
  }
}
