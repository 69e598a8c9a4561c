/** The link graph by path: what its indices, edges and unresolved links say, slots aside. */
module LinkViews {
  import opened Wrappers
  import opened Sequences
  import opened Notes
  import opened Digraphs
  import opened GraphRemoval
  import opened LinkTargets
  import opened Texts
  import opened ListIndices

  datatype NameTable = NameTable(text: Text, files: map<string, seq<NotePath>>, aliases: map<string, seq<NotePath>>,
                                 suffixes: map<seq<string>, seq<NotePath>>)

  /** `edges` is newest first. */
  datatype LinkView = LinkView(notes: set<NotePath>, names: NameTable, edges: seq<NamedEdge>,
                               unresolved: map<NotePath, seq<Link>>)

  // ---------------------------------------------------------------------------------------------
  // Resolution
  // ---------------------------------------------------------------------------------------------

  /** The path with the fewest components, the first such on ties. */
  function Shortest(paths: seq<NotePath>): (p: NotePath)
    requires paths != []
    ensures p in paths
  {
    if |paths| == 1 then paths[0]
    else
      var best, last := Shortest(paths[..|paths| - 1]), paths[|paths| - 1];
      if |last| < |best| then last else best
  }

  function ResolveParts(names: NameTable, parts: seq<string>): Option<NotePath>
    requires parts != []
  {
    if |parts| == 1 && At(names.files, parts[0]) != [] then Some(At(names.files, parts[0])[0])
    else if At(names.aliases, Join(parts)) != [] then Some(At(names.aliases, Join(parts))[0])
    else if At(names.suffixes, parts) != [] then Some(Shortest(At(names.suffixes, parts)))
    else None
  }

  function Resolve(names: NameTable, target: string): Option<NotePath> {
    match Normalize(names.text, target)
    case None => None
    case Some(parts) => ResolveParts(names, parts)
  }

  // ---------------------------------------------------------------------------------------------
  // Operations
  // ---------------------------------------------------------------------------------------------

  /** Enter a new note under its stem and every suffix of its path. */
  function Admit(v: LinkView, p: NotePath): LinkView {
    var names := v.names;
    v.(notes := v.notes + {p},
       names := names.(files := PushStem(names.text, names.files, p, p),
                       suffixes := PushSuffixes(names.suffixes, Keyed(names.text, p), 0, p)))
  }

  function Known(v: LinkView, p: NotePath): LinkView {
    if p in v.notes then v else Admit(v, p)
  }

  function WithAliases(v: LinkView, p: NotePath, aliases: seq<string>): LinkView {
    v.(names := v.names.(aliases := PushAliases(v.names.text, v.names.aliases, aliases, p)))
  }

  /** Every index list and every edge without `q`; links stored for `q` go, links into it go for good. */
  function Forget(v: LinkView, q: NotePath): LinkView {
    LinkView(v.notes - {q},
             NameTable(v.names.text, DropEach(v.names.files, q), DropEach(v.names.aliases, q), DropEach(v.names.suffixes, q)),
             Others(v.edges, TouchingNote(q)), v.unresolved - {q})
  }

  /** The links marked valid or broken. */
  function Marked(links: seq<Link>, valid: bool): (r: seq<Link>)
    ensures |r| == |links| && forall i :: 0 <= i < |links| ==> r[i] == links[i].(valid := valid)
  {
    seq(|links|, i requires 0 <= i < |links| => links[i].(valid := valid))
  }

  /** The edges a note's links give, newest first: one for each that resolves to another note. */
  function Resolved(names: NameTable, p: NotePath, links: seq<Link>): seq<NamedEdge> {
    if links == [] then []
    else
      var rest, link := Resolved(names, p, links[..|links| - 1]), links[|links| - 1];
      match Resolve(names, link.target)
      case None => rest
      case Some(q) => if q == p then rest else [NamedEdge(p, q, link)] + rest
  }

  function Unresolvable(names: NameTable, links: seq<Link>): seq<Link> {
    if links == [] then []
    else
      var rest, link := Unresolvable(names, links[..|links| - 1]), links[|links| - 1];
      if Resolve(names, link.target).None? then rest + [link] else rest
  }

  function Wanted(text: Text, links: seq<Link>): seq<Link> {
    if links == [] then []
    else
      var rest, link := Wanted(text, links[..|links| - 1]), links[|links| - 1];
      if IsGraphLink(text, link) then rest + [link] else rest
  }

  ghost predicate Lists(order: seq<NotePath>, unresolved: map<NotePath, seq<Link>>) {
    NoDup(order) && forall p :: p in order <==> p in unresolved
  }

  /** The edges that stored links give once they resolve, the sources taken in `order`. */
  function ResolvedFrom(names: NameTable, unresolved: map<NotePath, seq<Link>>, order: seq<NotePath>): seq<NamedEdge>
    requires forall p :: p in order ==> p in unresolved
  {
    if order == [] then []
    else
      var p := order[|order| - 1];
      Resolved(names, p, Marked(unresolved[p], true)) + ResolvedFrom(names, unresolved, order[..|order| - 1])
  }

  function StillUnresolved(names: NameTable, unresolved: map<NotePath, seq<Link>>): map<NotePath, seq<Link>> {
    map p | p in unresolved && Unresolvable(names, unresolved[p]) != [] :: Unresolvable(names, unresolved[p])
  }

  ghost function Reconciled(v: LinkView, order: seq<NotePath>): LinkView
    requires Lists(order, v.unresolved)
  {
    v.(edges := ResolvedFrom(v.names, v.unresolved, order) + v.edges, unresolved := StillUnresolved(v.names, v.unresolved))
  }

  /** What `add_file` does before it reconciles. */
  function Indexed(v: LinkView, file: NoteFile): LinkView {
    WithAliases(Known(v, file.path), file.path, file.aliases)
  }

  ghost function AfterAdd(v: LinkView, file: NoteFile, order: seq<NotePath>): LinkView
    requires Lists(order, v.unresolved)
  {
    Reconciled(Indexed(v, file), order)
  }

  function AfterRemove(v: LinkView, q: NotePath): LinkView {
    if q in v.notes then Forget(v, q) else v
  }

  /** The note's links entered over what the removal of its old edges left. */
  function AfterUpdate(v: LinkView, file: NoteFile, cleared: seq<NamedEdge>): LinkView {
    var known := Known(v, file.path);
    var wanted := Wanted(known.names.text, file.links);
    var broken := Marked(Unresolvable(known.names, wanted), false);
    known.(edges := Resolved(known.names, file.path, wanted) + cleared,
           unresolved := if broken == [] then known.unresolved - {file.path} else known.unresolved[file.path := broken])
  }

  // ---------------------------------------------------------------------------------------------
  // What every operation keeps
  // ---------------------------------------------------------------------------------------------

  ghost predicate FilesExact(names: NameTable, notes: set<NotePath>) {
    forall p, k :: p in At(names.files, k) <==> p in notes && StemKey(names.text, p) == Some(k)
  }

  ghost predicate SuffixesExact(names: NameTable, notes: set<NotePath>) {
    forall p, k :: p in At(names.suffixes, k) <==> p in notes && IsSuffixKey(names.text, p, k)
  }

  ghost predicate NamesOk(names: NameTable, notes: set<NotePath>) {
    && ListsOk(names.files, notes) && ListsOk(names.aliases, notes) && ListsOk(names.suffixes, notes)
    && FilesExact(names, notes) && SuffixesExact(names, notes)
  }

  ghost predicate EdgesOk(edges: seq<NamedEdge>, notes: set<NotePath>) {
    forall e :: e in edges ==> e.src in notes && e.dst in notes && e.src != e.dst
  }

  ghost predicate ViewOk(v: LinkView) {
    && NamesOk(v.names, v.notes) && EdgesOk(v.edges, v.notes)
    && (forall p :: p in v.unresolved ==> p in v.notes && v.unresolved[p] != [])
  }

  /** No stored unresolved link resolves. */
  ghost predicate Settled(v: LinkView) {
    forall p :: p in v.unresolved ==> NoneResolves(v.names, v.unresolved[p])
  }

  ghost predicate NoneResolves(names: NameTable, links: seq<Link>) {
    forall l :: l in links ==> Resolve(names, l.target).None?
  }

  lemma AdmitKeepsNames(v: LinkView, p: NotePath)
    requires NamesOk(v.names, v.notes) && p !in v.notes
    ensures NamesOk(Admit(v, p).names, Admit(v, p).notes)
  {
    hide Keyed, StemKey;
    var names, notes, v' := v.names, v.notes, Admit(v, p);
    ListsGrow(names.files, notes, v'.notes);
    ListsGrow(names.aliases, notes, v'.notes);
    ListsGrow(names.suffixes, notes, v'.notes);
    match StemKey(names.text, p) {
      case None =>
      case Some(key) => PushKeepsOk(names.files, v'.notes, key, p);
    }
    PushSuffixesKeepsOk(names.suffixes, v'.notes, Keyed(names.text, p), 0, p);
    AdmitKeepsExact(v, p);
  }

  lemma ListsGrow<K(!new)>(m: map<K, seq<NotePath>>, notes: set<NotePath>, more: set<NotePath>)
    requires ListsOk(m, notes) && notes <= more
    ensures ListsOk(m, more)
  {
    forall k | k in m ensures ListOk(m[k], more) {
      assert ListOk(m[k], notes);
    }
  }

  lemma AdmitKeepsExact(v: LinkView, p: NotePath)
    requires FilesExact(v.names, v.notes) && SuffixesExact(v.names, v.notes) && p !in v.notes
    ensures FilesExact(Admit(v, p).names, v.notes + {p}) && SuffixesExact(Admit(v, p).names, v.notes + {p})
  {
    hide StemKey;
    var names, v' := v.names, Admit(v, p);
    forall q, k ensures q in At(v'.names.files, k) <==> q in v.notes + {p} && StemKey(names.text, q) == Some(k) {
      assert q in At(names.files, k) <==> q in v.notes && StemKey(names.text, q) == Some(k);
      assert At(v'.names.files, k) == if StemKey(names.text, p) == Some(k) then At(names.files, k) + [p] else At(names.files, k);
    }
    forall q, k ensures q in At(v'.names.suffixes, k) <==> q in v.notes + {p} && IsSuffixKey(names.text, q, k) {
      assert q in At(names.suffixes, k) <==> q in v.notes && IsSuffixKey(names.text, q, k);
      AtPushSuffixes(names.suffixes, Keyed(names.text, p), 0, p, k);
    }
  }

  lemma IndexedKeepsOk(v: LinkView, file: NoteFile)
    requires ViewOk(v)
    ensures ViewOk(Indexed(v, file)) && Indexed(v, file).notes == v.notes + {file.path}
    ensures Indexed(v, file).edges == v.edges && Indexed(v, file).unresolved == v.unresolved
  {
    var known := Known(v, file.path);
    if file.path !in v.notes {
      AdmitKeepsNames(v, file.path);
    }
    assert known.notes == v.notes + {file.path};
    PushAliasesKeepsOk(v.names.text, known.names.aliases, known.notes, file.aliases, file.path);
  }

  lemma ForgetKeepsOk(v: LinkView, q: NotePath)
    requires ViewOk(v)
    ensures ViewOk(Forget(v, q))
  {
    hide StemKey, IsSuffixKey;
    var names, v' := v.names, Forget(v, q);
    DropKeepsOk(names.files, v.notes, q);
    DropKeepsOk(names.aliases, v.notes, q);
    DropKeepsOk(names.suffixes, v.notes, q);
    forall p, k ensures p in At(v'.names.files, k) <==> p in v'.notes && StemKey(names.text, p) == Some(k) {
      AtDrop(names.files, q, k);
      assert p in At(names.files, k) <==> p in v.notes && StemKey(names.text, p) == Some(k);
    }
    forall p, k ensures p in At(v'.names.suffixes, k) <==> p in v'.notes && IsSuffixKey(names.text, p, k) {
      AtDrop(names.suffixes, q, k);
      assert p in At(names.suffixes, k) <==> p in v.notes && IsSuffixKey(names.text, p, k);
    }
    OthersAre(v.edges, TouchingNote(q));
  }
}
