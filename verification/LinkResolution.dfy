/** What a link target resolves to, and that removing other notes does not change it. */
module LinkResolution {
  import opened Wrappers
  import opened Notes
  import opened Digraphs
  import opened LinkTargets
  import opened ListIndices
  import opened LinkViews

  // ---------------------------------------------------------------------------------------------
  // What resolution means
  // ---------------------------------------------------------------------------------------------

  ghost predicate ByStem(v: LinkView, parts: seq<string>, q: NotePath) {
    |parts| == 1 && q in v.notes && StemKey(v.names.text, q) == Some(parts[0])
  }

  ghost predicate ByAlias(v: LinkView, parts: seq<string>, q: NotePath) {
    q in At(v.names.aliases, Join(parts))
  }

  ghost predicate BySuffix(v: LinkView, parts: seq<string>, q: NotePath) {
    q in v.notes && IsSuffixKey(v.names.text, q, parts)
  }

  lemma StemList(v: LinkView, parts: seq<string>)
    requires ViewOk(v) && |parts| == 1
    ensures forall q :: ByStem(v, parts, q) <==> q in At(v.names.files, parts[0])
  {
    hide StemKey, IsSuffixKey;
    forall q ensures ByStem(v, parts, q) <==> q in At(v.names.files, parts[0]) {
      assert q in At(v.names.files, parts[0]) <==> q in v.notes && StemKey(v.names.text, q) == Some(parts[0]);
    }
  }

  lemma SuffixList(v: LinkView, parts: seq<string>)
    requires ViewOk(v)
    ensures forall q :: BySuffix(v, parts, q) <==> q in At(v.names.suffixes, parts)
  {
    hide StemKey, IsSuffixKey;
    forall q ensures BySuffix(v, parts, q) <==> q in At(v.names.suffixes, parts) {
      assert q in At(v.names.suffixes, parts) <==> q in v.notes && IsSuffixKey(v.names.text, q, parts);
    }
  }

  lemma {:induction false} ShortestIsFirst(paths: seq<NotePath>) returns (i: nat)
    requires paths != []
    ensures i < |paths| && paths[i] == Shortest(paths)
    ensures forall j :: 0 <= j < |paths| ==> |paths[i]| <= |paths[j]|
    ensures forall j :: 0 <= j < i ==> |paths[i]| < |paths[j]|
  {
    if |paths| == 1 {
      i := 0;
    } else {
      i := ShortestIsFirst(paths[..|paths| - 1]);
      if |paths[|paths| - 1]| < |paths[i]| {
        i := |paths| - 1;
      }
    }
  }

  /**
   * A target resolves exactly when some note carries it as stem, alias or path suffix; a stem beats
   * an alias, an alias beats a suffix, and among suffix matches no path is shorter than the chosen one.
   */
  lemma ResolveMeaning(v: LinkView, target: string, parts: seq<string>)
    requires ViewOk(v) && Normalize(v.names.text, target) == Some(parts)
    ensures match Resolve(v.names, target)
            case None => forall q :: !ByStem(v, parts, q) && !ByAlias(v, parts, q) && !BySuffix(v, parts, q)
            case Some(p) =>
              && p in v.notes
              && (|| ByStem(v, parts, p)
                  || ((forall q :: !ByStem(v, parts, q)) && ByAlias(v, parts, p))
                  || ((forall q :: !ByStem(v, parts, q) && !ByAlias(v, parts, q)) && BySuffix(v, parts, p)
                      && forall q :: BySuffix(v, parts, q) ==> |p| <= |q|))
  {
    hide StemKey, IsSuffixKey, Normalize, Join, Shortest;
    if |parts| == 1 {
      StemList(v, parts);
    }
    SuffixList(v, parts);
    if Join(parts) in v.names.aliases {
      assert ListOk(v.names.aliases[Join(parts)], v.notes);
    }
    var matches := At(v.names.suffixes, parts);
    if matches != [] {
      var i := ShortestIsFirst(matches);
    }
  }

  /** A link that spells out a note's whole path always resolves, whatever else the vault holds. */
  lemma OwnPathResolves(v: LinkView, p: NotePath)
    requires ViewOk(v) && p in v.notes && PlainPath(v.names.text, p)
    ensures Resolve(v.names, Join(p)).Some?
  {
    OwnPathNormalizes(v.names.text, p);
    var parts := Keyed(v.names.text, p);
    ResolveMeaning(v, Join(p), parts);
    assert BySuffix(v, parts, p);
  }

  // ---------------------------------------------------------------------------------------------
  // Stability
  // ---------------------------------------------------------------------------------------------

  lemma {:induction false} FirstStays(s: seq<NotePath>, q: NotePath)
    requires s != [] && s[0] != q
    ensures Without(s, q) != [] && Without(s, q)[0] == s[0]
  {
    if |s| > 1 {
      FirstStays(s[..|s| - 1], q);
    } else {
      assert s == [s[0]] && s[..0] == [];
    }
  }

  lemma ShortestOfAppend(init: seq<NotePath>, last: NotePath)
    ensures Shortest(init + [last])
         == if init == [] || |last| < |Shortest(init)| then last else Shortest(init)
  {
    assert (init + [last])[..|init|] == init;
  }

  lemma ShortestBounds(paths: seq<NotePath>, p: NotePath)
    requires p in paths
    ensures |Shortest(paths)| <= |p|
  {
    hide Shortest;
    var i := ShortestIsFirst(paths);
  }

  /** The last path is the shortest strictly: then whatever else is taken out, it still is. */
  lemma LastStaysShortest(s: seq<NotePath>, q: NotePath)
    requires |s| > 1 && |s[|s| - 1]| < |Shortest(s[..|s| - 1])| && s[|s| - 1] != q
    ensures Without(s, q) != [] && Shortest(Without(s, q)) == s[|s| - 1]
  {
    hide Shortest;
    var init, last := s[..|s| - 1], s[|s| - 1];
    var kept := Without(init, q);
    assert Without(s, q) == kept + [last];
    ShortestOfAppend(kept, last);
    if kept != [] {
      ShortestBounds(init, Shortest(kept));
    }
  }

  lemma {:induction false} ShortestStays(s: seq<NotePath>, q: NotePath)
    requires s != [] && Shortest(s) != q
    ensures Without(s, q) != [] && Shortest(Without(s, q)) == Shortest(s)
  {
    hide Shortest;
    var init, last := s[..|s| - 1], s[|s| - 1];
    assert s == init + [last];
    ShortestOfAppend(init, last);
    if init == [] {
      assert Without(init, q) == [];
      ShortestOfAppend([], last);
      assert Without(s, q) == [last] == [] + [last];
    } else if |last| < |Shortest(init)| {
      LastStaysShortest(s, q);
    } else {
      ShortestStays(init, q);
      ShortestOfAppend(Without(init, q), last);
    }
  }

  /** Removing a note changes the resolution of no target that did not resolve to it. */
  lemma ResolutionSurvivesRemoval(v: LinkView, q: NotePath, target: string)
    requires Resolve(v.names, target) != Some(q)
    ensures Resolve(Forget(v, q).names, target) == Resolve(v.names, target)
  {
    hide Normalize, Join, Shortest, Without;
    match Normalize(v.names.text, target)
    case None =>
    case Some(parts) =>
      var names := v.names;
      if |parts| == 1 {
        AtDrop(names.files, q, parts[0]);
      }
      AtDrop(names.aliases, q, Join(parts));
      AtDrop(names.suffixes, q, parts);
      if |parts| == 1 && At(names.files, parts[0]) != [] {
        FirstStays(At(names.files, parts[0]), q);
      } else if At(names.aliases, Join(parts)) != [] {
        FirstStays(At(names.aliases, Join(parts)), q);
      } else if At(names.suffixes, parts) != [] {
        ShortestStays(At(names.suffixes, parts), q);
      }
  }

  /** A removed note is never resolved to again until it is added back. */
  lemma RemovedNoteUnreachable(v: LinkView, q: NotePath, target: string)
    requires ViewOk(v)
    ensures Resolve(Forget(v, q).names, target) != Some(q)
  {
    hide Normalize;
    ForgetKeepsOk(v, q);
    match Normalize(v.names.text, target)
    case None =>
    case Some(parts) => ResolveMeaning(Forget(v, q), target, parts);
  }
}
