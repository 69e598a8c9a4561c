/** The ways a link may spell a note's path, and which links take part in the graph. */
module LinkSpellings {
  import opened Wrappers
  import opened Notes
  import opened Texts
  import opened LinkTargets
  import opened LinkViews
  import opened LinkResolution

  // ---------------------------------------------------------------------------------------------
  // Spellings
  // ---------------------------------------------------------------------------------------------

  /** A segment of a spelling: a component, or one of those that name nothing. */
  ghost predicate Segment(s: string) {
    forall i :: 0 <= i < |s| ==> s[i] != '/' && s[i] != '\\' && s[i] != '#'
  }

  /** Segments with a separator of either kind between each two of them. */
  function Spelled(segs: seq<string>, seps: seq<char>): string
    requires |segs| == |seps| + 1
  {
    if |segs| == 1 then segs[0]
    else Spelled(segs[..|segs| - 1], seps[..|seps| - 1]) + [seps[|seps| - 1]] + segs[|segs| - 1]
  }

  /** The segments that name something. */
  function Naming(segs: seq<string>): seq<string> {
    if segs == [] then []
    else
      var rest, last := Naming(segs[..|segs| - 1]), segs[|segs| - 1];
      if last == "" || last == "." || last == ".." then rest else rest + [last]
  }

  ghost predicate AllWhite(text: Text, s: string) {
    forall i :: 0 <= i < |s| ==> text.white(s[i])
  }

  /** Not trimmed any further. */
  ghost predicate Trimmed(text: Text, s: string) {
    s != "" && !text.white(s[0]) && !text.white(s[|s| - 1])
  }

  /** A fragment that follows the path, or none. */
  ghost predicate Fragment(s: string) {
    s == "" || s[0] == '#'
  }

  /** None of the three schemes that make a target external. */
  ghost predicate NoScheme(s: string) {
    !("http://" <= s) && !("https://" <= s) && !("mailto:" <= s)
  }

  /** A target that spells segments, padded with white space and with a fragment or without. */
  ghost predicate Spells(text: Text, target: string, segs: seq<string>, seps: seq<char>, before: string, after: string, tail: string)
    requires |segs| == |seps| + 1
  {
    && (forall i :: 0 <= i < |segs| ==> Segment(segs[i]))
    && (forall i :: 0 <= i < |seps| ==> seps[i] == '/' || seps[i] == '\\')
    && Trimmed(text, Spelled(segs, seps)) && Fragment(tail)
    && AllWhite(text, before) && AllWhite(text, after) && '#' !in before && '#' !in after
    && NoScheme(before + Spelled(segs, seps) + after)
    && target == before + Spelled(segs, seps) + after + tail
  }

  lemma {:induction false} SegmentsOfSpelled(segs: seq<string>, seps: seq<char>)
    requires |segs| == |seps| + 1 && forall i :: 0 <= i < |segs| ==> Segment(segs[i])
    requires forall i :: 0 <= i < |seps| ==> seps[i] == '/' || seps[i] == '\\'
    ensures Segments(Spelled(segs, seps)) == segs && '#' !in Spelled(segs, seps)
  {
    hide Segments;
    var n := |segs| - 1;
    assert segs == segs[..n] + [segs[n]];
    assert Segment(segs[n]);
    if n == 0 {
      SegmentsOfOne(segs[0]);
    } else {
      assert forall i :: 0 <= i < n ==> segs[..n][i] == segs[i];
      SegmentsOfSpelled(segs[..n], seps[..n - 1]);
      SegmentsOfPlain(Spelled(segs[..n], seps[..n - 1]), seps[n - 1], segs[n]);
    }
  }

  lemma {:induction false} StepsAreNaming(text: Text, segs: seq<string>)
    ensures Steps(text, segs) == Keyed(text, Naming(segs))
  {
    if segs != [] {
      StepsAreNaming(text, segs[..|segs| - 1]);
    }
  }

  lemma {:induction false} HashEnds(path: string, tail: string)
    requires '#' !in path && Fragment(tail)
    ensures BeforeHash(path + tail) == path
  {
    if path == "" {
      assert path + tail == tail;
    } else {
      assert (path + tail)[1..] == path[1..] + tail;
      HashEnds(path[1..], tail);
    }
  }

  lemma {:induction false} TrimStartPadded(text: Text, before: string, s: string)
    requires AllWhite(text, before) && s != "" && !text.white(s[0])
    ensures TrimStart(text, before + s) == s
  {
    if before == "" {
      assert before + s == s;
    } else {
      assert (before + s)[1..] == before[1..] + s;
      TrimStartPadded(text, before[1..], s);
    }
  }

  lemma {:induction false} TrimEndPadded(text: Text, s: string, after: string)
    requires AllWhite(text, after) && s != "" && !text.white(s[|s| - 1])
    ensures TrimEnd(text, s + after) == s
  {
    if after == "" {
      assert s + after == s;
    } else {
      assert (s + after)[..|s + after| - 1] == s + after[..|after| - 1];
      TrimEndPadded(text, s, after[..|after| - 1]);
    }
  }

  /** Trimming takes off the white space on both sides and no more. */
  lemma TrimPadded(text: Text, before: string, s: string, after: string)
    requires AllWhite(text, before) && AllWhite(text, after) && Trimmed(text, s)
    ensures Trim(text, before + s + after) == s
  {
    assert before + s + after == before + (s + after);
    TrimStartPadded(text, before, s + after);
    TrimEndPadded(text, s, after);
  }

  lemma SchemeBeforeHash(path: string, tail: string, scheme: string)
    requires Fragment(tail) && '#' !in scheme && !(scheme <= path)
    ensures !StartsWith(path + tail, scheme)
  {
    if |scheme| <= |path| {
      assert (path + tail)[..|scheme|] == path[..|scheme|];
    } else if |scheme| <= |path + tail| {
      assert (path + tail)[..|scheme|][|path|] == '#' != scheme[|path|];
    }
  }

  lemma SpelledIsInternal(text: Text, path: string, tail: string)
    requires NoScheme(path) && Fragment(tail) && path != "" && '#' !in path
    ensures !IsExternal(path + tail)
  {
    hide StartsWith;
    SchemeBeforeHash(path, tail, "http://");
    SchemeBeforeHash(path, tail, "https://");
    SchemeBeforeHash(path, tail, "mailto:");
    assert !StartsWith(path + tail, "#") by {
      FirstIsNoHash(path, tail);
    }
  }

  lemma FirstIsNoHash(path: string, tail: string)
    requires path != "" && '#' !in path
    ensures !StartsWith(path + tail, "#")
  {
    assert path[0] in path;
    assert (path + tail)[..1][0] == path[0] && "#"[0] == '#';
  }

  /**
   * Whatever separators, empty and dot segments, surrounding white space and fragment a target is
   * written with, it names the components it spells, and nothing if it spells none.
   */
  lemma SpellingNormalizes(text: Text, target: string, segs: seq<string>, seps: seq<char>, before: string, after: string, tail: string)
    requires |segs| == |seps| + 1 && Spells(text, target, segs, seps, before, after, tail)
    ensures Normalize(text, target) == if Naming(segs) == [] then None else Some(Keyed(text, Naming(segs)))
  {
    hide Segments, Steps, StartsWith, Spelled, IsExternal, Naming, NoScheme, Trim;
    var s := Spelled(segs, seps);
    var path := before + s + after;
    SegmentsOfSpelled(segs, seps);
    SpelledIsInternal(text, path, tail);
    HashEnds(path, tail);
    TrimPadded(text, before, s, after);
    StepsAreNaming(text, segs);
  }

  function Slashes(n: nat): (seps: seq<char>)
    ensures |seps| == n && forall i :: 0 <= i < n ==> seps[i] == '/'
  {
    seq(n, _ => '/')
  }

  lemma {:induction false} JoinIsSpelled(p: NotePath)
    requires p != []
    ensures Spelled(p, Slashes(|p| - 1)) == Join(p)
  {
    if |p| > 1 {
      JoinIsSpelled(p[..|p| - 1]);
      assert Slashes(|p| - 1)[..|p| - 2] == Slashes(|p| - 2);
    }
  }

  lemma {:induction false} SpelledFrom(first: string, sep: char, segs: seq<string>, seps: seq<char>)
    requires |segs| == |seps| + 1
    ensures Spelled([first] + segs, [sep] + seps) == first + [sep] + Spelled(segs, seps)
  {
    var n := |segs| - 1;
    assert ([first] + segs)[..n + 1] == [first] + segs[..n] && ([sep] + seps)[..n] == ([sep] + seps[..|seps|])[..n];
    if n > 0 {
      assert ([sep] + seps)[..n] == [sep] + seps[..n - 1];
      SpelledFrom(first, sep, segs[..n], seps[..n - 1]);
    } else {
      assert [first] + segs[..0] == [first];
    }
  }

  lemma {:induction false} PlainIsNaming(first: string, p: NotePath)
    requires first == "" || first == "." || first == ".."
    requires forall i :: 0 <= i < |p| ==> Plain(p[i])
    ensures Naming(p) == p && Naming([first] + p) == p
  {
    if p != [] {
      var init, last := p[..|p| - 1], p[|p| - 1];
      assert forall i :: 0 <= i < |init| ==> init[i] == p[i];
      PlainIsNaming(first, init);
      assert p == init + [last] && Plain(last);
      assert ([first] + p)[..|p|] == [first] + init;
    } else {
      assert [first] + p == [first] && [first][..0] == [];
    }
  }

  lemma PlainIsSpelled(text: Text, p: NotePath, tail: string)
    requires PlainPath(text, p) && Fragment(tail)
    ensures Spells(text, Join(p) + tail, p, Slashes(|p| - 1), "", "", tail) && Naming(p) == p
  {
    hide Join, Spelled, StartsWith, Naming;
    JoinIsSpelled(p);
    JoinShape(p);
    NotWeb(p);
    NotMail(p);
    StartsWithIsPrefix(Join(p));
    PlainIsNaming("", p);
    forall i | 0 <= i < |p| ensures Segment(p[i]) {
      assert Plain(p[i]);
    }
    assert "" + Join(p) + "" == Join(p);
  }

  lemma LeadSegments(p: NotePath, first: string)
    requires (forall i :: 0 <= i < |p| ==> Plain(p[i])) && (first == "" || first == "." || first == "..")
    ensures forall i :: 0 <= i < |[first] + p| ==> Segment(([first] + p)[i])
  {
    forall i | 0 <= i < |[first] + p| ensures Segment(([first] + p)[i]) {
      assert i > 0 ==> Plain(p[i - 1]);
    }
  }

  lemma LeadIsTrimmed(text: Text, first: string, path: string)
    requires !text.white('/') && !text.white('.') && path != "" && !text.white(path[|path| - 1])
    requires first == "" || first == "." || first == ".."
    ensures Trimmed(text, first + "/" + path)
  {
    var lead := first + "/" + path;
    assert lead[|lead| - 1] == path[|path| - 1];
  }

  lemma LeadText(text: Text, p: NotePath, first: string)
    requires PlainPath(text, p) && !text.white('/') && !text.white('.')
    requires first == "" || first == "." || first == ".."
    ensures var lead := first + "/" + Join(p);
            Trimmed(text, lead) && NoScheme(lead) && Spelled([first] + p, ['/'] + Slashes(|p| - 1)) == lead
  {
    hide Join, Spelled, NoScheme, Trimmed, Plain;
    JoinShape(p);
    LeadIsTrimmed(text, first, Join(p));
    SlashIsNoScheme(first, Join(p));
    JoinIsSpelled(p);
    SpelledFrom(first, '/', p, Slashes(|p| - 1));
    assert first + ['/'] + Join(p) == first + "/" + Join(p);
  }

  lemma SpellsItself(text: Text, s: string, segs: seq<string>, seps: seq<char>, tail: string)
    requires |segs| == |seps| + 1 && Spelled(segs, seps) == s && Trimmed(text, s) && NoScheme(s) && Fragment(tail)
    requires forall i :: 0 <= i < |segs| ==> Segment(segs[i])
    requires forall i :: 0 <= i < |seps| ==> seps[i] == '/' || seps[i] == '\\'
    ensures Spells(text, s + tail, segs, seps, "", "", tail)
  {
    hide Spelled, Segment, NoScheme, Trimmed;
    assert "" + s + "" == s;
  }

  lemma LeadIsSpelled(text: Text, p: NotePath, first: string, tail: string)
    requires PlainPath(text, p) && Fragment(tail) && !text.white('/') && !text.white('.')
    requires first == "" || first == "." || first == ".."
    ensures var segs, seps := [first] + p, ['/'] + Slashes(|p| - 1);
            Spells(text, first + "/" + Join(p) + tail, segs, seps, "", "", tail) && Naming(segs) == p
  {
    hide Join, Spelled, Naming, NoScheme, Segment, Trimmed, Plain, Spells, StartsWith;
    PlainIsNaming(first, p);
    LeadSegments(p, first);
    LeadText(text, p, first);
    SpellsItself(text, first + "/" + Join(p), [first] + p, ['/'] + Slashes(|p| - 1), tail);
  }

  /** A plain path with a fragment or without, on its own, from the root, or from "." or "..", is that path. */
  lemma PlainSpellings(text: Text, p: NotePath, first: string, tail: string)
    requires PlainPath(text, p) && Fragment(tail) && !text.white('/') && !text.white('.')
    requires first == "" || first == "." || first == ".."
    ensures Normalize(text, Join(p) + tail) == Some(Keyed(text, p))
    ensures Normalize(text, first + "/" + Join(p) + tail) == Some(Keyed(text, p))
  {
    hide Join, Spelled, Normalize, Naming, Spells, Plain;
    PlainIsSpelled(text, p, tail);
    SpellingNormalizes(text, Join(p) + tail, p, Slashes(|p| - 1), "", "", tail);
    LeadIsSpelled(text, p, first, tail);
    SpellingNormalizes(text, first + "/" + Join(p) + tail, [first] + p, ['/'] + Slashes(|p| - 1), "", "", tail);
  }

  lemma StartsWithIsPrefix(s: string)
    ensures StartsWith(s, "http://") <==> "http://" <= s
    ensures StartsWith(s, "https://") <==> "https://" <= s
    ensures StartsWith(s, "mailto:") <==> "mailto:" <= s
  {
  }

  lemma SlashIsNoScheme(first: string, path: string)
    requires first == "" || first == "." || first == ".."
    ensures NoScheme(first + "/" + path)
  {
    var s := first + "/" + path;
    assert s[0] == '/' || s[0] == '.';
    assert "http://"[0] == 'h' && "https://"[0] == 'h' && "mailto:"[0] == 'm';
  }

  /** The segment names the component: equal up to case, or equal up to case without the ".md". */
  ghost predicate SameName(text: Text, seg: string, component: string) {
    || text.lower(seg) == text.lower(component)
    || (text.lower(seg) + ".md" == text.lower(component)
        && !(|text.lower(seg)| >= 3 && text.lower(seg)[|text.lower(seg)| - 3..] == ".md"))
  }

  /** The segments name the last components of the path. */
  ghost predicate NamesEndOf(text: Text, segs: seq<string>, p: NotePath) {
    var parts := Naming(segs);
    0 < |parts| <= |p| && forall i :: 0 <= i < |parts| ==> SameName(text, parts[i], p[|p| - |parts| + i])
  }

  lemma SameNameSameKey(text: Text, seg: string, component: string)
    requires SameName(text, seg, component)
    ensures Key(text, seg) == Key(text, component)
  {
    var low := text.lower(seg);
    assert (low + ".md")[|low + ".md"| - 3..] == ".md" && (low + ".md")[..|low + ".md"| - 3] == low;
  }

  lemma EndIsSuffixKey(text: Text, segs: seq<string>, p: NotePath)
    requires NamesEndOf(text, segs, p)
    ensures IsSuffixKey(text, p, Keyed(text, Naming(segs)))
  {
    hide Key, SameName, Naming;
    var parts := Naming(segs);
    forall i | 0 <= i < |parts| ensures Key(text, parts[i]) == Key(text, p[|p| - |parts| + i]) {
      SameNameSameKey(text, parts[i], p[|p| - |parts| + i]);
    }
    assert Keyed(text, parts) == Keyed(text, p)[|p| - |parts|..];
  }

  /**
   * A link that names the last components of a live note's path resolves, in whatever case, with or
   * without ".md", with either separator, leading "/" or "./", white space or a fragment; and to
   * that note if no other note is found under those components. Its spelling makes no difference:
   * it resolves as any other spelling of the same components does.
   */
  lemma SpellingResolves(v: LinkView, p: NotePath, target: string, segs: seq<string>, seps: seq<char>, before: string, after: string,
                         tail: string)
    requires ViewOk(v) && p in v.notes && |segs| == |seps| + 1 && Spells(v.names.text, target, segs, seps, before, after, tail)
    requires NamesEndOf(v.names.text, segs, p)
    ensures Resolve(v.names, target).Some?
    ensures var parts := Keyed(v.names.text, p)[|p| - |Naming(segs)|..];
            (forall q :: ByStem(v, parts, q) || ByAlias(v, parts, q) || BySuffix(v, parts, q) ==> q == p)
            ==> Resolve(v.names, target) == Some(p)
    ensures |Naming(segs)| == |p| && PlainPath(v.names.text, p) ==> Resolve(v.names, target) == Resolve(v.names, Join(p))
  {
    hide Normalize, Naming, Spells, ByStem, ByAlias, PlainPath, NamesEndOf, ViewOk, ResolveParts;
    var text := v.names.text;
    SpellingNormalizes(text, target, segs, seps, before, after, tail);
    assert Naming(segs) != [] && |Naming(segs)| <= |p| by {
      EndIsNotEmpty(text, segs, p);
    }
    EndIsSuffixKey(text, segs, p);
    var parts := Keyed(text, Naming(segs));
    assert parts == Keyed(text, p)[|p| - |Naming(segs)|..];
    ResolveMeaning(v, target, parts);
    assert BySuffix(v, parts, p);
    if |Naming(segs)| == |p| && PlainPath(text, p) {
      OwnPathNormalizes(text, p);
      assert Keyed(text, p)[0..] == Keyed(text, p);
    }
  }

  lemma EndIsNotEmpty(text: Text, segs: seq<string>, p: NotePath)
    requires NamesEndOf(text, segs, p)
    ensures 0 < |Naming(segs)| <= |p|
  {
  }

  // ---------------------------------------------------------------------------------------------
  // Which links take part
  // ---------------------------------------------------------------------------------------------

  /** What follows the last dot is an attachment extension, and something stands before that dot. */
  ghost predicate IsAttachment(name: string) {
    exists i :: 0 < i < |name| && name[i] == '.' && '.' !in name[i + 1..] && IsAttachmentExtension(name[i + 1..])
  }

  /**
   * A wikilink, embed, block or heading reference or Markdown link that spells a path takes part in
   * the graph unless the last segment is an attachment; an anchor or external link never does.
   */
  lemma WhichLinksTakePart(text: Text, link: Link, segs: seq<string>, seps: seq<char>, after: string, tail: string)
    requires |segs| == |seps| + 1 && Spells(text, link.target, segs, seps, "", after, tail)
    ensures IsGraphLink(text, link) <==> !IsAttachment(segs[|segs| - 1]) && link.kind != Anchor && link.kind != ExternalLink
  {
    hide Segments, LastIndex, IsAttachmentExtension, NoScheme, Spelled, Trim;
    var s := Spelled(segs, seps);
    SegmentsOfSpelled(segs, seps);
    assert "" + s + after == s + after;
    HashEnds(s + after, tail);
    TrimEndPadded(text, s, after);
    TrimPadded(text, "", s, after);
    LastDot(segs[|segs| - 1]);
  }

  lemma LastDot(name: string)
    ensures IsAttachment(name) <==>
              match LastIndex(name, '.')
              case None => false
              case Some(dot) => dot != 0 && IsAttachmentExtension(name[dot + 1..])
  {
    hide IsAttachmentExtension;
    match LastIndex(name, '.')
    case None =>
    case Some(dot) =>
      assert '.' !in name[dot + 1..];
      forall i | 0 < i < dot && name[i] == '.' ensures '.' in name[i + 1..] {
        assert name[i + 1..][dot - i - 1] == '.';
      }
  }

  /** A note's stem is its file name up to the last dot; a name whose only dot leads, or without any, is its own stem. */
  lemma StemOfFileName(dir: NotePath, name: string, extension: string)
    requires '.' !in extension
    ensures name != "" && (name != "." || extension != "") ==> Stem(dir + [name + "." + extension]) == Some(name)
    ensures extension != "" ==> Stem(dir + ["." + extension]) == Some("." + extension)
    ensures extension != "/" && extension != "" ==> Stem(dir + [extension]) == Some(extension)
  {
    var full := name + "." + extension;
    LastDotAt(full, |name|);
    assert full[..|name|] == name && full[|name| + 1..] == extension;
    assert |full| == 2 && name != "" ==> full[0] == name[0];
    LastDotAt("." + extension, 0);
    assert ("." + extension)[1..] == extension;
    NoDot(extension);
    assert extension != "" ==> extension[0] in extension;
    assert |name| == 1 ==> name == [name[0]];
  }

  lemma {:induction false} LastDotAt(s: string, i: nat)
    requires i < |s| && s[i] == '.' && '.' !in s[i + 1..]
    ensures LastIndex(s, '.') == Some(i)
  {
    var dot := LastIndex(s, '.');
    assert forall j :: i < j < |s| ==> s[j] == s[i + 1..][j - i - 1];
  }

  lemma NoDot(s: string)
    requires '.' !in s
    ensures LastIndex(s, '.') == None
  {
    var dot := LastIndex(s, '.');
  }

  /** A note's own extensions are none of an attachment's, in whatever case. */
  lemma NotesAreNoAttachments(extension: string)
    requires var low := AsciiLower(extension); low == "md" || low == "markdown" || low == "txt"
    ensures !IsAttachmentExtension(extension)
  {
  }

  lemma PicturesAreAttachments(extension: string)
    requires var low := AsciiLower(extension); low == "png" || low == "jpg" || low == "jpeg" || low == "gif" || low == "svg" || low == "pdf"
    ensures IsAttachmentExtension(extension)
  {
  }

  /** A web address, a mail address or a fragment names no note. */
  lemma ExternalNamesNothing(text: Text, target: string)
    requires "http://" <= target || "https://" <= target || "mailto:" <= target || "#" <= target
    ensures Normalize(text, target) == None
  {
  }

  /**
   * A single name, in whatever case, resolves to a note with that stem if there is one, and to no
   * note that has the name only as an alias or a path component.
   */
  lemma StemComesFirst(v: LinkView, p: NotePath, target: string, segs: seq<string>, seps: seq<char>, before: string, after: string,
                       tail: string, name: string, stem: string)
    requires ViewOk(v) && p in v.notes && |segs| == |seps| + 1 && Spells(v.names.text, target, segs, seps, before, after, tail)
    requires Naming(segs) == [name] && Stem(p) == Some(stem) && v.names.text.lower(name) == v.names.text.lower(stem)
    requires var low := v.names.text.lower(name); !(|low| >= 3 && low[|low| - 3..] == ".md")
    ensures var text := v.names.text;
            match Resolve(v.names, target)
            case None => false
            case Some(q) => q in v.notes && Stem(q).Some? && text.lower(Stem(q).value) == text.lower(stem)
  {
    hide Normalize, Naming, Spells, Stem, ViewOk, ResolveParts;
    var text := v.names.text;
    SpellingNormalizes(text, target, segs, seps, before, after, tail);
    var parts := Keyed(text, [name]);
    assert parts == [text.lower(name)];
    ResolveMeaning(v, target, parts);
    assert ByStem(v, parts, p);
  }

  /** A fragment alone stays within its document. */
  lemma FragmentTakesNoPart(text: Text, link: Link)
    requires link.target != "" && link.target[0] == '#'
    ensures !IsGraphLink(text, link) && Normalize(text, link.target) == None
  {
    assert "#"[0] == '#' && link.target[..1] == "#";
  }
}
