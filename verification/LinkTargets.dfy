/** How link targets are read: normalization, the note test, and the keys a note is found under. */
module LinkTargets {
  import opened Wrappers
  import opened Notes
  import opened Texts

  predicate IsSeparator(c: char) {
    c == '/' || c == '\\'
  }

  /** The pieces of `s` between separators; there is always at least one, maybe empty. */
  function Segments(s: string): (r: seq<string>)
    ensures r != []
  {
    if s == "" then [""]
    else
      var rest, c := Segments(s[..|s| - 1]), s[|s| - 1];
      if IsSeparator(c) then rest + [""] else rest[..|rest| - 1] + [rest[|rest| - 1] + [c]]
  }

  function Join(parts: seq<string>): string {
    if parts == [] then ""
    else if |parts| == 1 then parts[0]
    else Join(parts[..|parts| - 1]) + "/" + parts[|parts| - 1]
  }

  function BeforeHash(s: string): string {
    if s == "" || s[0] == '#' then "" else [s[0]] + BeforeHash(s[1..])
  }

  function StripSuffix(s: string, suffix: string): string {
    if |suffix| <= |s| && s[|s| - |suffix|..] == suffix then s[..|s| - |suffix|] else s
  }

  /** A path component as the suffix index and normalized targets spell it. */
  function Key(text: Text, component: string): string {
    StripSuffix(text.lower(component), ".md")
  }

  function Keyed(text: Text, path: NotePath): (keys: seq<string>)
    ensures |keys| == |path|
    ensures forall i :: 0 <= i < |path| ==> keys[i] == Key(text, path[i])
  {
    seq(|path|, i requires 0 <= i < |path| => Key(text, path[i]))
  }

  predicate IsStep(segment: string) {
    segment != "" && segment != "." && segment != ".."
  }

  function Steps(text: Text, segments: seq<string>): seq<string> {
    if segments == [] then []
    else
      var rest, last := Steps(text, segments[..|segments| - 1]), segments[|segments| - 1];
      if IsStep(last) then rest + [Key(text, last)] else rest
  }

  predicate IsExternal(target: string) {
    || StartsWith(target, "http://") || StartsWith(target, "https://")
    || StartsWith(target, "mailto:") || StartsWith(target, "#")
  }

  /** The path components a target names, or None if it cannot name a note. */
  function Normalize(text: Text, target: string): (parts: Option<seq<string>>)
    ensures parts.Some? ==> parts.value != []
  {
    if IsExternal(target) then None
    else
      var path := Trim(text, BeforeHash(target));
      if path == "" then None
      else
        var parts := Steps(text, Segments(path));
        if parts == [] then None else Some(parts)
  }

  /** The last position of `c` in `s`, or None. */
  function LastIndex(s: string, c: char): (i: Option<nat>)
    ensures i.Some? ==> i.value < |s| && s[i.value] == c && forall j :: i.value < j < |s| ==> s[j] != c
    ensures i.None? ==> c !in s
  {
    if s == "" then None
    else if s[|s| - 1] == c then Some(|s| - 1)
    else LastIndex(s[..|s| - 1], c)
  }

  /** The file name without its extension: the whole name if its only dot leads. */
  function Stem(path: NotePath): Option<string> {
    if path == [] || path[|path| - 1] in ["..", ".", "/"] then None
    else
      var name := path[|path| - 1];
      match LastIndex(name, '.')
      case None => Some(name)
      case Some(dot) => Some(if dot == 0 then name else name[..dot])
  }

  function StemKey(text: Text, path: NotePath): Option<string> {
    match Stem(path)
    case None => None
    case Some(stem) => Some(text.lower(stem))
  }

  /** `key` is a non-empty run of components at the end of the path, as the index spells them. */
  predicate IsSuffixKey(text: Text, path: NotePath, key: seq<string>) {
    0 < |key| <= |path| && key == Keyed(text, path)[|path| - |key|..]
  }

  predicate IsPicture(ext: string) {
    ext == "png" || ext == "jpg" || ext == "jpeg" || ext == "gif" || ext == "svg" || ext == "webp" ||
    ext == "bmp" || ext == "ico" || ext == "avif" || ext == "tiff"
  }

  predicate IsDocument(ext: string) {
    ext == "pdf" || ext == "csv" || ext == "tsv" || ext == "json" || ext == "yaml" || ext == "yml" ||
    ext == "xml" || ext == "parquet" || ext == "sqlite" || ext == "db"
  }

  predicate IsWebAsset(ext: string) {
    ext == "html" || ext == "htm" || ext == "css" || ext == "js" || ext == "mjs" || ext == "wasm"
  }

  predicate IsMedia(ext: string) {
    ext == "mp4" || ext == "mov" || ext == "webm" || ext == "mkv" || ext == "mp3" || ext == "wav" ||
    ext == "ogg" || ext == "m4a" || ext == "flac"
  }

  predicate IsArchive(ext: string) {
    ext == "zip" || ext == "tar" || ext == "gz" || ext == "tgz" || ext == "7z" || ext == "rar"
  }

  predicate IsOffice(ext: string) {
    ext == "xlsx" || ext == "docx" || ext == "pptx" || ext == "key" || ext == "numbers" ||
    ext == "pages"
  }

  /** The extensions, in any case, of what is no note. */
  predicate IsAttachmentExtension(extension: string) {
    var ext := AsciiLower(extension);
    IsPicture(ext) || IsDocument(ext) || IsWebAsset(ext) || IsMedia(ext) || IsArchive(ext) || IsOffice(ext)
  }

  /** A target names a note unless its last segment carries an attachment extension. */
  predicate IsNoteReference(text: Text, target: string) {
    var path := TrimEnd(text, BeforeHash(target));
    path != "" &&
    var segments := Segments(path);
    var last := segments[|segments| - 1];
    match LastIndex(last, '.')
    case None => true
    case Some(dot) => dot == 0 || !IsAttachmentExtension(last[dot + 1..])
  }

  /** The links that take part in the note graph: note references with a target outside the document. */
  predicate IsGraphLink(text: Text, link: Link) {
    && !link.kind.Anchor? && !link.kind.ExternalLink?
    && IsNoteReference(text, link.target)
    && Trim(text, BeforeHash(link.target)) != ""
  }

  // ---------------------------------------------------------------------------------------------
  // A path written out as a target names its own components
  // ---------------------------------------------------------------------------------------------

  /** A path component that survives being written into a link. */
  ghost predicate Plain(component: string) {
    IsStep(component) && forall i :: 0 <= i < |component| ==> !IsSeparator(component[i]) && component[i] != '#'
  }

  ghost predicate PlainPath(text: Text, path: NotePath) {
    && path != []
    && (forall i :: 0 <= i < |path| ==> Plain(path[i]))
    && !StartsWith(path[0], "mailto:")
    && !text.white(path[0][0]) && !text.white(path[|path| - 1][|path[|path| - 1]| - 1])
  }

  lemma {:induction false} SegmentsOfPlain(before: string, sep: char, last: string)
    requires IsSeparator(sep) && forall i :: 0 <= i < |last| ==> !IsSeparator(last[i])
    ensures Segments(before + [sep] + last) == Segments(before) + [last]
  {
    var s := before + [sep] + last;
    if last == "" {
      assert s[..|s| - 1] == before;
    } else {
      assert s[..|s| - 1] == before + [sep] + last[..|last| - 1];
      SegmentsOfPlain(before, sep, last[..|last| - 1]);
      assert last == last[..|last| - 1] + [last[|last| - 1]];
    }
  }

  lemma {:induction false} SegmentsOfOne(s: string)
    requires forall i :: 0 <= i < |s| ==> !IsSeparator(s[i])
    ensures Segments(s) == [s]
  {
    if s != "" {
      SegmentsOfOne(s[..|s| - 1]);
      assert s == s[..|s| - 1] + [s[|s| - 1]];
    }
  }

  lemma {:induction false} SegmentsOfJoin(path: NotePath)
    requires path != [] && forall i :: 0 <= i < |path| ==> Plain(path[i])
    ensures Segments(Join(path)) == path
  {
    hide Segments;
    var init, last := path[..|path| - 1], path[|path| - 1];
    assert path == init + [last];
    assert Plain(last);
    if init == [] {
      SegmentsOfOne(last);
    } else {
      forall i | 0 <= i < |init| ensures Plain(init[i]) {
        assert init[i] == path[i];
      }
      SegmentsOfJoin(init);
      SegmentsOfPlain(Join(init), '/', last);
    }
  }

  lemma {:induction false} StepsOfPlain(text: Text, path: NotePath)
    requires forall i :: 0 <= i < |path| ==> Plain(path[i])
    ensures Steps(text, path) == Keyed(text, path)
  {
    if path != [] {
      StepsOfPlain(text, path[..|path| - 1]);
    }
  }

  /** What a joined plain path looks like from outside: its first and last characters, and no "//". */
  lemma {:induction false} JoinShape(path: NotePath)
    requires path != [] && forall i :: 0 <= i < |path| ==> Plain(path[i])
    ensures var s := Join(path);
            && |path[0]| <= |s| && s[..|path[0]|] == path[0]
            && |s| > 0 && |path[|path| - 1]| > 0 && s[|s| - 1] == path[|path| - 1][|path[|path| - 1]| - 1]
            && (|path[0]| < |s| ==> s[|path[0]|] == '/' && |path[0]| + 1 < |s| && s[|path[0]| + 1] != '/')
            && (forall i :: 0 <= i < |s| ==> s[i] != '#')
            && (forall i :: 0 <= i < |path[0]| ==> path[0][i] != '/')
  {
    if |path| > 1 {
      var init, last := path[..|path| - 1], path[|path| - 1];
      JoinShape(init);
      assert IsStep(last) && !IsSeparator(last[0]);
      assert init[0] == path[0];
    }
  }

  lemma {:induction false} NoHash(s: string)
    requires forall i :: 0 <= i < |s| ==> s[i] != '#'
    ensures BeforeHash(s) == s
  {
    if s != "" {
      NoHash(s[1..]);
    }
  }

  /** Joining non-empty components never puts "//" after the first of them. */
  lemma NoDoubleSlash(path: NotePath, prefix: string, k: nat)
    requires path != [] && forall i :: 0 <= i < |path| ==> Plain(path[i])
    requires k + 1 < |prefix| && prefix[k] == '/' && prefix[k + 1] == '/'
    requires forall i :: 0 <= i < k ==> prefix[i] != '/'
    ensures !StartsWith(Join(path), prefix)
  {
    hide Plain, Join;
    JoinShape(path);
  }

  /** A prefix without a slash would have to lie within the first component. */
  lemma NoSlashless(path: NotePath, prefix: string)
    requires path != [] && forall i :: 0 <= i < |path| ==> Plain(path[i])
    requires !StartsWith(path[0], prefix) && forall i :: 0 <= i < |prefix| ==> prefix[i] != '/'
    ensures !StartsWith(Join(path), prefix)
  {
    hide Plain, Join;
    JoinShape(path);
  }

  lemma NotMail(path: NotePath)
    requires path != [] && (forall i :: 0 <= i < |path| ==> Plain(path[i])) && !StartsWith(path[0], "mailto:")
    ensures !StartsWith(Join(path), "mailto:")
  {
    hide Plain, Join, StartsWith;
    var mail := "mailto:";
    assert forall i :: 0 <= i < |mail| ==> mail[i] != '/';
    NoSlashless(path, mail);
  }

  lemma NotFragment(path: NotePath)
    requires path != [] && forall i :: 0 <= i < |path| ==> Plain(path[i])
    ensures !StartsWith(Join(path), "#")
  {
    hide Plain, Join;
    JoinShape(path);
    assert "#"[0] == '#';
  }

  lemma NotWeb(path: NotePath)
    requires path != [] && forall i :: 0 <= i < |path| ==> Plain(path[i])
    ensures !StartsWith(Join(path), "http://") && !StartsWith(Join(path), "https://")
  {
    hide Plain, Join, StartsWith;
    NoDoubleSlash(path, "http://", 5);
    NoDoubleSlash(path, "https://", 6);
  }

  /** Writing a plain path out as a link target names exactly its own components. */
  lemma OwnPathNormalizes(text: Text, path: NotePath)
    requires PlainPath(text, path)
    ensures Normalize(text, Join(path)) == Some(Keyed(text, path))
    ensures IsSuffixKey(text, path, Keyed(text, path))
  {
    hide Join, Segments, Steps, StartsWith;
    var s := Join(path);
    JoinShape(path);
    NotMail(path);
    NotFragment(path);
    NotWeb(path);
    NoHash(s);
    assert s[0] == path[0][0];
    assert Trim(text, s) == s;
    SegmentsOfJoin(path);
    StepsOfPlain(text, path);
    assert Keyed(text, path)[0..] == Keyed(text, path);
  }
}
