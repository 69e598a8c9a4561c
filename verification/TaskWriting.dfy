/**
 * Metadata written out, item by item, and what reading it back must give. The symbols and keys stand
 * here as the Tasks and Dataview formats spell them, independently of the parsers.
 */
module TaskWriting {
  import opened Wrappers
  import opened Texts
  import opened TaskMetadata

  datatype Rank = Highest | High | Medium | Low | Lowest

  datatype Written =
    | Dated(field: Field, date: string)
    | Recurs(rule: string)
    | WhenDone(action: string)
    | Named(name: string)
    | After(ids: seq<string>)
    | Ranked(rank: Rank)
    | Tagged(tag: string)
    | Anchored(anchor: string)
    | Inline(key: string, value: string, square: bool)

  predicate IsDate(f: Field) {
    f in {Due, Scheduled, Start, Done, Cancelled, Created}
  }

  function DateSymbol(f: Field): char
    requires IsDate(f)
  {
    match f
    case Due => '\U{1F4C5}'
    case Scheduled => '\U{23F3}'
    case Start => '\U{1F6EB}'
    case Done => '\U{2705}'
    case Cancelled => '\U{274C}'
    case Created => '\U{2795}'
  }

  function RankSymbol(r: Rank): char {
    match r
    case Highest => '\U{1F53A}'
    case High => '\U{23EB}'
    case Medium => '\U{1F53C}'
    case Low => '\U{1F53D}'
    case Lowest => '\U{23EC}'
  }

  function Commaed(ids: seq<string>): string
    requires ids != []
  {
    if |ids| == 1 then ids[0] else Commaed(ids[..|ids| - 1]) + "," + ids[|ids| - 1]
  }

  /** One item, with `gap` behind its marker or key. */
  function Write(item: Written, gap: string): string
    requires item.Dated? ==> IsDate(item.field)
    requires item.After? ==> item.ids != []
  {
    match item
    case Dated(f, date) => [DateSymbol(f)] + gap + date
    case Recurs(rule) => ['\U{1F501}'] + gap + rule
    case WhenDone(action) => ['\U{1F3C1}'] + gap + action
    case Named(name) => ['\U{1F194}'] + gap + name
    case After(ids) => ['\U{26D4}'] + gap + Commaed(ids)
    case Ranked(r) => [RankSymbol(r)]
    case Tagged(tag) => "#" + tag
    case Anchored(anchor) => "^" + anchor
    case Inline(key, value, square) =>
      [if square then '[' else '('] + key + "::" + gap + value + [if square then ']' else ')']
  }

  /** One field set and nothing else. */
  function Only(f: Field, value: string): Metadata
    requires f != Priority
  {
    match f
    case Due => NOTHING.(due := Some(value))
    case Scheduled => NOTHING.(scheduled := Some(value))
    case Start => NOTHING.(start := Some(value))
    case Done => NOTHING.(done := Some(value))
    case Cancelled => NOTHING.(cancelled := Some(value))
    case Created => NOTHING.(created := Some(value))
    case Recurrence => NOTHING.(recurrence := Some(value))
    case OnCompletion => NOTHING.(onCompletion := Some(value))
    case Id => NOTHING.(id := Some(value))
    case BlockRef => NOTHING.(blockRef := Some(value))
  }

  function RankSays(value: string): Metadata {
    match AsciiLower(value)
    case "highest" => NOTHING.(priority := Some(RankSymbol(Highest)))
    case "high" => NOTHING.(priority := Some(RankSymbol(High)))
    case "medium" => NOTHING.(priority := Some(RankSymbol(Medium)))
    case "low" => NOTHING.(priority := Some(RankSymbol(Low)))
    case "lowest" => NOTHING.(priority := Some(RankSymbol(Lowest)))
    case _ => NOTHING
  }

  /** What an inline field of each key says, its key in lower case. */
  function KeySays(text: Text, key: string, value: string): Metadata {
    match key
    case "due" => Only(Due, value)
    case "scheduled" => Only(Scheduled, value)
    case "start" => Only(Start, value)
    case "done" => Only(Done, value)
    case "completion" => Only(Done, value)
    case "cancelled" => Only(Cancelled, value)
    case "canceled" => Only(Cancelled, value)
    case "created" => Only(Created, value)
    case "recurrence" => Only(Recurrence, value)
    case "repeat" => Only(Recurrence, value)
    case "oncompletion" => Only(OnCompletion, AsciiLower(value))
    case "id" => Only(Id, value)
    case "dependson" => NOTHING.(dependsOn := SplitIds(text, value))
    case "priority" => RankSays(value)
    case _ => NOTHING
  }

  function Means(text: Text, item: Written): Metadata
    requires item.Dated? ==> IsDate(item.field)
  {
    match item
    case Dated(f, date) => Only(f, date)
    case Recurs(rule) => Only(Recurrence, rule)
    case WhenDone(action) => Only(OnCompletion, AsciiLower(action))
    case Named(name) => Only(Id, name)
    case After(ids) => NOTHING.(dependsOn := ids)
    case Ranked(r) => NOTHING.(priority := Some(RankSymbol(r)))
    case Tagged(tag) => NOTHING.(tags := [tag])
    case Anchored(anchor) => Only(BlockRef, anchor)
    case Inline(key, value, _) =>
      KeySays(text, AsciiLower(key), value).(fields := map[AsciiLower(key) := value])
  }

  /** Lowering a text lowers its capital letters and leaves all other characters. */
  lemma LowersLetters(s: string, low: string)
    ensures AsciiLower(s) == low <==>
              && |s| == |low|
              && forall i :: 0 <= i < |s| ==>
                   if 'A' <= s[i] <= 'Z' then low[i] as int == s[i] as int + ('a' as int - 'A' as int) else low[i] == s[i]
  {
    if AsciiLower(s) != low && |s| == |low| {
      var i :| 0 <= i < |s| && AsciiLower(s)[i] != low[i];
    }
  }

  // ---------------------------------------------------------------------------------------------
  // What can be written
  // ---------------------------------------------------------------------------------------------

  predicate IsMarker(c: char) {
    || IsPriorityChar(c)
    || c in [DUE, SCHEDULED, START, DONE, CANCELLED, CREATED, RECURRENCE, ON_COMPLETION, ID, DEPENDS_ON]
  }

  /** A character with which no plain word may begin. */
  predicate IsTokenChar(c: char) {
    IsMarker(c) || c == '#' || c == '^' || c == '[' || c == '('
  }

  /** What Unicode says of the characters the format is made of. */
  ghost predicate Unicode(text: Text) {
    && text.white(' ') && text.white('\t')
    && (forall c :: text.alphanumeric(c) ==> !text.white(c))
    && (forall c :: IsTokenChar(c) ==> !text.white(c) && !text.alphanumeric(c))
    && !text.white('-') && !text.white('_') && !text.white(',')
    && !text.alphanumeric(':') && !text.alphanumeric(' ')
  }

  ghost predicate Word(text: Text, s: string) {
    s != "" && forall i :: 0 <= i < |s| ==> !text.white(s[i])
  }

  /** Letters and digits of any script, "-" and "_"; a tag may hold "/" as well. */
  ghost predicate InName(text: Text, c: char) {
    text.alphanumeric(c) || c == '-' || c == '_'
  }

  ghost predicate InTag(text: Text, c: char) {
    text.alphanumeric(c) || c == '-' || c == '_' || c == '/'
  }

  ghost predicate Identifier(text: Text, s: string) {
    s != "" && forall i :: 0 <= i < |s| ==> InName(text, s[i])
  }

  ghost predicate TagName(text: Text, name: string) {
    && name != "" && (forall i :: 0 <= i < |name| ==> InTag(text, name[i]))
    && (exists i :: 0 <= i < |name| && text.alphabetic(name[i]))
  }

  /** Words with one space between each two of them, none of which begins like a token. */
  ghost predicate Words(text: Text, s: string) {
    && s != "" && !text.white(s[0]) && !text.white(s[|s| - 1]) && !IsTokenChar(s[0])
    && (forall i :: 0 <= i < |s| && text.white(s[i]) ==> s[i] == ' ')
    && (forall i :: 0 < i < |s| && text.white(s[i - 1]) ==> !text.white(s[i]) && !IsTokenChar(s[i]))
  }

  /** The value closes all the brackets it opens and no others, and is not trimmed any further. */
  ghost predicate Enclosed(text: Text, value: string, closing: char) {
    && DepthAfter(value) == Depth(0, 0) && (forall k :: 0 <= k < |value| ==> !Closes(value, closing, k))
    && (value != "" ==> !text.white(value[0]) && !text.white(value[|value| - 1]))
  }

  ghost predicate Writable(text: Text, item: Written) {
    match item
    case Dated(f, date) => IsDate(f) && Word(text, date)
    case Recurs(rule) => Words(text, rule)
    case WhenDone(action) => Word(text, action)
    case Named(name) => Identifier(text, name)
    case After(ids) => ids != [] && forall i :: 0 <= i < |ids| ==> Word(text, ids[i]) && ',' !in ids[i]
    case Ranked(_) => true
    case Tagged(tag) => TagName(text, tag)
    case Anchored(anchor) => Identifier(text, anchor)
    case Inline(key, value, square) => Identifier(text, key) && Enclosed(text, value, if square then ']' else ')')
  }

  /** What may stand behind an item: nothing, or a space and a further item. */
  ghost predicate Follows(text: Text, rest: string) {
    rest == "" || (|rest| > 1 && rest[0] == ' ' && !text.white(rest[1]) && StartsToken(rest[1..]))
  }

  /** A recurrence rule takes the space behind it with it. */
  function Left(item: Written, rest: string): string {
    if item.Recurs? && rest != "" then rest[1..] else rest
  }

  // ---------------------------------------------------------------------------------------------
  // Pieces
  // ---------------------------------------------------------------------------------------------

  lemma {:induction false} RunStopsAt(s: string, p: char -> bool, n: nat)
    requires n <= |s| && (forall i :: 0 <= i < n ==> p(s[i])) && (n < |s| ==> !p(s[n]))
    ensures RunLength(s, p) == n
  {
    if n > 0 {
      RunStopsAt(s[1..], p, n - 1);
    }
  }

  lemma TakesWord(s: string, rest: string, p: char -> bool)
    requires s != "" && (forall i :: 0 <= i < |s| ==> p(s[i])) && (rest != "" ==> !p(rest[0]))
    ensures TakeWhile1(s + rest, p) == Took(s, rest)
  {
    RunStopsAt(s + rest, p, |s|);
    assert (s + rest)[..|s|] == s && (s + rest)[|s|..] == rest;
  }

  ghost predicate Gap(s: string) {
    forall i :: 0 <= i < |s| ==> s[i] == ' ' || s[i] == '\t'
  }

  lemma {:induction false} GapSkipped(gap: string, s: string)
    requires Gap(gap) && (s != "" ==> s[0] != ' ' && s[0] != '\t')
    ensures Space0(gap + s) == s
  {
    hide Tail;
    if gap == "" {
      assert gap + s == s;
    } else {
      assert (gap + s)[1..] == gap[1..] + s;
      GapSkipped(gap[1..], s);
    }
  }

  lemma NoSpaces(s: string)
    requires s != "" ==> s[0] != ' ' && s[0] != '\t'
    ensures Space0(s) == s && Space0(" " + s) == s
  {
    hide Tail;
    assert (" " + s)[1..] == s;
    assert Space0(s) == s;
  }

  /** A marker, any spaces and tabs, and a word. */
  lemma MarkedWordTaken(marker: char, gap: string, word: string, rest: string, p: char -> bool)
    requires Gap(gap) && word != "" && (forall i :: 0 <= i < |word| ==> p(word[i])) && (rest != "" ==> !p(rest[0]))
    requires word[0] != ' ' && word[0] != '\t'
    ensures MarkedWord([marker] + gap + word + rest, p) == Took(word, rest)
  {
    hide Space0, TakeWhile1, Gap;
    var s := [marker] + gap + word + rest;
    assert s[1..] == gap + (word + rest);
    GapSkipped(gap, word + rest);
    TakesWord(word, rest, p);
  }

  lemma TrimmedWord(text: Text, s: string)
    requires s != "" ==> !text.white(s[0]) && !text.white(s[|s| - 1])
    ensures Trim(text, s) == s && TrimStart(text, s) == s && TrimEnd(text, s) == s
  {
  }

  // ---------------------------------------------------------------------------------------------
  // Recurrence rules
  // ---------------------------------------------------------------------------------------------

  lemma {:induction false} JoinWordsFront(word: string, words: seq<string>)
    requires words != []
    ensures JoinWords([word] + words) == word + " " + JoinWords(words)
  {
    var n := |words| - 1;
    assert ([word] + words)[..n + 1] == [word] + words[..n];
    if n == 0 {
      assert [word] + words[..0] == [word];
      assert JoinWords([word] + words) == JoinWords([word]) + " " + words[0];
    } else {
      JoinWordsFront(word, words[..n]);
      assert word + " " + JoinWords(words[..n]) + " " + words[n] == word + " " + (JoinWords(words[..n]) + " " + words[n]);
    }
  }

  lemma FirstWordOf(text: Text, rule: string) returns (n: nat)
    requires Unicode(text) && Words(text, rule)
    ensures 0 < n <= |rule| && (forall i :: 0 <= i < n ==> !text.white(rule[i]))
    ensures n < |rule| ==> rule[n] == ' ' && text.white(rule[n]) && n + 1 < |rule| && Words(text, rule[n + 1..])
  {
    n := RunLength(rule, NotWhite(text));
    assert n > 0;
    if n < |rule| {
      assert text.white(rule[n]) && n + 1 < |rule|;
      var rest := rule[n + 1..];
      assert rest[0] == rule[n + 1] && rest[|rest| - 1] == rule[|rule| - 1];
      forall i | 0 < i < |rest| && text.white(rest[i - 1]) ensures !text.white(rest[i]) && !IsTokenChar(rest[i]) {
        assert rest[i - 1] == rule[n + 1 + i - 1] && rest[i] == rule[n + 1 + i];
      }
    }
  }

  lemma PlainStartsNoToken(text: Text, s: string)
    requires s != "" && !text.white(s[0]) && !IsTokenChar(s[0])
    ensures TrimStart(text, s) == s && !StartsToken(s)
  {
  }

  lemma RulesEnd(text: Text, rest: string, words: seq<string>)
    requires Unicode(text) && Follows(text, rest)
    ensures RecurrenceWords(text, Space0(rest), words) == Took(words, if rest == "" then "" else rest[1..])
  {
    hide StartsToken, Tail;
    if rest != "" {
      assert rest == " " + rest[1..];
      NoSpaces(rest[1..]);
      assert TrimStart(text, rest[1..]) == rest[1..];
    }
  }

  /** The words of a rule are read one by one up to what follows, and joined they are the rule. */
  lemma {:induction false} RuleRead(text: Text, rule: string, rest: string, words: seq<string>) returns (more: seq<string>)
    requires Unicode(text) && Words(text, rule) && Follows(text, rest)
    ensures more != [] && JoinWords(more) == rule
    ensures RecurrenceWords(text, rule + rest, words) == Took(words + more, if rest == "" then "" else rest[1..])
    decreases |rule|
  {
    hide Words, StartsToken, Space0, Tail, RunLength, IsTokenChar, Unicode, Follows, JoinWords, TakeWhile1;
    var n := FirstWordOf(text, rule);
    var word, after := rule[..n], rule[n..] + rest;
    assert rule + rest == word + after;
    RuleStarts(text, rule, rest);
    assert after != "" ==> text.white(after[0]) by {
      AfterWord(text, rule, n, rest);
    }
    TakesWord(word, after, NotWhite(text));
    if n == |rule| {
      more := [word];
      assert after == rest && word == rule;
      OneWord(word);
      RulesEnd(text, rest, words + [word]);
    } else {
      var tail := rule[n + 1..];
      assert after == " " + (tail + rest);
      RuleStarts(text, tail, rest);
      SpaceIsWhite(text, tail + rest);
      var others := RuleRead(text, tail, rest, words + [word]);
      more := [word] + others;
      assert words + [word] + others == words + more;
      JoinWordsFront(word, others);
      assert rule == word + " " + tail;
    }
  }

  lemma OneWord(word: string)
    ensures JoinWords([word]) == word
  {
  }

  lemma RuleStarts(text: Text, rule: string, rest: string)
    requires Words(text, rule)
    ensures TrimStart(text, rule + rest) == rule + rest && !StartsToken(rule + rest) && rule + rest != ""
    ensures !text.white((rule + rest)[0])
  {
    PlainStartsNoToken(text, rule + rest);
  }

  lemma SpaceIsWhite(text: Text, s: string)
    requires Unicode(text) && s != "" && !text.white(s[0])
    ensures Space0(" " + s) == s
  {
    NoSpaces(s);
  }

  lemma AfterWord(text: Text, rule: string, n: nat, rest: string)
    requires Unicode(text) && Follows(text, rest) && n <= |rule| && (n < |rule| ==> text.white(rule[n]))
    ensures rule[n..] + rest != "" ==> text.white((rule[n..] + rest)[0])
  {
  }

  // ---------------------------------------------------------------------------------------------
  // Inline fields
  // ---------------------------------------------------------------------------------------------

  /** The scan ends at the closing bracket behind a value that is closed in itself. */
  lemma ValueEnds(text: Text, value: string, closing: char, rest: string)
    requires Enclosed(text, value, closing)
    ensures BalancedEnd(value + [closing] + rest, closing, 0, Depth(0, 0)) == Some(|value|)
  {
    hide BalancedEnd, DepthAfter;
    var s := value + [closing] + rest;
    assert s[..|value|] == value && s[|value|] == closing;
    assert Closes(s, closing, |value|);
    NoDepth();
    assert s[..0] == "";
    forall k | 0 <= k < |value| ensures !Closes(s, closing, k) {
      assert s[..k] == value[..k];
      assert !Closes(value, closing, k);
    }
    var end := BalancedEnd(s, closing, 0, Depth(0, 0));
  }

  lemma NoDepth()
    ensures DepthAfter("") == Depth(0, 0)
  {
  }

  lemma ValueTaken(text: Text, value: string, closing: char, rest: string)
    requires Enclosed(text, value, closing)
    ensures InlineValue(text, value + [closing] + rest, closing) == Took(value, rest)
  {
    hide BalancedEnd, Closes, DepthAfter;
    var s := value + [closing] + rest;
    ValueEnds(text, value, closing, rest);
    TrimmedWord(text, value);
    assert s[..|value|] == value && s[|value| + 1..] == rest;
  }

  lemma FieldTaken(text: Text, key: string, gap: string, value: string, closing: char, rest: string)
    requires Unicode(text) && Gap(gap) && Enclosed(text, value, closing) && (closing == ']' || closing == ')')
    ensures DataviewValue(text, key, "::" + (gap + (value + [closing] + rest)), closing) == Took(DataviewItem(text, key, value), rest)
  {
    hide InlineValue, Space0, DataviewItem, Enclosed, Gap;
    var s := "::" + (gap + (value + [closing] + rest));
    assert s[2..] == gap + (value + [closing] + rest) && s[..2] == "::";
    ValueStarts(text, value, closing, rest);
    GapSkipped(gap, value + [closing] + rest);
    ValueTaken(text, value, closing, rest);
  }

  lemma ValueStarts(text: Text, value: string, closing: char, rest: string)
    requires Unicode(text) && Enclosed(text, value, closing) && (closing == ']' || closing == ')')
    ensures var s := value + [closing] + rest; s[0] != ' ' && s[0] != '\t'
  {
  }

  lemma KeyTaken(text: Text, key: string, rest: string)
    requires Unicode(text) && Identifier(text, key)
    ensures TakeWhile1(key + (":" + rest), IdChar(text)) == Took(key, ":" + rest) && Trim(text, key) == key
  {
    TakesWord(key, ":" + rest, IdChar(text));
    TrimmedWord(text, key);
  }

  lemma Regroup(opening: char, key: string, gap: string, value: string, closing: char, rest: string)
    ensures [opening] + key + "::" + gap + value + [closing] + rest
         == [opening] + (key + ("::" + (gap + (value + [closing] + rest))))
  {
    var a := [opening] + key;
    assert a + "::" + gap + value == a + ("::" + (gap + value));
    assert a + ("::" + (gap + value)) + [closing] == a + ("::" + (gap + (value + [closing])));
    assert a + ("::" + (gap + (value + [closing]))) + rest == a + ("::" + (gap + (value + [closing] + rest)));
    assert a + ("::" + (gap + (value + [closing] + rest))) == [opening] + (key + ("::" + (gap + (value + [closing] + rest))));
  }

  lemma InlineText(key: string, gap: string, value: string, square: bool, rest: string)
    ensures var s, closing := Write(Inline(key, value, square), gap) + rest, if square then ']' else ')';
            && |s| > 0 && s[0] == (if square then '[' else '(')
            && s[1..] == key + (":" + (":" + (gap + (value + [closing] + rest))))
            && ":" + (":" + (gap + (value + [closing] + rest))) == "::" + (gap + (value + [closing] + rest))
  {
    var opening, closing := if square then '[' else '(', if square then ']' else ')';
    Regroup(opening, key, gap, value, closing, rest);
    var after := gap + (value + [closing] + rest);
    assert ":" + (":" + after) == "::" + after;
    assert ([opening] + (key + ("::" + after)))[0] == opening && ([opening] + (key + ("::" + after)))[1..] == key + ("::" + after);
  }

  /** An inline field says what its key stands for, and is kept under its key. */
  lemma InlineRead(text: Text, key: string, gap: string, value: string, square: bool, rest: string)
    requires Unicode(text) && Gap(gap) && Identifier(text, key) && Enclosed(text, value, if square then ']' else ')')
    ensures ParseDataview(text, Write(Inline(key, value, square), gap) + rest)
         == Took(DataviewItem(text, AsciiLower(key), value), rest)
  {
    hide TakeWhile1, DataviewValue, DataviewItem, Identifier, Enclosed, Trim, AsciiLower, Unicode, Write, Gap;
    var closing := if square then ']' else ')';
    InlineText(key, gap, value, square, rest);
    KeyTaken(text, key, ":" + (gap + (value + [closing] + rest)));
    FieldTaken(text, AsciiLower(key), gap, value, closing, rest);
  }

  lemma ItemOfKey(text: Text, key: string, value: string)
    requires value != "" ==> !text.white(value[0]) && !text.white(value[|value| - 1])
    ensures DataviewItem(text, key, value) == KeySays(text, key, value).(fields := map[key := value])
  {
    hide SplitIds, Trim, AsciiLower, PriorityFrom, RankSays;
    TrimmedWord(text, value);
    RankByName(text, value);
    assert StandardField(text, key, value) == KeySays(text, key, value);
  }

  lemma RankByName(text: Text, value: string)
    requires Trim(text, value) == value
    ensures NOTHING.(priority := PriorityFrom(text, value)) == RankSays(value)
  {
    hide Trim, AsciiLower;
  }

  // ---------------------------------------------------------------------------------------------
  // Lists of ids
  // ---------------------------------------------------------------------------------------------

  lemma {:induction false} CommasOfId(before: string, id: string)
    requires ',' !in id
    ensures Commas(before + "," + id) == Commas(before) + [id]
  {
    var s := before + "," + id;
    if id == "" {
      assert s[..|s| - 1] == before;
    } else {
      assert s[..|s| - 1] == before + "," + id[..|id| - 1];
      CommasOfId(before, id[..|id| - 1]);
      assert id == id[..|id| - 1] + [id[|id| - 1]];
    }
  }

  lemma {:induction false} CommasOfOne(id: string)
    requires ',' !in id
    ensures Commas(id) == [id]
  {
    if id != "" {
      CommasOfOne(id[..|id| - 1]);
      assert id == id[..|id| - 1] + [id[|id| - 1]];
    }
  }

  /** Pieces without commas, written with commas between them, are those pieces again. */
  lemma {:induction false} PiecesRead(pieces: seq<string>)
    requires pieces != [] && forall i :: 0 <= i < |pieces| ==> ',' !in pieces[i]
    ensures Commas(Commaed(pieces)) == pieces
  {
    hide Commas;
    var n := |pieces| - 1;
    assert pieces == pieces[..n] + [pieces[n]];
    if n == 0 {
      CommasOfOne(pieces[0]);
    } else {
      PiecesRead(pieces[..n]);
      CommasOfId(Commaed(pieces[..n]), pieces[n]);
    }
  }

  /** A piece with its padding, and the id in it, which may be empty. */
  datatype Padded = Padded(before: string, id: string, after: string)

  ghost predicate PaddedOk(text: Text, p: Padded) {
    && (forall i :: 0 <= i < |p.before| ==> text.white(p.before[i]))
    && (forall i :: 0 <= i < |p.after| ==> text.white(p.after[i]))
    && (p.id == "" ==> p.before == "" || p.after == "")
    && (p.id != "" ==> !text.white(p.id[0]) && !text.white(p.id[|p.id| - 1]))
    && ',' !in p.before && ',' !in p.id && ',' !in p.after
  }

  function PieceOf(p: Padded): string {
    p.before + p.id + p.after
  }

  function PiecesOf(padded: seq<Padded>): (pieces: seq<string>)
    ensures |pieces| == |padded| && forall i :: 0 <= i < |padded| ==> pieces[i] == PieceOf(padded[i])
  {
    seq(|padded|, i requires 0 <= i < |padded| => PieceOf(padded[i]))
  }

  /** The ids that are not empty, in order. */
  function IdsIn(padded: seq<Padded>): seq<string> {
    if padded == [] then []
    else IdsIn(padded[..|padded| - 1]) + if padded[|padded| - 1].id == "" then [] else [padded[|padded| - 1].id]
  }

  lemma {:induction false} TrimsPadding(text: Text, s: string, white: string)
    requires forall i :: 0 <= i < |white| ==> text.white(white[i])
    requires s != "" ==> !text.white(s[0]) && !text.white(s[|s| - 1])
    ensures TrimEnd(text, s + white) == s && TrimStart(text, white + s) == s
  {
    if white == "" {
      assert s + white == s && white + s == s;
    } else {
      var n := |white| - 1;
      assert (s + white)[..|s + white| - 1] == s + white[..n] && (white + s)[1..] == white[1..] + s;
      TrimsPadding(text, s, white[..n]);
      TrimsPadding(text, s, white[1..]);
    }
  }

  lemma PaddingGoes(text: Text, p: Padded)
    requires PaddedOk(text, p)
    ensures Trim(text, PieceOf(p)) == p.id
  {
    if p.id == "" {
      assert PieceOf(p) == p.before || PieceOf(p) == p.after;
      assert p.before + "" == p.before && p.after + "" == p.after;
      TrimsPadding(text, "", p.before);
      TrimsPadding(text, "", p.after);
    } else {
      assert PieceOf(p) == p.before + (p.id + p.after);
      StartPadding(text, p.before, p.id + p.after);
      TrimsPadding(text, p.id, p.after);
    }
  }

  lemma {:induction false} StartPadding(text: Text, white: string, s: string)
    requires (forall i :: 0 <= i < |white| ==> text.white(white[i])) && s != "" && !text.white(s[0])
    ensures TrimStart(text, white + s) == s
  {
    if white == "" {
      assert white + s == s;
    } else {
      assert (white + s)[1..] == white[1..] + s;
      StartPadding(text, white[1..], s);
    }
  }

  lemma {:induction false} PaddedIds(text: Text, padded: seq<Padded>)
    requires forall i :: 0 <= i < |padded| ==> PaddedOk(text, padded[i])
    ensures TrimmedIds(text, PiecesOf(padded)) == IdsIn(padded)
  {
    hide Trim, PieceOf;
    if padded != [] {
      var n := |padded| - 1;
      assert PiecesOf(padded)[..n] == PiecesOf(padded[..n]);
      assert forall i :: 0 <= i < n ==> padded[..n][i] == padded[i];
      PaddedIds(text, padded[..n]);
      PaddingGoes(text, padded[n]);
    }
  }

  /** Ids between commas, with white space around them and pieces without any id among them, are read back. */
  lemma IdsRead(text: Text, padded: seq<Padded>)
    requires padded != [] && forall i :: 0 <= i < |padded| ==> PaddedOk(text, padded[i])
    ensures SplitIds(text, Commaed(PiecesOf(padded))) == IdsIn(padded)
  {
    hide Trim, Commas, TrimmedIds;
    forall i | 0 <= i < |padded| ensures ',' !in PiecesOf(padded)[i] {
      assert PaddedOk(text, padded[i]);
    }
    PiecesRead(PiecesOf(padded));
    PaddedIds(text, padded);
  }

  function Bare(ids: seq<string>): (padded: seq<Padded>)
    ensures |padded| == |ids| && forall i :: 0 <= i < |ids| ==> padded[i] == Padded("", ids[i], "")
  {
    seq(|ids|, i requires 0 <= i < |ids| => Padded("", ids[i], ""))
  }

  lemma {:induction false} BareIds(ids: seq<string>)
    requires forall i :: 0 <= i < |ids| ==> ids[i] != ""
    ensures PiecesOf(Bare(ids)) == ids && IdsIn(Bare(ids)) == ids
  {
    forall i | 0 <= i < |ids| ensures PiecesOf(Bare(ids))[i] == ids[i] {
      assert "" + ids[i] + "" == ids[i];
    }
    if ids != [] {
      var n := |ids| - 1;
      BareIds(ids[..n]);
      assert Bare(ids)[..n] == Bare(ids[..n]) && ids == ids[..n] + [ids[n]];
    }
  }

  lemma {:induction false} CommaedIsWord(text: Text, ids: seq<string>)
    requires ids != [] && !text.white(',') && forall i :: 0 <= i < |ids| ==> Word(text, ids[i])
    ensures Word(text, Commaed(ids))
  {
    if |ids| > 1 {
      CommaedIsWord(text, ids[..|ids| - 1]);
      assert Word(text, ids[|ids| - 1]);
    }
  }

  // ---------------------------------------------------------------------------------------------
  // One item
  // ---------------------------------------------------------------------------------------------

  /** Which parser an item goes to is decided by its first character. */
  lemma ByFirstChar(text: Text, s: string)
    requires s != ""
    ensures DateKey(s[0]).Some? ==> ParseItem(text, s) == ParseDate(text, s)
    ensures s[0] == RECURRENCE ==> ParseItem(text, s) == ParseRecurrence(text, s)
    ensures s[0] == ON_COMPLETION ==> ParseItem(text, s) == ParseOnCompletion(text, s)
    ensures s[0] == ID ==> ParseItem(text, s) == ParseId(text, s)
    ensures s[0] == DEPENDS_ON ==> ParseItem(text, s) == ParseDependsOn(text, s)
    ensures s[0] == '[' || s[0] == '(' ==> ParseItem(text, s) == ParseDataview(text, s)
    ensures IsPriorityChar(s[0]) ==> ParseItem(text, s) == ParsePriority(s)
    ensures s[0] == '#' ==> ParseItem(text, s) == ParseTag(text, s)
    ensures s[0] == '^' ==> ParseItem(text, s) == ParseBlockRef(text, s)
  {
    hide ParseDate, ParseRecurrence, ParseOnCompletion, ParseId, ParseDependsOn, ParseDataview, ParsePriority, ParseTag, ParseBlockRef;
    MarkersRefuse(text, s);
    OthersRefuse(text, s);
  }

  lemma MarkersRefuse(text: Text, s: string)
    requires s != ""
    ensures DateKey(s[0]).None? ==> ParseDate(text, s).Failed?
    ensures s[0] != RECURRENCE ==> ParseRecurrence(text, s).Failed?
    ensures s[0] != ON_COMPLETION ==> ParseOnCompletion(text, s).Failed?
    ensures s[0] != ID ==> ParseId(text, s).Failed?
    ensures s[0] != DEPENDS_ON ==> ParseDependsOn(text, s).Failed?
  {
    hide RecurrenceWords, MarkedWord, StandardField, SplitIds, Trim, ProperTail;
  }

  lemma OthersRefuse(text: Text, s: string)
    requires s != ""
    ensures s[0] != '[' && s[0] != '(' ==> ParseDataview(text, s).Failed?
    ensures !IsPriorityChar(s[0]) ==> ParsePriority(s).Failed?
    ensures s[0] != '#' ==> ParseTag(text, s).Failed?
    ensures s[0] != '^' ==> ParseBlockRef(text, s).Failed?
  {
    hide TakeWhile1, DataviewValue, AnyAlphabetic, ProperTail;
  }

  lemma FollowsWhite(text: Text, rest: string)
    requires Unicode(text) && Follows(text, rest)
    ensures rest != "" ==> text.white(rest[0]) && !InName(text, rest[0]) && !InTag(text, rest[0])
  {
  }

  lemma MarkerThen(text: Text, marker: char, gap: string, word: string, rest: string)
    requires Unicode(text) && Gap(gap) && Word(text, word) && Follows(text, rest)
    ensures MarkedWord([marker] + gap + word + rest, NotWhite(text)) == Took(word, rest) && Trim(text, word) == word
  {
    FollowsWhite(text, rest);
    TrimmedWord(text, word);
    MarkedWordTaken(marker, gap, word, rest, NotWhite(text));
  }

  lemma DateRead(text: Text, f: Field, gap: string, date: string, rest: string)
    requires Unicode(text) && Gap(gap) && IsDate(f) && Word(text, date) && Follows(text, rest)
    ensures ParseItem(text, Write(Dated(f, date), gap) + rest) == Took(Only(f, date), rest)
  {
    hide MarkedWord, ParseItem, Trim, Unicode, Word, Follows, Gap;
    var s := [DateSymbol(f)] + gap + date + rest;
    MarkerThen(text, DateSymbol(f), gap, date, rest);
    ByFirstChar(text, s);
    assert DateKey(s[0]).Some?;
    assert ParseDate(text, s) == Took(StandardField(text, DateKey(s[0]).value, date), rest);
  }

  lemma RecurrenceRead(text: Text, gap: string, rule: string, rest: string)
    requires Unicode(text) && Gap(gap) && Words(text, rule) && Follows(text, rest)
    ensures ParseItem(text, Write(Recurs(rule), gap) + rest) == Took(Only(Recurrence, rule), Left(Recurs(rule), rest))
  {
    hide ParseItem, RecurrenceWords, Unicode, Words, Follows, JoinWords, Space0, Gap;
    var s := Write(Recurs(rule), gap) + rest;
    assert s[1..] == gap + (rule + rest);
    RuleStarts(text, rule, rest);
    GapIsWhite(text, gap, rule + rest);
    var words := RuleRead(text, rule, rest, []);
    assert [] + words == words;
    ByFirstChar(text, s);
  }

  lemma GapIsWhite(text: Text, gap: string, s: string)
    requires Unicode(text) && Gap(gap) && s != "" && !text.white(s[0])
    ensures Space0(gap + s) == s
  {
    GapSkipped(gap, s);
  }

  lemma WordItemRead(text: Text, item: Written, gap: string, rest: string)
    requires Unicode(text) && Gap(gap) && Writable(text, item) && Follows(text, rest) && (item.WhenDone? || item.After?)
    ensures ParseItem(text, Write(item, gap) + rest) == Took(Means(text, item), rest)
  {
    hide MarkedWord, ParseItem, Trim, Unicode, Follows, AsciiLower, SplitIds, Commaed, Gap;
    var s := Write(item, gap) + rest;
    ByFirstChar(text, s);
    match item
    case WhenDone(action) =>
      MarkerThen(text, '\U{1F3C1}', gap, action, rest);
    case After(ids) =>
      BareIds(ids);
      BareOk(text, ids);
      IdsRead(text, Bare(ids));
      CommaIsNoSpace(text);
      CommaedIsWord(text, ids);
      MarkerThen(text, '\U{26D4}', gap, Commaed(ids), rest);
  }

  lemma BareOk(text: Text, ids: seq<string>)
    requires forall i :: 0 <= i < |ids| ==> Word(text, ids[i]) && ',' !in ids[i]
    ensures forall i :: 0 <= i < |ids| ==> PaddedOk(text, Bare(ids)[i])
  {
    forall i | 0 <= i < |ids| ensures PaddedOk(text, Bare(ids)[i]) {
      assert Word(text, ids[i]);
    }
  }

  lemma CommaIsNoSpace(text: Text)
    requires Unicode(text)
    ensures !text.white(',')
  {
  }

  /** An id goes as far as its characters do, whatever stands behind it. */
  lemma NameRead(text: Text, gap: string, name: string, rest: string)
    requires Unicode(text) && Gap(gap) && Identifier(text, name) && (rest != "" ==> !InName(text, rest[0]))
    ensures ParseItem(text, Write(Named(name), gap) + rest) == Took(Only(Id, name), rest)
  {
    hide MarkedWord, ParseItem, TakeWhile1, IsTokenChar, Gap;
    var s := ['\U{1F194}'] + gap + name + rest;
    ByFirstChar(text, s);
    assert InName(text, name[0]);
    MarkedWordTaken('\U{1F194}', gap, name, rest, IdChar(text));
    hide Unicode, Identifier;
  }

  lemma AnchorRead(text: Text, gap: string, name: string, rest: string)
    requires Identifier(text, name) && (rest != "" ==> !InName(text, rest[0]))
    ensures ParseItem(text, Write(Anchored(name), gap) + rest) == Took(Only(BlockRef, name), rest)
  {
    hide ParseItem, TakeWhile1;
    var s := "^" + name + rest;
    ByFirstChar(text, s);
    assert s[1..] == name + rest;
    TakesWord(name, rest, IdChar(text));
    hide Identifier;
  }

  /** A tag goes as far as its characters do; one without a letter is no tag, and no item at all. */
  lemma TagRead(text: Text, tag: string, rest: string)
    requires tag != "" && (forall i :: 0 <= i < |tag| ==> InTag(text, tag[i])) && (rest != "" ==> !InTag(text, rest[0]))
    ensures ParseItem(text, "#" + tag + rest)
         == if exists i :: 0 <= i < |tag| && text.alphabetic(tag[i]) then Took(NOTHING.(tags := [tag]), rest) else Failed
  {
    hide ParseItem, TakeWhile1;
    var s := "#" + tag + rest;
    ByFirstChar(text, s);
    assert s[1..] == tag + rest;
    TakesWord(tag, rest, TagChar(text));
  }

  lemma RankRead(text: Text, r: Rank, gap: string, rest: string)
    ensures ParseItem(text, Write(Ranked(r), gap) + rest) == Took(NOTHING.(priority := Some(RankSymbol(r))), rest)
  {
    hide ParseItem;
    var s := [RankSymbol(r)] + rest;
    ByFirstChar(text, s);
    assert s[1..] == rest;
  }

  lemma FieldRead(text: Text, item: Written, gap: string, rest: string)
    requires Unicode(text) && Gap(gap) && Writable(text, item) && item.Inline?
    ensures ParseItem(text, Write(item, gap) + rest) == Took(Means(text, item), rest)
  {
    hide ParseItem, ParseDataview, KeySays, DataviewItem, AsciiLower, Unicode, Identifier, DepthAfter, Closes, Gap;
    InlineText(item.key, gap, item.value, item.square, rest);
    ByFirstChar(text, Write(item, gap) + rest);
    InlineRead(text, item.key, gap, item.value, item.square, rest);
    ItemOfKey(text, AsciiLower(item.key), item.value);
  }

  /** Every kind of item, written out, is read back as what it says, and no more of the text is taken. */
  lemma ItemRead(text: Text, item: Written, gap: string, rest: string)
    requires Unicode(text) && Gap(gap) && Writable(text, item) && Follows(text, rest)
    ensures ParseItem(text, Write(item, gap) + rest) == Took(Means(text, item), Left(item, rest))
  {
    hide ParseItem, Unicode, Follows, Word, Words, Identifier, Enclosed, KeySays, Commaed, InTag, InName, Gap;
    match item
    case Dated(f, date) => DateRead(text, f, gap, date, rest);
    case Recurs(rule) => RecurrenceRead(text, gap, rule, rest);
    case WhenDone(_) => WordItemRead(text, item, gap, rest);
    case Named(name) =>
      FollowsWhite(text, rest);
      NameRead(text, gap, name, rest);
    case After(_) => WordItemRead(text, item, gap, rest);
    case Ranked(r) => RankRead(text, r, gap, rest);
    case Tagged(tag) =>
      FollowsWhite(text, rest);
      TagRead(text, tag, rest);
    case Anchored(name) =>
      FollowsWhite(text, rest);
      AnchorRead(text, gap, name, rest);
    case Inline(_, _, _) => FieldRead(text, item, gap, rest);
  }

  // ---------------------------------------------------------------------------------------------
  // Items in a row
  // ---------------------------------------------------------------------------------------------

  ghost predicate AllWritable(text: Text, items: seq<Written>) {
    forall i :: 0 <= i < |items| ==> Writable(text, items[i])
  }

  /** All items, a space between each two, and `gap` behind each marker and key. */
  ghost function WriteAll(text: Text, items: seq<Written>, gap: string): string
    requires AllWritable(text, items)
    decreases |items|, 1
  {
    if items == [] then "" else Write(items[0], gap) + Behind(text, items, gap)
  }

  /** A space and the items after the first, if there are any. */
  ghost function Behind(text: Text, items: seq<Written>, gap: string): string
    requires AllWritable(text, items) && items != []
    decreases |items|, 0
  {
    if |items| == 1 then "" else " " + WriteAll(text, items[1..], gap)
  }

  ghost function Meanings(text: Text, items: seq<Written>): (all: seq<Metadata>)
    requires AllWritable(text, items)
    ensures |all| == |items| && forall i :: 0 <= i < |items| ==> all[i] == Means(text, items[i])
  {
    seq(|items|, i requires 0 <= i < |items| => Means(text, items[i]))
  }

  lemma FirstOfItem(item: Written, gap: string)
    requires (item.Dated? ==> IsDate(item.field)) && (item.After? ==> item.ids != [])
    ensures var s := Write(item, gap);
            && s != "" && IsTokenChar(s[0]) && s[0] != ',' && (item.Inline? || (s[0] != '[' && s[0] != '('))
  {
    hide Commaed;
  }

  lemma InlineColons(item: Written, gap: string, rest: string)
    requires item.Inline?
    ensures HasDoubleColon(Write(item, gap) + rest)
  {
    hide HasDoubleColon;
    var opening, closing := if item.square then '[' else '(', if item.square then ']' else ')';
    Regroup(opening, item.key, gap, item.value, closing, rest);
    var after := gap + (item.value + [closing] + rest);
    var s := [opening] + item.key + "::" + after;
    assert [opening] + (item.key + ("::" + after)) == s;
    assert ColonsAt(s, |item.key| + 1);
    DoubleColonIsThere(s);
  }

  lemma ItemStarts(text: Text, item: Written, gap: string, rest: string)
    requires Unicode(text) && Writable(text, item)
    ensures var s := Write(item, gap) + rest;
            && s != "" && Write(item, gap) != "" && IsTokenChar(s[0]) && !text.white(s[0]) && s[0] != ',' && StartsToken(s)
  {
    hide HasDoubleColon, Write, Enclosed, Words, TagName, Word, Identifier;
    FirstOfItem(item, gap);
    if item.Inline? {
      InlineColons(item, gap, rest);
    }
  }

  lemma BehindFollows(text: Text, items: seq<Written>, gap: string)
    requires Unicode(text) && AllWritable(text, items) && items != []
    ensures Follows(text, Behind(text, items, gap))
  {
    hide Unicode, Writable, StartsToken;
    if |items| > 1 {
      var rest := WriteAll(text, items[1..], gap);
      ItemStarts(text, items[1], gap, Behind(text, items[1..], gap));
      assert (" " + rest)[1..] == rest;
    }
  }

  lemma NoSeparator(text: Text, s: string)
    requires Unicode(text) && s != "" && !text.white(s[0]) && s[0] != ','
    ensures Separator(s) == s && Separator(" " + s) == s
  {
    hide Space0;
    NoSpaces(s);
  }

  lemma ItemFirst(text: Text, s: string, item: Metadata, rest: string)
    requires s != "" && ParseItem(text, Separator(s)) == Took(item, rest)
    ensures ParseItems(text, s) == ([item] + ParseItems(text, rest).0, ParseItems(text, rest).1)
  {
    hide ParseItem, Separator;
  }

  lemma NothingLeft(text: Text)
    ensures ParseItems(text, "") == ([], "")
  {
  }

  /**
   * Metadata written out item by item is read back as exactly those items, in order, to the last
   * character; a space before it makes no difference, nor do spaces and tabs behind the markers.
   */
  lemma {:induction false} WrittenItemsParse(text: Text, items: seq<Written>, gap: string)
    requires Unicode(text) && AllWritable(text, items) && Gap(gap)
    ensures ParseItems(text, WriteAll(text, items, gap)) == (Meanings(text, items), "")
    ensures items != [] ==> ParseItems(text, " " + WriteAll(text, items, gap)) == (Meanings(text, items), "")
  {
    hide Unicode, Write, Means, ParseItem, ParseItems, Word, Words, Identifier, TagName, Enclosed, Separator, Follows, StartsToken,
         IsTokenChar, Gap;
    if items == [] {
      NothingLeft(text);
    } else {
      var item, rest := items[0], Behind(text, items, gap);
      var s := Write(item, gap) + rest;
      WrittenItemsParse(text, items[1..], gap);
      assert |items| == 1 ==> items[1..] == [];
      BehindFollows(text, items, gap);
      ItemRead(text, item, gap, rest);
      ItemStarts(text, item, gap, rest);
      NoSeparator(text, s);
      NothingLeft(text);
      assert Left(item, rest) == rest || Left(item, rest) == WriteAll(text, items[1..], gap) by {
        if |items| > 1 {
          assert (" " + WriteAll(text, items[1..], gap))[1..] == WriteAll(text, items[1..], gap);
        }
      }
      assert ParseItems(text, Left(item, rest)) == (Meanings(text, items[1..]), "");
      ItemFirst(text, s, Means(text, item), Left(item, rest));
      ItemFirst(text, " " + s, Means(text, item), Left(item, rest));
      assert Meanings(text, items) == [Means(text, item)] + Meanings(text, items[1..]);
    }
  }

  /** The separator is passed over whatever it is made of. */
  lemma SeparatorPassed(before: string, after: string, s: string)
    requires Gap(before) && Gap(after) && s != "" && s[0] != ' ' && s[0] != '\t' && s[0] != ','
    ensures Separator(before + s) == s && Separator(before + ("," + (after + s))) == s && Separator(s) == s
  {
    hide Space0, Tail;
    GapSkipped(before, s);
    GapSkipped(after, s);
    NoSpaces(s);
    GapSkipped(before, "," + (after + s));
    assert ("," + (after + s))[1..] == after + s;
  }

  /** Before items any spaces and tabs are passed over, and among them one comma. */
  lemma GapsSeparate(text: Text, before: string, after: string, items: seq<Written>, gap: string)
    requires Unicode(text) && AllWritable(text, items) && items != [] && Gap(before) && Gap(after) && Gap(gap)
    ensures ParseItems(text, before + WriteAll(text, items, gap)) == (Meanings(text, items), "")
    ensures ParseItems(text, before + ("," + (after + WriteAll(text, items, gap)))) == (Meanings(text, items), "")
  {
    hide Unicode, Writable, Write, Means, ParseItem, ParseItems, Separator, Gap, StartsToken, IsTokenChar, WriteAll;
    var s := WriteAll(text, items, gap);
    FirstItemStarts(text, items, gap);
    WrittenItemsParse(text, items, gap);
    NoGapFirst(text, s);
    SeparatorPassed(before, after, s);
    SameItems(text, before + s, s);
    SameItems(text, before + ("," + (after + s)), s);
  }

  lemma FirstItemStarts(text: Text, items: seq<Written>, gap: string)
    requires Unicode(text) && AllWritable(text, items) && items != []
    ensures var s := WriteAll(text, items, gap); s != "" && !text.white(s[0]) && s[0] != ','
  {
    hide Unicode, Writable, Write, StartsToken;
    ItemStarts(text, items[0], gap, Behind(text, items, gap));
  }

  lemma NoGapFirst(text: Text, s: string)
    requires Unicode(text) && s != "" && !text.white(s[0])
    ensures s[0] != ' ' && s[0] != '\t'
  {
  }

  lemma SameItems(text: Text, s: string, t: string)
    requires s != "" && t != "" && Separator(s) == Separator(t) && ParseItems(text, t).0 != []
    ensures ParseItems(text, s) == ParseItems(text, t)
  {
    hide ParseItem, Separator;
  }
}
