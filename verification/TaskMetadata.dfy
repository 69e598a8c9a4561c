/** The metadata at the end of a task's text: where it begins, and what its items say. */
module TaskMetadata {
  import opened Wrappers
  import opened Texts

  const DUE := '\U{1F4C5}'
  const SCHEDULED := '\U{23F3}'
  const START := '\U{1F6EB}'
  const DONE := '\U{2705}'
  const CANCELLED := '\U{274C}'
  const CREATED := '\U{2795}'
  const RECURRENCE := '\U{1F501}'
  const ON_COMPLETION := '\U{1F3C1}'
  const ID := '\U{1F194}'
  const DEPENDS_ON := '\U{26D4}'
  const HIGHEST := '\U{1F53A}'
  const HIGH := '\U{23EB}'
  const MEDIUM := '\U{1F53C}'
  const LOW := '\U{1F53D}'
  const LOWEST := '\U{23EC}'

  datatype Metadata = Metadata(due: Option<string>, scheduled: Option<string>, start: Option<string>, done: Option<string>,
                               cancelled: Option<string>, created: Option<string>, priority: Option<char>,
                               recurrence: Option<string>, onCompletion: Option<string>, id: Option<string>,
                               dependsOn: seq<string>, tags: seq<string>, blockRef: Option<string>,
                               fields: map<string, string>)

  const NOTHING := Metadata(None, None, None, None, None, None, None, None, None, None, [], [], None, map[])

  /** The single-valued fields. */
  datatype Field = Due | Scheduled | Start | Done | Cancelled | Created | Priority | Recurrence | OnCompletion | Id | BlockRef

  /** What a parser made of the front of its input, with the input left over. */
  datatype Step<T> = Took(value: T, rest: string) | Failed

  /** `rest` is what is left of `s` once a first part, not empty, is taken off. */
  ghost predicate ProperTail(rest: string, s: string) {
    |rest| < |s| && Tail(rest, s)
  }

  ghost predicate Tail(rest: string, s: string) {
    |rest| <= |s| && s[|s| - |rest|..] == rest
  }

  lemma TailOfTail(a: string, b: string, c: string)
    requires Tail(a, b) && Tail(b, c)
    ensures Tail(a, c)
  {
    assert c[|c| - |b|..][|b| - |a|..] == c[|c| - |a|..];
  }

  lemma AfterFirst(rest: string, s: string)
    requires s != "" && Tail(rest, s[1..])
    ensures ProperTail(rest, s)
  {
    TailOfTail(rest, s[1..], s);
  }

  // ---------------------------------------------------------------------------------------------
  // Pieces of input
  // ---------------------------------------------------------------------------------------------

  /** Spaces and tabs only, whatever else counts as white space. */
  function Space0(s: string): (rest: string)
    ensures Tail(rest, s)
  {
    if s != "" && (s[0] == ' ' || s[0] == '\t') then Space0(s[1..]) else s
  }

  function RunLength(s: string, p: char -> bool): (n: nat)
    ensures n <= |s| && (forall i :: 0 <= i < n ==> p(s[i])) && (n < |s| ==> !p(s[n]))
  {
    if s == "" || !p(s[0]) then 0 else 1 + RunLength(s[1..], p)
  }

  function TakeWhile1(s: string, p: char -> bool): (step: Step<string>)
    ensures step.Took? ==> step.value + step.rest == s && step.value != "" && ProperTail(step.rest, s)
  {
    var n := RunLength(s, p);
    if n == 0 then Failed else Took(s[..n], s[n..])
  }

  predicate Begins(s: string, c: char) {
    s != "" && s[0] == c
  }

  function NotWhite(text: Text): char -> bool {
    c => !text.white(c)
  }

  function IdChar(text: Text): char -> bool {
    c => text.alphanumeric(c) || c == '-' || c == '_'
  }

  function TagChar(text: Text): char -> bool {
    c => text.alphanumeric(c) || c == '-' || c == '_' || c == '/'
  }

  // ---------------------------------------------------------------------------------------------
  // Tokens
  // ---------------------------------------------------------------------------------------------

  predicate IsPriorityChar(c: char) {
    c == HIGH || c == HIGHEST || c == MEDIUM || c == LOW || c == LOWEST
  }

  predicate HasDoubleColon(s: string) {
    |s| >= 2 && ((s[0] == ':' && s[1] == ':') || HasDoubleColon(s[1..]))
  }

  predicate ColonsAt(s: string, i: int) {
    0 <= i < |s| - 1 && s[i] == ':' && s[i + 1] == ':'
  }

  lemma {:induction false} DoubleColonIsThere(s: string)
    ensures HasDoubleColon(s) <==> exists i :: ColonsAt(s, i)
  {
    if |s| >= 2 {
      DoubleColonIsThere(s[1..]);
      assert forall i :: ColonsAt(s[1..], i) ==> ColonsAt(s, i + 1);
      assert forall i :: ColonsAt(s, i) && i > 0 ==> ColonsAt(s[1..], i - 1);
      assert ColonsAt(s, 0) <==> s[0] == ':' && s[1] == ':';
    }
  }

  predicate StartsToken(s: string) {
    s != "" &&
    (|| s[0] in [DUE, SCHEDULED, START, DONE, CANCELLED, CREATED, RECURRENCE, ON_COMPLETION, ID, DEPENDS_ON]
     || IsPriorityChar(s[0])
     || s[0] == '#' || s[0] == '^'
     || ((s[0] == '[' || s[0] == '(') && HasDoubleColon(s)))
  }

  // ---------------------------------------------------------------------------------------------
  // Values
  // ---------------------------------------------------------------------------------------------

  /** The text's comma-separated ids, trimmed, empty ones dropped. */
  function SplitIds(text: Text, value: string): seq<string> {
    TrimmedIds(text, Commas(value))
  }

  function Commas(value: string): (parts: seq<string>)
    ensures parts != []
  {
    if value == "" then [""]
    else
      var rest, c := Commas(value[..|value| - 1]), value[|value| - 1];
      if c == ',' then rest + [""] else rest[..|rest| - 1] + [rest[|rest| - 1] + [c]]
  }

  function TrimmedIds(text: Text, parts: seq<string>): seq<string> {
    if parts == [] then []
    else
      var rest, id := TrimmedIds(text, parts[..|parts| - 1]), Trim(text, parts[|parts| - 1]);
      if id == "" then rest else rest + [id]
  }

  function PriorityFrom(text: Text, value: string): Option<char> {
    var name := AsciiLower(Trim(text, value));
    if name == "highest" then Some(HIGHEST)
    else if name == "high" then Some(HIGH)
    else if name == "medium" then Some(MEDIUM)
    else if name == "low" then Some(LOW)
    else if name == "lowest" then Some(LOWEST)
    else None
  }

  function StandardField(text: Text, key: string, value: string): Metadata {
    if key == "due" then NOTHING.(due := Some(value))
    else if key == "scheduled" then NOTHING.(scheduled := Some(value))
    else if key == "start" then NOTHING.(start := Some(value))
    else if key == "done" || key == "completion" then NOTHING.(done := Some(value))
    else if key == "cancelled" || key == "canceled" then NOTHING.(cancelled := Some(value))
    else if key == "created" then NOTHING.(created := Some(value))
    else if key == "recurrence" || key == "repeat" then NOTHING.(recurrence := Some(value))
    else if key == "oncompletion" then NOTHING.(onCompletion := Some(AsciiLower(value)))
    else if key == "id" then NOTHING.(id := Some(value))
    else if key == "dependson" then NOTHING.(dependsOn := SplitIds(text, value))
    else if key == "priority" then NOTHING.(priority := PriorityFrom(text, value))
    else NOTHING
  }

  // ---------------------------------------------------------------------------------------------
  // Items
  // ---------------------------------------------------------------------------------------------

  function DateKey(c: char): Option<string> {
    if c == DUE then Some("due")
    else if c == SCHEDULED then Some("scheduled")
    else if c == START then Some("start")
    else if c == DONE then Some("done")
    else if c == CANCELLED then Some("cancelled")
    else if c == CREATED then Some("created")
    else None
  }

  /** The word after a marker and any spaces. */
  function MarkedWord(s: string, p: char -> bool): (step: Step<string>)
    requires s != ""
    ensures step.Took? ==> ProperTail(step.rest, s)
  {
    var step := TakeWhile1(Space0(s[1..]), p);
    assert step.Took? ==> ProperTail(step.rest, s) by {
      if step.Took? {
        TailOfTail(step.rest, Space0(s[1..]), s[1..]);
        AfterFirst(step.rest, s);
      }
    }
    step
  }

  function ParseDate(text: Text, s: string): (step: Step<Metadata>)
    ensures step.Took? ==> ProperTail(step.rest, s)
  {
    if s == "" || DateKey(s[0]).None? then Failed
    else
      match MarkedWord(s, NotWhite(text))
      case Failed => Failed
      case Took(value, rest) => Took(StandardField(text, DateKey(s[0]).value, Trim(text, value)), rest)
  }

  /** Words up to the end of the text or the next metadata token. */
  function RecurrenceWords(text: Text, s: string, words: seq<string>): (step: Step<seq<string>>)
    ensures step.Took? ==> Tail(step.rest, s) && |step.value| >= |words|
    decreases |s|
  {
    var trimmed := TrimStart(text, s);
    if trimmed == "" || StartsToken(trimmed) then Took(words, s)
    else
      match TakeWhile1(s, NotWhite(text))
      case Failed => Failed
      case Took(word, rest) =>
        var step := RecurrenceWords(text, Space0(rest), words + [word]);
        TailOfTail(Space0(rest), rest, s);
        assert step.Took? ==> Tail(step.rest, s) by {
          if step.Took? {
            TailOfTail(step.rest, Space0(rest), s);
          }
        }
        step
  }

  function JoinWords(words: seq<string>): string {
    if words == [] then ""
    else if |words| == 1 then words[0]
    else JoinWords(words[..|words| - 1]) + " " + words[|words| - 1]
  }

  function ParseRecurrence(text: Text, s: string): (step: Step<Metadata>)
    ensures step.Took? ==> ProperTail(step.rest, s)
  {
    if !Begins(s, RECURRENCE) then Failed
    else
      match RecurrenceWords(text, Space0(s[1..]), [])
      case Failed => Failed
      case Took(words, rest) =>
        TailOfTail(rest, Space0(s[1..]), s[1..]);
        AfterFirst(rest, s);
        if words == [] then Failed else Took(NOTHING.(recurrence := Some(JoinWords(words))), rest)
  }

  function ParseOnCompletion(text: Text, s: string): (step: Step<Metadata>)
    ensures step.Took? ==> ProperTail(step.rest, s)
  {
    if !Begins(s, ON_COMPLETION) then Failed
    else
      match MarkedWord(s, NotWhite(text))
      case Failed => Failed
      case Took(value, rest) => Took(NOTHING.(onCompletion := Some(AsciiLower(Trim(text, value)))), rest)
  }

  function ParseId(text: Text, s: string): (step: Step<Metadata>)
    ensures step.Took? ==> ProperTail(step.rest, s)
  {
    if !Begins(s, ID) then Failed
    else
      match MarkedWord(s, IdChar(text))
      case Failed => Failed
      case Took(value, rest) => Took(NOTHING.(id := Some(value)), rest)
  }

  function ParseDependsOn(text: Text, s: string): (step: Step<Metadata>)
    ensures step.Took? ==> ProperTail(step.rest, s)
  {
    if !Begins(s, DEPENDS_ON) then Failed
    else
      match MarkedWord(s, NotWhite(text))
      case Failed => Failed
      case Took(value, rest) => Took(NOTHING.(dependsOn := SplitIds(text, value)), rest)
  }

  /** How many square and round brackets are open; a closing one with none open is ignored. */
  datatype Depth = Depth(square: nat, round: nat)

  function Deeper(d: Depth, c: char): Depth {
    if c == '[' then d.(square := d.square + 1)
    else if c == ']' then d.(square := if d.square == 0 then 0 else d.square - 1)
    else if c == '(' then d.(round := d.round + 1)
    else if c == ')' then d.(round := if d.round == 0 then 0 else d.round - 1)
    else d
  }

  function DepthAfter(s: string): Depth {
    if s == "" then Depth(0, 0) else Deeper(DepthAfter(s[..|s| - 1]), s[|s| - 1])
  }

  /** How many more times `a` than `b` stands in the text, below zero if fewer. */
  function Surplus(s: string, a: char, b: char): int {
    multiset(s)[a] as int - multiset(s)[b] as int
  }

  lemma SurplusNext(s: string, k: nat, a: char, b: char)
    requires k < |s|
    ensures var n := |s| - 1;
            Surplus(s[k..], a, b) == Surplus(s[..n][k..], a, b) + (if s[n] == a then 1 else 0) - (if s[n] == b then 1 else 0)
  {
    var n := |s| - 1;
    assert s[k..] == s[..n][k..] + [s[n]];
  }

  lemma {:induction false} DepthBounds(s: string, k: nat)
    requires k <= |s|
    ensures Surplus(s[k..], '[', ']') <= DepthAfter(s).square && Surplus(s[k..], '(', ')') <= DepthAfter(s).round
  {
    hide Surplus;
    if k < |s| {
      DepthBounds(s[..|s| - 1], k);
      SurplusNext(s, k, '[', ']');
      SurplusNext(s, k, '(', ')');
    } else {
      assert s[k..] == "";
      NoSurplus();
    }
  }

  lemma NoSurplus()
    ensures forall a, b :: Surplus("", a, b) == 0
  {
  }

  /** Either depth is the largest surplus of opening over closing brackets in any end part of the text. */
  lemma {:induction false} DepthIsSurplus(s: string) returns (i: nat, j: nat)
    ensures forall k :: 0 <= k <= |s| ==>
              Surplus(s[k..], '[', ']') <= DepthAfter(s).square && Surplus(s[k..], '(', ')') <= DepthAfter(s).round
    ensures i <= |s| && Surplus(s[i..], '[', ']') == DepthAfter(s).square
    ensures j <= |s| && Surplus(s[j..], '(', ')') == DepthAfter(s).round
  {
    hide Surplus, DepthAfter;
    forall k | 0 <= k <= |s|
      ensures Surplus(s[k..], '[', ']') <= DepthAfter(s).square && Surplus(s[k..], '(', ')') <= DepthAfter(s).round
    {
      DepthBounds(s, k);
    }
    i := SquareAttained(s);
    j := RoundAttained(s);
  }

  lemma {:induction false} SquareAttained(s: string) returns (i: nat)
    ensures i <= |s| && Surplus(s[i..], '[', ']') == DepthAfter(s).square
  {
    hide Surplus;
    NoSurplus();
    i := |s|;
    assert s[i..] == "";
    if s != "" {
      var n := |s| - 1;
      var k := SquareAttained(s[..n]);
      SurplusNext(s, k, '[', ']');
      if !(s[n] == ']' && DepthAfter(s[..n]).square == 0) {
        i := k;
      }
    }
  }

  lemma {:induction false} RoundAttained(s: string) returns (j: nat)
    ensures j <= |s| && Surplus(s[j..], '(', ')') == DepthAfter(s).round
  {
    hide Surplus;
    NoSurplus();
    j := |s|;
    assert s[j..] == "";
    if s != "" {
      var n := |s| - 1;
      var k := RoundAttained(s[..n]);
      SurplusNext(s, k, '(', ')');
      if !(s[n] == ')' && DepthAfter(s[..n]).round == 0) {
        j := k;
      }
    }
  }

  /** The closing bracket at position `k` closes nothing opened since the start. */
  predicate Closes(s: string, closing: char, k: nat) {
    k < |s| && s[k] == closing && DepthAfter(s[..k]) == Depth(0, 0)
  }

  /** The first position at which `closing` closes the value, scanning with running depths. */
  function BalancedEnd(s: string, closing: char, i: nat, depth: Depth): (end: Option<nat>)
    requires i <= |s| && depth == DepthAfter(s[..i])
    ensures end.Some? ==> i <= end.value && Closes(s, closing, end.value)
                          && forall k :: i <= k < end.value ==> !Closes(s, closing, k)
    ensures end.None? ==> forall k :: i <= k < |s| ==> !Closes(s, closing, k)
    decreases |s| - i
  {
    if i == |s| then None
    else if s[i] == closing && depth == Depth(0, 0) then Some(i)
    else
      assert s[..i + 1][..i] == s[..i];
      BalancedEnd(s, closing, i + 1, Deeper(depth, s[i]))
  }

  /** A value up to its closing bracket, and what follows the bracket. */
  function InlineValue(text: Text, s: string, closing: char): (step: Step<string>)
    ensures step.Took? ==> ProperTail(step.rest, s)
  {
    match BalancedEnd(s, closing, 0, Depth(0, 0))
    case None => Failed
    case Some(end) => Took(Trim(text, s[..end]), s[end + 1..])
  }

  function ParseDataview(text: Text, s: string): (step: Step<Metadata>)
    ensures step.Took? ==> ProperTail(step.rest, s)
  {
    if s == "" || (s[0] != '[' && s[0] != '(') then Failed
    else
      match TakeWhile1(s[1..], IdChar(text))
      case Failed => Failed
      case Took(key, rest) =>
        var step := DataviewValue(text, AsciiLower(Trim(text, key)), rest, if s[0] == '[' then ']' else ')');
        FieldTail(s, rest, step);
        step
  }

  lemma FieldTail(s: string, rest: string, step: Step<Metadata>)
    requires s != "" && Tail(rest, s[1..]) && (step.Took? ==> Tail(step.rest, rest))
    ensures step.Took? ==> ProperTail(step.rest, s)
  {
    if step.Took? {
      TailOfTail(step.rest, rest, s[1..]);
      AfterFirst(step.rest, s);
    }
  }

  /** The rest of an inline field: "::", spaces, the value, its closing bracket. */
  function DataviewValue(text: Text, key: string, s: string, closing: char): (step: Step<Metadata>)
    ensures step.Took? ==> Tail(step.rest, s)
  {
    if !StartsWith(s, "::") then Failed
    else
      match InlineValue(text, Space0(s[2..]), closing)
      case Failed => Failed
      case Took(value, rest) =>
        TailOfTail(rest, Space0(s[2..]), s[2..]);
        TailOfTail(rest, s[2..], s);
        Took(DataviewItem(text, key, value), rest)
  }

  function DataviewItem(text: Text, key: string, value: string): Metadata {
    var item := StandardField(text, key, value);
    item.(fields := item.fields[key := value])
  }

  function ParsePriority(s: string): (step: Step<Metadata>)
    ensures step.Took? ==> ProperTail(step.rest, s)
  {
    if s != "" && IsPriorityChar(s[0]) then Took(NOTHING.(priority := Some(s[0])), s[1..]) else Failed
  }

  predicate AnyAlphabetic(text: Text, s: string) {
    exists i :: 0 <= i < |s| && text.alphabetic(s[i])
  }

  function ParseTag(text: Text, s: string): (step: Step<Metadata>)
    ensures step.Took? ==> ProperTail(step.rest, s)
  {
    if !Begins(s, '#') then Failed
    else
      match TakeWhile1(s[1..], TagChar(text))
      case Failed => Failed
      case Took(name, rest) =>
        AfterFirst(rest, s);
        if AnyAlphabetic(text, name) then Took(NOTHING.(tags := [name]), rest) else Failed
  }

  function ParseBlockRef(text: Text, s: string): (step: Step<Metadata>)
    ensures step.Took? ==> ProperTail(step.rest, s)
  {
    if !Begins(s, '^') then Failed
    else
      match TakeWhile1(s[1..], IdChar(text))
      case Failed => Failed
      case Took(id, rest) =>
        AfterFirst(rest, s);
        Took(NOTHING.(blockRef := Some(id)), rest)
  }

  function OrElse(a: Step<Metadata>, b: Step<Metadata>): Step<Metadata> {
    if a.Took? then a else b
  }

  /** One metadata item: the first alternative that takes something. */
  function ParseItem(text: Text, s: string): (step: Step<Metadata>)
    ensures step.Took? ==> ProperTail(step.rest, s)
  {
    OrElse(ParseDate(text, s), OrElse(ParseRecurrence(text, s), OrElse(ParseOnCompletion(text, s),
      OrElse(ParseId(text, s), OrElse(ParseDependsOn(text, s), OrElse(ParseDataview(text, s),
        OrElse(ParsePriority(s), OrElse(ParseTag(text, s), ParseBlockRef(text, s)))))))))
  }

  function Separator(s: string): (rest: string)
    ensures Tail(rest, s)
  {
    var t := Space0(s);
    if Begins(t, ',') then Space0(t[1..]) else t
  }

  /** The items at the front of the text, and the text from where no further item could be taken. */
  function ParseItems(text: Text, s: string): (r: (seq<Metadata>, string))
    ensures Tail(r.1, s)
    decreases |s|
  {
    if s == "" then ([], "")
    else
      match ParseItem(text, Separator(s))
      case Failed => ([], s)
      case Took(item, rest) =>
        var more := ParseItems(text, rest);
        ([item] + more.0, more.1)
  }
}
