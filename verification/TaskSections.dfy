/** Splitting a task's text into description and trailing metadata. */
module TaskSections {
  import opened Wrappers
  import opened Texts
  import opened TaskMetadata
  import opened TaskWriting

  // ---------------------------------------------------------------------------------------------
  // Merging items
  // ---------------------------------------------------------------------------------------------

  function Later<T>(a: Option<T>, b: Option<T>): Option<T> {
    if b.Some? then b else a
  }

  function Merge(dst: Metadata, src: Metadata): Metadata {
    Metadata(Later(dst.due, src.due), Later(dst.scheduled, src.scheduled), Later(dst.start, src.start),
             Later(dst.done, src.done), Later(dst.cancelled, src.cancelled), Later(dst.created, src.created),
             Later(dst.priority, src.priority), Later(dst.recurrence, src.recurrence),
             Later(dst.onCompletion, src.onCompletion), Later(dst.id, src.id),
             if src.dependsOn != [] then src.dependsOn else dst.dependsOn, dst.tags + src.tags,
             Later(dst.blockRef, src.blockRef), dst.fields + src.fields)
  }

  function MergeAll(items: seq<Metadata>): Metadata {
    if items == [] then NOTHING else Merge(MergeAll(items[..|items| - 1]), items[|items| - 1])
  }

  /** A single-valued field of some metadata. */
  function Get(m: Metadata, f: Field): Option<string> {
    match f
    case Due => m.due
    case Scheduled => m.scheduled
    case Start => m.start
    case Done => m.done
    case Cancelled => m.cancelled
    case Created => m.created
    case Priority => if m.priority.None? then None else Some([m.priority.value])
    case Recurrence => m.recurrence
    case OnCompletion => m.onCompletion
    case Id => m.id
    case BlockRef => m.blockRef
  }

  /** The value comes from item `i`, and no later item sets the field. */
  ghost predicate LastSets(items: seq<Metadata>, f: Field, i: nat) {
    i < |items| && Get(items[i], f).Some? && forall j :: i < j < |items| ==> Get(items[j], f).None?
  }

  lemma GetMerge(a: Metadata, b: Metadata, f: Field)
    ensures Get(Merge(a, b), f) == Later(Get(a, f), Get(b, f))
  {
  }

  lemma GetNothing(f: Field)
    ensures Get(NOTHING, f) == None
  {
  }

  /** In every single-valued field the last item that sets it wins, and with none the field stays empty. */
  lemma {:induction false} LastItemWins(items: seq<Metadata>, f: Field)
    ensures Get(MergeAll(items), f).None? <==> forall i :: 0 <= i < |items| ==> Get(items[i], f).None?
    ensures forall i :: 0 <= i < |items| && LastSets(items, f, i) ==> Get(MergeAll(items), f) == Get(items[i], f)
  {
    hide Get, Merge;
    GetNothing(f);
    if items != [] {
      var init, last := items[..|items| - 1], items[|items| - 1];
      LastItemWins(init, f);
      GetMerge(MergeAll(init), last, f);
      forall i | 0 <= i < |items| && LastSets(items, f, i) ensures Get(MergeAll(items), f) == Get(items[i], f) {
        if i < |init| {
          assert LastSets(init, f, i);
        }
      }
    }
  }

  /** All tags, in the order of their items. */
  function TagsOf(items: seq<Metadata>): seq<string> {
    if items == [] then [] else items[0].tags + TagsOf(items[1..])
  }

  lemma {:induction false} TagsOfAppend(items: seq<Metadata>, last: Metadata)
    ensures TagsOf(items + [last]) == TagsOf(items) + last.tags
  {
    if items == [] {
      assert [last][1..] == [];
    } else {
      assert (items + [last])[1..] == items[1..] + [last];
      TagsOfAppend(items[1..], last);
    }
  }

  lemma {:induction false} TagsKeepOrder(items: seq<Metadata>)
    ensures MergeAll(items).tags == TagsOf(items)
  {
    if items != [] {
      var init, last := items[..|items| - 1], items[|items| - 1];
      TagsKeepOrder(init);
      TagsOfAppend(init, last);
      assert items == init + [last];
    }
  }

  /** Named fields: the last item that has the key gives its value; no key is made up. */
  lemma {:induction false} LastFieldWins(items: seq<Metadata>, key: string)
    ensures key in MergeAll(items).fields <==> exists i :: 0 <= i < |items| && key in items[i].fields
    ensures forall i :: 0 <= i < |items| && key in items[i].fields && (forall j :: i < j < |items| ==> key !in items[j].fields)
              ==> key in MergeAll(items).fields && MergeAll(items).fields[key] == items[i].fields[key]
  {
    if items != [] {
      var init, last := items[..|items| - 1], items[|items| - 1];
      LastFieldWins(init, key);
      assert MergeAll(items).fields == MergeAll(init).fields + last.fields;
    }
  }

  /** The dependencies are those of the last item that has any. */
  lemma {:induction false} LastDependenciesWin(items: seq<Metadata>)
    ensures MergeAll(items).dependsOn == [] <==> forall i :: 0 <= i < |items| ==> items[i].dependsOn == []
    ensures forall i :: 0 <= i < |items| && items[i].dependsOn != [] && (forall j :: i < j < |items| ==> items[j].dependsOn == [])
              ==> MergeAll(items).dependsOn == items[i].dependsOn
  {
    if items != [] {
      var n := |items| - 1;
      var init := items[..n];
      LastDependenciesWin(init);
      assert forall i :: 0 <= i < n ==> init[i] == items[i];
      assert MergeAll(items).dependsOn == if items[n].dependsOn != [] then items[n].dependsOn else MergeAll(init).dependsOn;
      assert (forall i :: 0 <= i < |items| ==> items[i].dependsOn == [])
        <==> items[n].dependsOn == [] && forall i :: 0 <= i < n ==> init[i].dependsOn == [];
    }
  }

  function PriorityCount(items: seq<Metadata>): nat {
    if items == [] then 0
    else PriorityCount(items[..|items| - 1]) + if items[|items| - 1].priority.Some? then 1 else 0
  }

  // ---------------------------------------------------------------------------------------------
  // The section parsers
  // ---------------------------------------------------------------------------------------------

  /** The text is metadata to its last character, with some item and at most one priority. */
  predicate IsPure(text: Text, s: string) {
    var (items, rest) := ParseItems(text, s);
    rest == "" && items != [] && PriorityCount(items) <= 1
  }

  lemma ParseItemsStep(text: Text, s: string, done: seq<Metadata>)
    requires s != "" && ParseItem(text, Separator(s)).Took?
    ensures var item := ParseItem(text, Separator(s)).value; var rest := ParseItem(text, Separator(s)).rest;
            && |rest| < |s|
            && done + ParseItems(text, s).0 == (done + [item]) + ParseItems(text, rest).0
            && ParseItems(text, s).1 == ParseItems(text, rest).1
  {
    hide ParseItem, Separator;
  }

  lemma {:induction false} PriorityCountGrows(a: seq<Metadata>, b: seq<Metadata>)
    ensures PriorityCount(a + b) >= PriorityCount(a)
  {
    if b == [] {
      assert a + b == a;
    } else {
      assert (a + b)[..|a + b| - 1] == a + b[..|b| - 1];
      PriorityCountGrows(a, b[..|b| - 1]);
    }
  }

  method IsPureMetadata(text: Text, s: string) returns (pure: bool)
    ensures pure <==> IsPure(text, s)
  {
    hide ParseItem, Separator, ParseItems, PriorityCount;
    var input, seenPriority, seenItem := s, false, false;
    ghost var done := [];
    NoPriorities();
    while true
      invariant ParseItems(text, s).0 == done + ParseItems(text, input).0 && ParseItems(text, s).1 == ParseItems(text, input).1
      invariant PriorityCount(done) == (if seenPriority then 1 else 0) && (seenItem <==> done != [])
      decreases |input|
    {
      if input == "" {
        NothingLeft(text);
        assert done + [] == done;
        return seenItem;
      }
      var step := ParseItem(text, Separator(input));
      if step.Failed? {
        StuckHere(text, input);
        return false;
      }
      ParseItemsStep(text, input, done);
      PriorityCountNext(done, step.value);
      seenItem := true;
      done := done + [step.value];
      if step.value.priority.Some? {
        if seenPriority {
          PriorityCountGrows(done, ParseItems(text, step.rest).0);
          return false;
        }
        seenPriority := true;
      }
      input := step.rest;
    }
  }

  lemma NoPriorities()
    ensures PriorityCount([]) == 0
  {
  }

  lemma PriorityCountNext(done: seq<Metadata>, item: Metadata)
    ensures PriorityCount(done + [item]) == PriorityCount(done) + if item.priority.Some? then 1 else 0
  {
    assert (done + [item])[..|done|] == done;
  }

  lemma StuckHere(text: Text, s: string)
    requires s != "" && ParseItem(text, Separator(s)).Failed?
    ensures ParseItems(text, s) == ([], s)
  {
  }

  /** Merge items from the front until none can be taken. */
  method ParseMetadataSection(text: Text, s: string) returns (result: Metadata)
    ensures result == MergeAll(ParseItems(text, s).0)
  {
    hide ParseItem, Separator, ParseItems, Merge;
    var input := s;
    result := NOTHING;
    ghost var done := [];
    while input != ""
      invariant ParseItems(text, s).0 == done + ParseItems(text, input).0
      invariant result == MergeAll(done)
      decreases |input|
    {
      var step := ParseItem(text, Separator(input));
      if step.Failed? {
        StuckHere(text, input);
        assert done + [] == done;
        return;
      }
      ParseItemsStep(text, input, done);
      assert (done + [step.value])[..|done|] == done;
      done := done + [step.value];
      result := Merge(result, step.value);
      input := step.rest;
    }
    NothingLeft(text);
    assert done + [] == done;
  }

  /** Collect the words of a recurrence rule. */
  method CollectWords(text: Text, s: string) returns (step: Step<seq<string>>)
    ensures step == RecurrenceWords(text, s, [])
  {
    hide StartsToken, TrimStart, TakeWhile1, Space0;
    var input, words := s, [];
    while true
      invariant RecurrenceWords(text, s, []) == RecurrenceWords(text, input, words)
      decreases |input|
    {
      var trimmed := TrimStart(text, input);
      if trimmed == "" || StartsToken(trimmed) {
        return Took(words, input);
      }
      var word := TakeWhile1(input, NotWhite(text));
      if word.Failed? {
        return Failed;
      }
      words := words + [word.value];
      input := Space0(word.rest);
    }
  }

  /** Scan for the bracket that closes an inline value, counting brackets opened on the way. */
  method ScanBalanced(s: string, closing: char) returns (end: Option<nat>)
    ensures end.Some? ==> Closes(s, closing, end.value) && forall k :: 0 <= k < end.value ==> !Closes(s, closing, k)
    ensures end.None? ==> forall k :: 0 <= k < |s| ==> !Closes(s, closing, k)
    ensures end == BalancedEnd(s, closing, 0, Depth(0, 0))
  {
    hide Deeper;
    var square: nat, round: nat := 0, 0;
    var consumed := 0;
    while consumed < |s|
      invariant consumed <= |s| && Depth(square, round) == DepthAfter(s[..consumed])
      invariant BalancedEnd(s, closing, 0, Depth(0, 0)) == BalancedEnd(s, closing, consumed, Depth(square, round))
    {
      if s[consumed] == closing && square == 0 && round == 0 {
        return Some(consumed);
      }
      assert s[..consumed + 1][..consumed] == s[..consumed];
      var depth := Deeper(Depth(square, round), s[consumed]);
      square, round := depth.square, depth.round;
      consumed := consumed + 1;
    }
    end := None;
  }

  // ---------------------------------------------------------------------------------------------
  // Where the metadata begins
  // ---------------------------------------------------------------------------------------------

  predicate WordStart(text: Text, content: string, i: nat) {
    i < |content| && !text.white(content[i]) && (i == 0 || text.white(content[i - 1]))
  }

  /** The last word before a position is a priority marker and nothing else. */
  predicate PreviousIsPriority(text: Text, prefix: string) {
    var trimmed := TrimEnd(text, prefix);
    && trimmed != "" && IsPriorityChar(trimmed[|trimmed| - 1])
    && (|trimmed| == 1 || text.white(trimmed[|trimmed| - 2]))
  }

  predicate Qualifies(text: Text, content: string, i: nat) {
    && WordStart(text, content, i)
    && StartsToken(content[i..])
    && !PreviousIsPriority(text, content[..i])
    && IsPure(text, content[i..])
  }

  /** The metadata begins at the first word start that qualifies, or nowhere. */
  ghost predicate IsMetadataStart(text: Text, content: string, start: nat) {
    && start <= |content|
    && (start < |content| ==> Qualifies(text, content, start))
    && forall j :: 0 <= j < start ==> !Qualifies(text, content, j)
  }

  method FindMetadataStart(text: Text, content: string) returns (start: nat)
    ensures IsMetadataStart(text, content, start)
    ensures start <= |content| && (start < |content| ==> !text.white(content[start]))
  {
    hide StartsToken, PreviousIsPriority, IsPure;
    var inWord, i := false, 0;
    while i < |content|
      invariant i <= |content|
      invariant inWord <==> i > 0 && !text.white(content[i - 1])
      invariant forall j :: 0 <= j < i ==> !Qualifies(text, content, j)
    {
      if text.white(content[i]) {
        inWord := false;
      } else if !inWord {
        inWord := true;
        var rest := content[i..];
        if StartsToken(rest) && !PreviousIsPriority(text, content[..i]) {
          var pure := IsPureMetadata(text, rest);
          if pure {
            return i;
          }
        }
      }
      i := i + 1;
    }
    start := |content|;
  }

  datatype TaskText = TaskText(description: string, metadata: Metadata)

  /** The text is a description and, behind it, written items; no word of the description begins like an item. */
  ghost predicate IsWritten(text: Text, content: string, description: string, items: seq<Written>, gap: string) {
    && AllWritable(text, items) && Gap(gap) && items != [] && PriorityCount(Meanings(text, items)) <= 1
    && content == (if description == "" then "" else description + " ") + WriteAll(text, items, gap)
    && (description != "" ==> !text.white(description[|description| - 1]))
    && forall i :: 0 <= i < |description| && WordStart(text, description, i) ==> !StartsToken(content[i..])
  }

  ghost function SplitAt(description: string): nat {
    if description == "" then 0 else |description| + 1
  }

  lemma SplitText(text: Text, content: string, description: string, items: seq<Written>, gap: string)
    requires Unicode(text) && IsWritten(text, content, description, items, gap)
    ensures var at := SplitAt(description);
            && at <= |content| && content[at..] == WriteAll(text, items, gap) && TrimEnd(text, content[..at]) == description
            && |description| <= at && content[..|description|] == description
            && (description != "" ==> content[|description|] == ' ')
  {
    hide WriteAll, StartsToken, AllWritable, PriorityCount, Meanings, Writable, WordStart;
    if description == "" {
      assert content[0..] == content && content[..0] == "";
    } else {
      assert content == description + (" " + WriteAll(text, items, gap));
      assert content[..|description| + 1] == description + " ";
      assert (description + " ")[..|description|] == description;
    }
  }

  /** The written items qualify as metadata where they begin. */
  lemma WrittenQualifies(text: Text, content: string, description: string, items: seq<Written>, gap: string)
    requires Unicode(text) && IsWritten(text, content, description, items, gap)
    ensures SplitAt(description) < |content| && Qualifies(text, content, SplitAt(description))
  {
    hide Unicode, ParseItems, StartsToken, WriteAll, Meanings, Writable, PriorityCount, Write, TrimEnd, IsPriorityChar;
    var at := SplitAt(description);
    SplitText(text, content, description, items, gap);
    ItemStarts(text, items[0], gap, Behind(text, items, gap));
    FirstWritten(text, items, gap);
    WrittenItemsParse(text, items, gap);
    SpacesAreWhite(text);
    assert content[at] == content[at..][0];
    NoRankBefore(text, content, description);
  }

  lemma FirstWritten(text: Text, items: seq<Written>, gap: string)
    requires AllWritable(text, items) && items != []
    ensures Writable(text, items[0]) && WriteAll(text, items, gap) == Write(items[0], gap) + Behind(text, items, gap)
  {
    hide Writable, Write;
  }

  lemma SpacesAreWhite(text: Text)
    requires Unicode(text)
    ensures text.white(' ')
  {
  }

  /** A description none of whose words begins like an item does not end in a priority marker either. */
  lemma NoRankBefore(text: Text, content: string, description: string)
    requires SplitAt(description) <= |content| && |description| <= |content| && content[..|description|] == description
    requires forall i :: 0 <= i < |description| && WordStart(text, description, i) ==> !StartsToken(content[i..])
    requires TrimEnd(text, content[..SplitAt(description)]) == description
    requires description != "" ==> !text.white(description[|description| - 1])
    ensures !PreviousIsPriority(text, content[..SplitAt(description)])
  {
    hide TrimEnd, HasDoubleColon;
    if description != "" {
      var i := |description| - 1;
      assert content[i] == description[i] && content[i..][0] == content[i];
      assert IsPriorityChar(description[i]) ==> StartsToken(content[i..]);
      assert WordStart(text, description, i) ==> !StartsToken(content[i..]);
    }
  }

  /** The text before ends in a word that is a priority marker and nothing else. */
  lemma PriorityBefore(text: Text, prefix: string, marker: char, gap: string)
    requires IsPriorityChar(marker) && !text.white(marker) && forall i :: 0 <= i < |gap| ==> text.white(gap[i])
    requires prefix != "" ==> text.white(prefix[|prefix| - 1])
    ensures PreviousIsPriority(text, prefix + [marker] + gap)
  {
    hide IsPriorityChar;
    var s := prefix + [marker];
    EndTrimmed(text, s, gap);
    assert s[|s| - 1] == marker && (|s| > 1 ==> s[|s| - 2] == prefix[|prefix| - 1]);
  }

  lemma {:induction false} EndTrimmed(text: Text, s: string, gap: string)
    requires s != "" && !text.white(s[|s| - 1]) && forall i :: 0 <= i < |gap| ==> text.white(gap[i])
    ensures TrimEnd(text, s + gap) == s
  {
    if gap == "" {
      assert s + gap == s;
    } else {
      assert (s + gap)[..|s + gap| - 1] == s + gap[..|gap| - 1];
      EndTrimmed(text, s, gap[..|gap| - 1]);
    }
  }

  /** Two priorities in a row behind a description are no metadata: the whole text is the description. */
  lemma TwoRanksAreNone(text: Text, content: string, description: string, first: Rank, second: Rank)
    requires Unicode(text)
    requires content == (if description == "" then "" else description + " ") + ([RankSymbol(first)] + (" " + [RankSymbol(second)]))
    requires description != "" ==> !text.white(description[|description| - 1])
    requires forall i :: 0 <= i < |description| && WordStart(text, description, i) ==> !StartsToken(content[i..])
    ensures IsMetadataStart(text, content, |content|)
  {
    hide StartsToken, PreviousIsPriority, IsPure, RankSymbol;
    var at := SplitAt(description);
    RanksAreMarkers(text, first, second);
    forall j: nat | j < |content| ensures !Qualifies(text, content, j) {
      if j < |description| {
        assert content[j] == description[j] && (j > 0 ==> content[j - 1] == description[j - 1]);
        assert WordStart(text, content, j) ==> WordStart(text, description, j);
      } else if j == at {
        assert content[j..] == [RankSymbol(first)] + (" " + [RankSymbol(second)]);
        TwoRanksImpure(text, first, second);
      } else if j == at + 2 {
        assert content[..j] == content[..at] + [RankSymbol(first)] + " ";
        PriorityBefore(text, content[..at], RankSymbol(first), " ");
      } else {
        assert content[j] == ' ';
      }
    }
  }

  lemma RanksAreMarkers(text: Text, first: Rank, second: Rank)
    requires Unicode(text)
    ensures IsPriorityChar(RankSymbol(first)) && !text.white(RankSymbol(first)) && text.white(' ')
  {
  }

  lemma TwoRanksImpure(text: Text, first: Rank, second: Rank)
    requires Unicode(text)
    ensures !IsPure(text, [RankSymbol(first)] + (" " + [RankSymbol(second)]))
  {
    hide Unicode, ParseItems, RankSymbol;
    var items := [Ranked(first), Ranked(second)];
    WrittenItemsParse(text, items, "");
    assert items[1..] == [Ranked(second)];
    OneWritten(text, Ranked(second), "");
    assert Behind(text, items, "") == " " + [RankSymbol(second)];
    FirstWritten(text, items, "");
    TwoCounted(Meanings(text, items));
  }

  lemma OneWritten(text: Text, item: Written, gap: string)
    requires Writable(text, item)
    ensures AllWritable(text, [item]) && WriteAll(text, [item], gap) == Write(item, gap)
  {
    hide Write;
    assert Write(item, gap) + "" == Write(item, gap);
  }

  lemma TwoCounted(items: seq<Metadata>)
    requires |items| == 2 && items[0].priority.Some? && items[1].priority.Some?
    ensures PriorityCount(items) == 2
  {
    assert items[..1][..0] == [] && PriorityCount(items[..1]) == 1;
  }

  /** Nothing before the written items qualifies. */
  lemma NothingBefore(text: Text, content: string, description: string, items: seq<Written>, gap: string, j: nat)
    requires Unicode(text) && IsWritten(text, content, description, items, gap) && j < SplitAt(description)
    ensures !Qualifies(text, content, j)
  {
    hide Unicode, StartsToken, WriteAll, Meanings, AllWritable, PriorityCount, TrimEnd, IsPure, PreviousIsPriority;
    SplitText(text, content, description, items, gap);
    SpacesAreWhite(text);
    if j < |description| && WordStart(text, content, j) {
      assert content[j] == description[j] && (j > 0 ==> content[j - 1] == description[j - 1]);
      assert WordStart(text, description, j);
    }
  }

  /** Where metadata was written behind a description, the split falls between the two. */
  lemma WrittenStart(text: Text, content: string, description: string, items: seq<Written>, gap: string, start: nat)
    requires Unicode(text) && IsWritten(text, content, description, items, gap) && IsMetadataStart(text, content, start)
    ensures TrimEnd(text, content[..start]) == description
    ensures ParseItems(text, content[start..]).0 == Meanings(text, items)
  {
    hide Unicode, ParseItems, WriteAll, Meanings, TrimEnd, AllWritable, PriorityCount, Qualifies, StartsToken;
    SplitText(text, content, description, items, gap);
    WrittenItemsParse(text, items, gap);
    WrittenQualifies(text, content, description, items, gap);
    forall j: nat | j < SplitAt(description) ensures !Qualifies(text, content, j) {
      NothingBefore(text, content, description, items, gap, j);
    }
    MetadataStartUnique(text, content, start, SplitAt(description));
  }

  /** However the text may have been written, the task has that description and what those items say. */
  ghost predicate ReadsBack(text: Text, content: string, task: TaskText) {
    forall description, items, gap :: IsWritten(text, content, description, items, gap) ==>
      task == TaskText(description, MergeAll(Meanings(text, items)))
  }

  lemma WrittenReadsBack(text: Text, content: string, start: nat)
    requires Unicode(text) && IsMetadataStart(text, content, start)
    ensures ReadsBack(text, content, TaskText(TrimEnd(text, content[..start]), MergeAll(ParseItems(text, content[start..]).0)))
  {
    hide Unicode, Qualifies, WordStart, ParseItems, Meanings, AllWritable, WriteAll, TrimEnd, MergeAll, StartsToken, PriorityCount;
    forall description, items, gap | IsWritten(text, content, description, items, gap)
      ensures TaskText(TrimEnd(text, content[..start]), MergeAll(ParseItems(text, content[start..]).0))
           == TaskText(description, MergeAll(Meanings(text, items)))
    {
      WrittenStart(text, content, description, items, gap, start);
    }
  }

  /** With one item the metadata is just what that item says. */
  lemma OneItemMeans(text: Text, item: Written)
    requires Writable(text, item)
    ensures AllWritable(text, [item]) && MergeAll(Meanings(text, [item])) == Means(text, item)
    ensures PriorityCount(Meanings(text, [item])) <= 1
  {
    hide Means, Word, Words, TagName, Identifier, Enclosed;
    var m := Means(text, item);
    assert Meanings(text, [item]) == [m] && [m][..0] == [];
    MergeNothing(m);
  }

  lemma MergeNothing(m: Metadata)
    ensures Merge(NOTHING, m) == m && MergeAll([]) == NOTHING && PriorityCount([]) == 0
  {
  }

  /** Description and metadata of a task's text, split where the metadata begins. */
  method ParseTaskContent(text: Text, content: string) returns (task: TaskText)
    ensures exists start: nat :: IsMetadataStart(text, content, start)
              && task == TaskText(TrimEnd(text, content[..start]), MergeAll(ParseItems(text, content[start..]).0))
    ensures Unicode(text) ==> ReadsBack(text, content, task)
  {
    hide IsPure, StartsToken, PreviousIsPriority, ParseItems, IsMetadataStart, Unicode, ReadsBack;
    var metaStart := FindMetadataStart(text, content);
    if metaStart < |content| {
      assert content[metaStart..][0] == content[metaStart];
    }
    assert TrimStart(text, content[metaStart..]) == content[metaStart..];
    var metadata := ParseMetadataSection(text, TrimStart(text, content[metaStart..]));
    task := TaskText(TrimEnd(text, content[..metaStart]), metadata);
    if Unicode(text) {
      WrittenReadsBack(text, content, metaStart);
    }
  }

  /** Whatever suffix is chosen is used up to its last character, with at most one priority among its items. */
  lemma SuffixIsConsumed(text: Text, content: string, start: nat)
    requires IsMetadataStart(text, content, start)
    ensures ParseItems(text, content[start..]).1 == ""
    ensures PriorityCount(ParseItems(text, content[start..]).0) <= 1
    ensures ParseItems(text, content[start..]).0 == [] <==> start == |content|
  {
    hide ParseItems, StartsToken, PreviousIsPriority;
    if start == |content| {
      assert content[start..] == "";
      NothingLeft(text);
    }
    NoPriorities();
  }

  /** The split is determined: no two positions both fit. */
  lemma MetadataStartUnique(text: Text, content: string, a: nat, b: nat)
    requires IsMetadataStart(text, content, a) && IsMetadataStart(text, content, b)
    ensures a == b
  {
    hide Qualifies;
    assert a < b ==> Qualifies(text, content, a);
    assert b < a ==> Qualifies(text, content, b);
  }

  // ---------------------------------------------------------------------------------------------
  // Tags written out are read back
  // ---------------------------------------------------------------------------------------------

  /** None of the characters that separate items counts as alphanumeric. */
  ghost predicate SeparatorsOk(text: Text) {
    !text.alphanumeric(' ') && !text.alphanumeric('#')
  }

  function WrittenTags(names: seq<string>): string {
    if names == [] then ""
    else if |names| == 1 then "#" + names[0]
    else "#" + names[0] + " " + WrittenTags(names[1..])
  }

  function TagItems(names: seq<string>): (items: seq<Metadata>)
    ensures |items| == |names| && forall i :: 0 <= i < |names| ==> items[i] == NOTHING.(tags := [names[i]])
  {
    seq(|names|, i requires 0 <= i < |names| => NOTHING.(tags := [names[i]]))
  }

  lemma SeparatorBeforeTag(s: string)
    requires Begins(s, '#')
    ensures Separator(s) == s && Separator(" " + s) == s
  {
    hide Tail;
    assert (" " + s)[1..] == s;
    assert Space0(s) == s;
    assert Space0(" " + s) == Space0(s);
  }

  /** One tag followed by a space or the end is one item, with or without a space before it. */
  lemma OneTag(text: Text, name: string, rest: string)
    requires SeparatorsOk(text) && TagName(text, name) && (rest != "" ==> rest[0] == ' ')
    ensures ParseItem(text, Separator("#" + name + rest)) == Took(NOTHING.(tags := [name]), rest)
    ensures ParseItem(text, Separator(" " + ("#" + name + rest))) == Took(NOTHING.(tags := [name]), rest)
  {
    hide ParseItem, Separator;
    var s := "#" + name + rest;
    SeparatorBeforeTag(s);
    TagRead(text, name, rest);
  }

  function AfterFirstTag(names: seq<string>): string
    requires names != []
  {
    if |names| == 1 then "" else " " + WrittenTags(names[1..])
  }

  lemma FirstTagWritten(names: seq<string>)
    requires names != []
    ensures WrittenTags(names) == "#" + names[0] + AfterFirstTag(names)
    ensures TagItems(names) == [NOTHING.(tags := [names[0]])] + TagItems(names[1..])
  {
    if |names| == 1 {
      assert "#" + names[0] + "" == "#" + names[0];
    } else {
      assert "#" + names[0] + " " + WrittenTags(names[1..]) == "#" + names[0] + (" " + WrittenTags(names[1..]));
    }
  }

  /** Tags written one after another parse as exactly those tags, and as nothing else. */
  lemma {:induction false} WrittenTagsParse(text: Text, names: seq<string>)
    requires SeparatorsOk(text) && forall i :: 0 <= i < |names| ==> TagName(text, names[i])
    ensures ParseItems(text, WrittenTags(names)) == (TagItems(names), "")
    ensures names != [] ==> ParseItems(text, " " + WrittenTags(names)) == (TagItems(names), "")
  {
    hide ParseItem, ParseItems, Separator, TagName, SeparatorsOk, WrittenTags, TagItems;
    if names == [] {
      NothingLeft(text);
      NoTags();
    } else {
      var rest := AfterFirstTag(names);
      WrittenTagsParse(text, names[1..]);
      FirstTagWritten(names);
      OneTag(text, names[0], rest);
      assert ParseItems(text, rest) == (TagItems(names[1..]), "") by {
        NothingLeft(text);
        NoTags();
        assert |names| == 1 ==> names[1..] == [];
      }
      ItemFirst(text, WrittenTags(names), NOTHING.(tags := [names[0]]), rest);
      ItemFirst(text, " " + WrittenTags(names), NOTHING.(tags := [names[0]]), rest);
    }
  }

  lemma NoTags()
    ensures WrittenTags([]) == "" && TagItems([]) == []
  {
  }
}
