/** The line-by-line passes over a note's body: extended tasks and callouts, by a running offset. */
module LineParsers {
  import opened Wrappers
  import opened LineIndices
  import opened BodyLines
  import opened ExcludedSpans

  datatype TaskMatch = TaskMatch(indent: Bytes, marker: char, content: Bytes)
  datatype CalloutHead = CalloutHead(kind: Bytes, fold: Bytes, title: Bytes)

  /** The line patterns, each by what it captures from a line it matches. */
  datatype Patterns = Patterns(task: Bytes -> Option<TaskMatch>, callout: Bytes -> Option<CalloutHead>,
                               continuation: Bytes -> Option<Bytes>)

  /** A task's indent is the start of its line. */
  ghost predicate PatternsOk(patterns: Patterns) {
    forall line :: patterns.task(line).Some? ==> patterns.task(line).value.indent <= line
  }

  /** The literals the pre-filters look for stand in every line the patterns match. */
  ghost predicate PatternsMarked(patterns: Patterns) {
    && (forall line :: patterns.task(line).Some? ==> HasPart(line, "[/]") || HasPart(line, "[-]"))
    && (forall line :: patterns.callout(line).Some? ==> HasPart(line, "[!"))
  }

  datatype Span = Span(position: Position, offset: nat, length: nat)
  datatype Task = Task(content: Bytes, marker: char, span: Span)
  datatype Callout = Callout(kind: Bytes, title: Option<Bytes>, content: Bytes, foldable: bool, span: Span)

  predicate HasPart(s: Bytes, part: Bytes) {
    part <= s || (s != "" && HasPart(s[1..], part))
  }

  ghost predicate PartAt(s: Bytes, part: Bytes, i: int) {
    0 <= i <= |s| - |part| && s[i..i + |part|] == part
  }

  /** The pre-filters' search finds its part exactly if it stands somewhere in the text. */
  lemma {:induction false} PartIsThere(s: Bytes, part: Bytes)
    ensures HasPart(s, part) <==> exists i :: PartAt(s, part, i)
  {
    assert part <= s <==> PartAt(s, part, 0);
    if s != "" {
      PartIsThere(s[1..], part);
      forall i | PartAt(s[1..], part, i) ensures PartAt(s, part, i + 1) {
        assert s[1..][i..i + |part|] == s[i + 1..i + 1 + |part|];
      }
      forall i | PartAt(s, part, i) && i > 0 ensures PartAt(s[1..], part, i - 1) {
        assert s[1..][i - 1..i - 1 + |part|] == s[i..i + |part|];
      }
    }
  }

  lemma {:induction false} PartOfSlice(s: Bytes, from: nat, to: nat, part: Bytes)
    requires from <= to <= |s| && HasPart(s[from..to], part)
    ensures HasPart(s, part)
  {
    if from > 0 {
      assert s[from..to] == s[1..][from - 1..to - 1];
      PartOfSlice(s[1..], from - 1, to - 1, part);
    } else if !(part <= s[..to]) {
      assert s[from..to][1..] == s[1..][..to - 1];
      PartOfSlice(s[1..], 0, to - 1, part);
    }
  }

  /** What no line of the body may hold, if the body does not. */
  lemma NoLineHas(body: Bytes, part: Bytes)
    requires !HasPart(body, part)
    ensures forall i :: 0 <= i < |PlacedLines(body)| ==> !HasPart(PlacedLines(body)[i].text, part)
  {
    hide PlacedLines, HasPart, LineCount, Lines;
    forall i | 0 <= i < |PlacedLines(body)| ensures !HasPart(PlacedLines(body)[i].text, part) {
      PlacedIsThere(body, i);
      var line := PlacedLines(body)[i];
      if HasPart(line.text, part) {
        PartOfSlice(body, line.start, line.start + |line.text|, part);
      }
    }
  }

  /** A whole document: its body begins `bodyOffset` bytes in, and some offsets are excluded. */
  datatype Document = Document(content: Bytes, bodyOffset: nat, excluded: seq<Range>)

  ghost predicate Skipped(doc: Document, line: Placed) {
    Covers(doc.excluded, doc.bodyOffset + line.start)
  }

  /** The span of `length` bytes at an offset of the body, its position found by counting. */
  function SpanAt(doc: Document, offset: nat, length: nat): Span {
    Span(FromOffset(doc.content, doc.bodyOffset + offset), doc.bodyOffset + offset, length)
  }

  // ---------------------------------------------------------------------------------------------
  // Extended tasks
  // ---------------------------------------------------------------------------------------------

  function TaskOf(doc: Document, line: Placed, found: TaskMatch): Task
    requires |found.indent| <= |line.text|
  {
    Task(found.content, found.marker, SpanAt(doc, line.start + |found.indent|, |line.text| - |found.indent|))
  }

  ghost predicate IsTask(doc: Document, patterns: Patterns, line: Placed) {
    !Skipped(doc, line) && patterns.task(line.text).Some? && patterns.task(line.text).value.content != ""
  }

  /** A task for each line that is one, at the line's true place. */
  ghost function TasksOf(doc: Document, patterns: Patterns, lines: seq<Placed>): seq<Task>
    requires PatternsOk(patterns)
  {
    if lines == [] then []
    else
      var rest, line := TasksOf(doc, patterns, lines[..|lines| - 1]), lines[|lines| - 1];
      if IsTask(doc, patterns, line) then rest + [TaskOf(doc, line, patterns.task(line.text).value)] else rest
  }

  method ParseExtendedTasks(ghost doc: Document, index: LineIndex, body: Bytes, bodyOffset: nat, excluded: ExcludedRanges,
                            patterns: Patterns)
    returns (tasks: seq<Task>)
    requires PatternsOk(patterns) && index.Of(doc.content) && doc.bodyOffset == bodyOffset
    requires excluded.Valid() && Gapped(excluded.ranges) && doc.excluded == excluded.added
    ensures tasks == if HasPart(body, "[/]") || HasPart(body, "[-]") then TasksOf(doc, patterns, PlacedLines(body)) else []
    ensures PatternsMarked(patterns) && IsBody(doc, body) ==> TasksReported(doc, patterns, PlacedLines(body), tasks)
  {
    hide StartOf, LineCount, Pieces, LineStarts, Lines, PlacedLines, LineEndingSizeAt, Gapped, HasPart, OffsetIs, IsTask, TaskOf,
         PatternsMarked, IsBody, TasksReported;
    tasks := [];
    if PatternsMarked(patterns) && IsBody(doc, body) {
      EveryTaskReported(doc, patterns, body);
    }
    if !(HasPart(body, "[/]") || HasPart(body, "[-]")) {
      return;
    }
    var lines := Lines(body);
    ghost var placed := PlacedLines(body);
    var offset: nat, i: nat := 0, 0;
    OffsetBegins(body);
    while i < |lines|
      invariant i <= |lines| == |placed| && OffsetIs(body, i, offset)
      invariant tasks == TasksOf(doc, patterns, placed[..i])
    {
      var line, lineStart := lines[i], offset;
      assert placed[..i + 1][..i] == placed[..i];
      OffsetMoves(body, i, offset);
      offset := offset + |line| + LineEndingSizeAt(body, lineStart + |line|);
      i := i + 1;
      var task := ParseTaskLine(doc, index, line, lineStart, bodyOffset, excluded, patterns);
      if task.Some? {
        tasks := tasks + [task.value];
      }
    }
    assert placed[..i] == placed;
  }

  lemma IndentIsPrefix(patterns: Patterns, line: Bytes)
    requires PatternsOk(patterns)
    ensures patterns.task(line).Some? ==> patterns.task(line).value.indent <= line
  {
  }

  /** The task in one line, if it is not excluded, matches, and has content. */
  method ParseTaskLine(ghost doc: Document, index: LineIndex, line: Bytes, lineStart: nat, bodyOffset: nat,
                       excluded: ExcludedRanges, patterns: Patterns)
    returns (task: Option<Task>)
    requires PatternsOk(patterns) && index.Of(doc.content) && doc.bodyOffset == bodyOffset
    requires excluded.Valid() && Gapped(excluded.ranges) && doc.excluded == excluded.added
    ensures IsTask(doc, patterns, Placed(lineStart, line)) ==>
              task == Some(TaskOf(doc, Placed(lineStart, line), patterns.task(line).value))
    ensures !IsTask(doc, patterns, Placed(lineStart, line)) ==> task == None
  {
    hide LineStarts, Covers, FromOffset, Gapped, PatternsOk;
    assert patterns.task(line).Some? ==> patterns.task(line).value.indent <= line by {
      IndentIsPrefix(patterns, line);
    }
    if excluded.Contains(bodyOffset + lineStart) {
      return None;
    }
    var found := patterns.task(line);
    if found.None? || found.value.content == "" {
      return None;
    }
    var taskStart := bodyOffset + lineStart + |found.value.indent|;
    LookupAgrees(doc.content, taskStart);
    var span := Span(index.LineCol(taskStart), taskStart, |line| - |found.value.indent|);
    task := Some(Task(found.value.content, found.value.marker, span));
  }

  /** `offset` is where line `i` truly starts, or the end of the text after the last line. */
  ghost predicate OffsetIs(body: Bytes, i: nat, offset: nat) {
    && i <= |PlacedLines(body)|
    && offset == (if i < |PlacedLines(body)| then PlacedLines(body)[i].start else |body|)
  }

  lemma OffsetBegins(body: Bytes)
    ensures OffsetIs(body, 0, 0)
  {
    LastStartAtEnd(body);
  }

  /** Adding a line's length and its ending moves from true start to true start. */
  lemma OffsetMoves(body: Bytes, i: nat, offset: nat)
    requires OffsetIs(body, i, offset) && i < |Lines(body)|
    ensures PlacedLines(body)[i] == Placed(offset, Lines(body)[i])
    ensures OffsetIs(body, i + 1, offset + |Lines(body)[i]| + LineEndingSizeAt(body, offset + |Lines(body)[i]|))
  {
    hide LineStarts, Pieces, LineEndingSizeAt;
    PiecesAt(body);
    RunningOffset(body, i);
  }

  // ---------------------------------------------------------------------------------------------
  // Callouts
  // ---------------------------------------------------------------------------------------------

  function Titled(title: Bytes): Option<Bytes> {
    if title == "" then None else Some(title)
  }

  function Joined(content: Bytes, part: Bytes): Bytes {
    (if content == "" then content else content + "\n") + part
  }

  /** What the lines from `i` on add to a callout's content, and the line the callout ends before. */
  ghost function Continued(doc: Document, patterns: Patterns, lines: seq<Placed>, i: nat, content: Bytes): (r: (Bytes, nat))
    requires i <= |lines|
    ensures i <= r.1 <= |lines|
    decreases |lines| - i
  {
    if i == |lines| then (content, i)
    else if Skipped(doc, lines[i]) then Continued(doc, patterns, lines, i + 1, content)
    else if patterns.callout(lines[i].text).Some? || patterns.continuation(lines[i].text).None? then (content, i)
    else Continued(doc, patterns, lines, i + 1, Joined(content, patterns.continuation(lines[i].text).value))
  }

  function CalloutOf(doc: Document, line: Placed, head: CalloutHead, content: Bytes): Callout {
    Callout(head.kind, Titled(head.title), content, head.fold != "", SpanAt(doc, line.start, |line.text|))
  }

  ghost predicate IsCallout(doc: Document, patterns: Patterns, line: Placed) {
    !Skipped(doc, line) && patterns.callout(line.text).Some?
  }

  /** A callout for each header line not taken up by an earlier callout, at the header's true place. */
  ghost function CalloutsFrom(doc: Document, patterns: Patterns, full: bool, lines: seq<Placed>, i: nat): seq<Callout>
    requires i <= |lines|
    decreases |lines| - i
  {
    if i == |lines| then []
    else if !IsCallout(doc, patterns, lines[i]) then CalloutsFrom(doc, patterns, full, lines, i + 1)
    else
      var head := patterns.callout(lines[i].text).value;
      var (content, next) := if full then Continued(doc, patterns, lines, i + 1, "") else ("", i + 1);
      [CalloutOf(doc, lines[i], head, content)] + CalloutsFrom(doc, patterns, full, lines, next)
  }

  lemma CalloutsStep(doc: Document, patterns: Patterns, full: bool, lines: seq<Placed>, i: nat, before: seq<Callout>)
    requires i < |lines|
    ensures !IsCallout(doc, patterns, lines[i]) ==>
              CalloutsFrom(doc, patterns, full, lines, i) == CalloutsFrom(doc, patterns, full, lines, i + 1)
    ensures IsCallout(doc, patterns, lines[i]) ==>
              var head := patterns.callout(lines[i].text).value;
              var (content, next) := if full then Continued(doc, patterns, lines, i + 1, "") else ("", i + 1);
              before + CalloutsFrom(doc, patterns, full, lines, i)
              == (before + [CalloutOf(doc, lines[i], head, content)]) + CalloutsFrom(doc, patterns, full, lines, next)
  {
    hide CalloutOf, Skipped, Continued;
    if IsCallout(doc, patterns, lines[i]) {
      var head := patterns.callout(lines[i].text).value;
      var (content, next) := if full then Continued(doc, patterns, lines, i + 1, "") else ("", i + 1);
      assert CalloutsFrom(doc, patterns, full, lines, i)
          == [CalloutOf(doc, lines[i], head, content)] + CalloutsFrom(doc, patterns, full, lines, next);
    }
  }

  lemma CalloutsEnd(doc: Document, patterns: Patterns, full: bool, lines: seq<Placed>)
    ensures CalloutsFrom(doc, patterns, full, lines, |lines|) == []
  {
  }

  method ParseCallouts(ghost doc: Document, index: LineIndex, body: Bytes, bodyOffset: nat, excluded: ExcludedRanges,
                       patterns: Patterns, full: bool)
    returns (callouts: seq<Callout>)
    requires index.Of(doc.content) && doc.bodyOffset == bodyOffset
    requires excluded.Valid() && Gapped(excluded.ranges) && doc.excluded == excluded.added
    ensures callouts == if HasPart(body, "[!") then CalloutsFrom(doc, patterns, full, PlacedLines(body), 0) else []
    ensures PatternsMarked(patterns) && IsBody(doc, body) ==> CalloutsReported(doc, patterns, full, PlacedLines(body), callouts)
  {
    hide StartOf, LineCount, Pieces, LineStarts, Lines, PlacedLines, Covers, FromOffset, LineEndingSizeAt, Gapped, HasPart,
         Continued, OffsetIs, CalloutOf, CalloutsFrom, PatternsMarked, IsBody, CalloutsReported;
    callouts := [];
    if PatternsMarked(patterns) && IsBody(doc, body) {
      EveryCalloutReported(doc, patterns, full, body);
    }
    if !HasPart(body, "[!") {
      return;
    }
    var lines := Lines(body);
    ghost var placed := PlacedLines(body);
    var offset: nat, i: nat := 0, 0;
    OffsetBegins(body);
    while i < |lines|
      invariant i <= |lines| == |placed| && OffsetIs(body, i, offset)
      invariant callouts + CalloutsFrom(doc, patterns, full, placed, i) == CalloutsFrom(doc, patterns, full, placed, 0)
    {
      var line := lines[i];
      var globalLineStart := bodyOffset + offset;
      OffsetMoves(body, i, offset);
      CalloutsStep(doc, patterns, full, placed, i, callouts);
      offset := offset + |line| + LineEndingSizeAt(body, offset + |line|);
      i := i + 1;
      if excluded.Contains(globalLineStart) {
        continue;
      }
      var head := patterns.callout(line);
      if head.None? {
        continue;
      }
      var content := "";
      if full {
        content, i, offset := ParseContinuation(doc, lines, body, i, offset, excluded, bodyOffset, patterns);
      }
      var callout := ParseHeader(doc, index, line, globalLineStart, head.value, content);
      callouts := callouts + [callout];
    }
    CalloutsEnd(doc, patterns, full, placed);
    assert callouts + [] == callouts;
  }

  /** A callout from its header line and collected content. */
  method ParseHeader(ghost doc: Document, index: LineIndex, line: Bytes, globalOffset: nat, head: CalloutHead, content: Bytes)
    returns (callout: Callout)
    requires index.Of(doc.content) && globalOffset >= doc.bodyOffset
    ensures callout == CalloutOf(doc, Placed(globalOffset - doc.bodyOffset, line), head, content)
  {
    hide LineStarts, FromOffset;
    LookupAgrees(doc.content, globalOffset);
    var span := Span(index.LineCol(globalOffset), globalOffset, |line|);
    callout := Callout(head.kind, Titled(head.title), content, head.fold != "", span);
  }

  /** Collect a callout's continuation lines, carrying the running offset past them. */
  method ParseContinuation(ghost doc: Document, lines: seq<Bytes>, body: Bytes, first: nat, start: nat, excluded: ExcludedRanges,
                           bodyOffset: nat, patterns: Patterns)
    returns (content: Bytes, i: nat, offset: nat)
    requires lines == Lines(body) && first <= |lines| && OffsetIs(body, first, start) && doc.bodyOffset == bodyOffset
    requires excluded.Valid() && Gapped(excluded.ranges) && doc.excluded == excluded.added
    ensures i <= |lines| == |PlacedLines(body)|
    ensures (content, i) == Continued(doc, patterns, PlacedLines(body), first, "")
    ensures OffsetIs(body, i, offset)
  {
    hide StartOf, LineCount, Pieces, LineStarts, Lines, PlacedLines, Covers, LineEndingSizeAt, Gapped, OffsetIs;
    ghost var placed := PlacedLines(body);
    content, i, offset := "", first, start;
    while i < |lines|
      invariant first <= i <= |lines| == |placed| && OffsetIs(body, i, offset)
      invariant Continued(doc, patterns, placed, i, content) == Continued(doc, patterns, placed, first, "")
    {
      var line := lines[i];
      OffsetMoves(body, i, offset);
      if excluded.Contains(bodyOffset + offset) {
        offset := offset + |line| + LineEndingSizeAt(body, offset + |line|);
        i := i + 1;
        continue;
      }
      if patterns.callout(line).Some? {
        break;
      }
      var part := patterns.continuation(line);
      if part.None? {
        break;
      }
      content := Joined(content, part.value);
      offset := offset + |line| + LineEndingSizeAt(body, offset + |line|);
      i := i + 1;
    }
  }

  // ---------------------------------------------------------------------------------------------
  // What the results say
  // ---------------------------------------------------------------------------------------------

  /** The body is what is left of the content from `bodyOffset` on. */
  ghost predicate IsBody(doc: Document, body: Bytes) {
    doc.bodyOffset <= |doc.content| && body == doc.content[doc.bodyOffset..]
  }

  /** The bytes a span names are there in the whole document. */
  ghost predicate SpanReads(doc: Document, span: Span, text: Bytes) {
    span.offset + span.length <= |doc.content| && doc.content[span.offset..span.offset + span.length] == text
  }

  /** The line lies within one line of the document, up to its ending, which is no part of it. */
  ghost predicate WholeLine(doc: Document, line: Placed) {
    var start := doc.bodyOffset + line.start;
    var end := start + |line.text|;
    && end <= |doc.content| && '\n' !in line.text
    && (line.start == 0 || doc.content[start - 1] == '\n')
    && (end == |doc.content| || doc.content[end] == '\n' || (end + 1 < |doc.content| && doc.content[end..end + 2] == "\r\n"))
    && (end < |doc.content| && doc.content[end] == '\n' ==> line.text == "" || line.text[|line.text| - 1] != '\r')
  }

  /** The document holds the line where it says, so that any end part of it can be read there. */
  ghost predicate LineThere(doc: Document, line: Placed) {
    WholeLine(doc, line) && forall indent :: 0 <= indent <= |line.text| ==>
      SpanReads(doc, SpanAt(doc, line.start + indent, |line.text| - indent), line.text[indent..])
  }

  lemma OneLineThere(doc: Document, body: Bytes, line: Placed)
    requires IsBody(doc, body) && WholeLine(doc, line)
    requires line.start + |line.text| <= |body| && body[line.start..line.start + |line.text|] == line.text
    ensures LineThere(doc, line)
  {
    hide FromOffset, WholeLine;
    forall indent | 0 <= indent <= |line.text|
      ensures SpanReads(doc, SpanAt(doc, line.start + indent, |line.text| - indent), line.text[indent..])
    {
      SliceShift(doc.content, doc.bodyOffset, line.start, |line.text|, indent);
    }
  }

  /** What holds of a line within the body holds of it within the document. */
  lemma LineInDocument(doc: Document, body: Bytes, line: Placed)
    requires IsBody(doc, body)
    requires var end := line.start + |line.text|;
             && end <= |body| && body[line.start..end] == line.text
             && (line.start == 0 || body[line.start - 1] == '\n')
             && (forall k :: 0 <= k < |line.text| ==> line.text[k] != '\n')
             && (end == |body| || body[end..end + 1] == "\n" || (end + 2 <= |body| && body[end..end + 2] == "\r\n"))
             && EndsBeforeEnding(body, end, line.text)
    ensures WholeLine(doc, line)
  {
    var end := line.start + |line.text|;
    assert end < |body| ==> body[end..end + 1][0] == body[end] == doc.content[doc.bodyOffset + end];
    if end + 2 <= |body| {
      SliceOfDrop(doc.content, doc.bodyOffset, end, end + 2);
    }
  }

  lemma SliceOfDrop(s: Bytes, from: nat, a: nat, b: nat)
    requires from <= |s| && a <= b && from + b <= |s|
    ensures s[from..][a..b] == s[from + a..from + b]
  {
  }

  lemma BodyLinesThere(doc: Document, body: Bytes)
    requires IsBody(doc, body)
    ensures forall i :: 0 <= i < |PlacedLines(body)| ==> LineThere(doc, PlacedLines(body)[i])
  {
    hide PlacedLines, LineThere, IsBody, LineCount, Lines, WholeLine, EndsBeforeEnding;
    forall i | 0 <= i < |PlacedLines(body)| ensures LineThere(doc, PlacedLines(body)[i]) {
      PlacedIsThere(body, i);
      LineInDocument(doc, body, PlacedLines(body)[i]);
      OneLineThere(doc, body, PlacedLines(body)[i]);
    }
  }

  lemma SliceShift(content: Bytes, bodyOffset: nat, start: nat, length: nat, indent: nat)
    requires bodyOffset <= |content| && bodyOffset + start + length <= |content| && indent <= length
    ensures content[bodyOffset..][start..start + length][indent..]
         == content[bodyOffset + start + indent..bodyOffset + start + length]
  {
  }

  /** A task stands for a line: it has what the pattern captured, its span reads the line from the marker on. */
  ghost predicate TaskStands(doc: Document, patterns: Patterns, line: Placed, task: Task)
    requires PatternsOk(patterns)
  {
    && IsTask(doc, patterns, line) && WholeLine(doc, line)
    && var found := patterns.task(line.text).value;
    && task.content == found.content && task.marker == found.marker
    && SpanReads(doc, task.span, line.text[|found.indent|..])
    && task.span.offset == doc.bodyOffset + line.start + |found.indent|
    && task.span.position == FromOffset(doc.content, task.span.offset)
  }

  ghost predicate CalloutStands(doc: Document, patterns: Patterns, line: Placed, callout: Callout) {
    && IsCallout(doc, patterns, line) && WholeLine(doc, line)
    && var head := patterns.callout(line.text).value;
    && callout.kind == head.kind && (callout.foldable <==> head.fold != "")
    && (head.title == "" ==> callout.title == None) && (head.title != "" ==> callout.title == Some(head.title))
    && SpanReads(doc, callout.span, line.text)
    && callout.span.offset == doc.bodyOffset + line.start
    && callout.span.position == FromOffset(doc.content, callout.span.offset)
  }

  ghost predicate Ascending(at: seq<nat>) {
    forall j, k :: 0 <= j < k < |at| ==> at[j] < at[k]
  }

  /** The tasks stand, in order, for exactly the lines that are tasks: those numbered `at`. */
  ghost predicate TasksStandAt(doc: Document, patterns: Patterns, lines: seq<Placed>, tasks: seq<Task>, at: seq<nat>)
    requires PatternsOk(patterns)
  {
    && |at| == |tasks| && Ascending(at)
    && (forall i: nat :: i in at <==> i < |lines| && IsTask(doc, patterns, lines[i]))
    && (forall k :: 0 <= k < |at| ==> at[k] < |lines| && TaskStands(doc, patterns, lines[at[k]], tasks[k]))
  }

  ghost predicate TasksReported(doc: Document, patterns: Patterns, lines: seq<Placed>, tasks: seq<Task>)
    requires PatternsOk(patterns)
  {
    exists at: seq<nat> :: TasksStandAt(doc, patterns, lines, tasks, at)
  }

  /**
   * The callouts stand, in order, for exactly the header lines from number `n` on, with the content
   * of their continuation lines if that is asked for.
   */
  ghost predicate CalloutsStandAt(doc: Document, patterns: Patterns, full: bool, lines: seq<Placed>, n: nat,
                                  callouts: seq<Callout>, at: seq<nat>)
  {
    && |at| == |callouts| && Ascending(at)
    && (forall i: nat :: i in at <==> n <= i < |lines| && IsCallout(doc, patterns, lines[i]))
    && (forall k :: 0 <= k < |at| ==> at[k] < |lines| && CalloutStands(doc, patterns, lines[at[k]], callouts[k]))
    && (forall k :: 0 <= k < |at| ==>
          if full then TakesUp(doc, patterns, lines, at[k] + 1, callouts[k].content) else callouts[k].content == "")
  }

  /** The parts with a line feed between each two of them. */
  function JoinLines(parts: seq<Bytes>): Bytes {
    if parts == [] then "" else if |parts| == 1 then parts[0] else parts[0] + "\n" + JoinLines(parts[1..])
  }

  /** The parts from the first one that holds anything. */
  function FromFirstFull(parts: seq<Bytes>): seq<Bytes> {
    if parts == [] || parts[0] != "" then parts else FromFirstFull(parts[1..])
  }

  /**
   * From line `i` up to `next` every line that is not skipped continues the callout and heads none;
   * these are the lines numbered `at`, `parts` is what the pattern captures of them, and the line
   * `next`, if there is one, is the first to do otherwise.
   */
  ghost predicate Continues(doc: Document, patterns: Patterns, lines: seq<Placed>, i: nat, at: seq<nat>, parts: seq<Bytes>, next: nat) {
    && i <= next <= |lines| && Ascending(at) && |parts| == |at|
    && (forall j: nat :: j in at <==> i <= j < next && !Skipped(doc, lines[j]))
    && (forall k :: 0 <= k < |at| ==> at[k] < |lines| && patterns.callout(lines[at[k]].text).None?
                                      && patterns.continuation(lines[at[k]].text) == Some(parts[k]))
    && (next < |lines| ==>
          && !Skipped(doc, lines[next])
          && (patterns.callout(lines[next].text).Some? || patterns.continuation(lines[next].text).None?))
  }

  /** The content is what the continuation lines from `i` on hold, joined by line feeds, leading empty parts left out. */
  ghost predicate TakesUp(doc: Document, patterns: Patterns, lines: seq<Placed>, i: nat, content: Bytes) {
    exists at: seq<nat>, parts: seq<Bytes>, next: nat ::
      Continues(doc, patterns, lines, i, at, parts, next) && content == JoinLines(FromFirstFull(parts))
  }

  /** Adding the parts one by one to what is there already. */
  function JoinedAll(content: Bytes, parts: seq<Bytes>): Bytes
    decreases |parts|
  {
    if parts == [] then content else JoinedAll(Joined(content, parts[0]), parts[1..])
  }

  lemma {:induction false} JoinedAllIsJoin(content: Bytes, parts: seq<Bytes>)
    ensures content == "" ==> JoinedAll(content, parts) == JoinLines(FromFirstFull(parts))
    ensures content != "" ==> JoinedAll(content, parts) == JoinLines([content] + parts)
    decreases |parts|
  {
    if parts != [] {
      var more := Joined(content, parts[0]);
      JoinedAllIsJoin(more, parts[1..]);
      if content == "" {
        assert [parts[0]] + parts[1..] == parts;
      } else {
        assert ([content] + parts)[1..] == parts && ([more] + parts[1..])[1..] == parts[1..];
        assert parts[1..] != [] ==> more + "\n" + JoinLines(parts[1..]) == content + "\n" + (parts[0] + "\n" + JoinLines(parts[1..]));
      }
    }
  }

  lemma {:induction false} ContinuedTakesUp(doc: Document, patterns: Patterns, lines: seq<Placed>, i: nat, content: Bytes)
    returns (at: seq<nat>, parts: seq<Bytes>)
    requires i <= |lines|
    ensures Continues(doc, patterns, lines, i, at, parts, Continued(doc, patterns, lines, i, content).1)
    ensures Continued(doc, patterns, lines, i, content).0 == JoinedAll(content, parts)
    decreases |lines| - i
  {
    hide Skipped, Joined;
    at, parts := [], [];
    if i == |lines| {
    } else if Skipped(doc, lines[i]) {
      at, parts := ContinuedTakesUp(doc, patterns, lines, i + 1, content);
    } else if patterns.callout(lines[i].text).Some? || patterns.continuation(lines[i].text).None? {
    } else {
      var part := patterns.continuation(lines[i].text).value;
      var at', parts' := ContinuedTakesUp(doc, patterns, lines, i + 1, Joined(content, part));
      at, parts := [i] + at', [part] + parts';
    }
  }

  lemma ContentTakenUp(doc: Document, patterns: Patterns, lines: seq<Placed>, i: nat)
    requires i <= |lines|
    ensures TakesUp(doc, patterns, lines, i, Continued(doc, patterns, lines, i, "").0)
  {
    hide Continues, Continued, FromFirstFull;
    var at, parts := ContinuedTakesUp(doc, patterns, lines, i, "");
    JoinedAllIsJoin("", parts);
  }

  ghost predicate CalloutsReported(doc: Document, patterns: Patterns, full: bool, lines: seq<Placed>, callouts: seq<Callout>) {
    exists at: seq<nat> :: CalloutsStandAt(doc, patterns, full, lines, 0, callouts, at)
  }

  lemma OneTaskStands(doc: Document, patterns: Patterns, line: Placed)
    requires PatternsOk(patterns) && LineThere(doc, line) && IsTask(doc, patterns, line)
    ensures TaskStands(doc, patterns, line, TaskOf(doc, line, patterns.task(line.text).value))
  {
    hide FromOffset, SpanReads, Skipped, WholeLine;
  }

  lemma OneCalloutStands(doc: Document, patterns: Patterns, line: Placed, content: Bytes)
    requires LineThere(doc, line) && IsCallout(doc, patterns, line)
    ensures CalloutStands(doc, patterns, line, CalloutOf(doc, line, patterns.callout(line.text).value, content))
    ensures CalloutOf(doc, line, patterns.callout(line.text).value, content).content == content
  {
    hide FromOffset, SpanReads, Skipped, WholeLine;
    assert line.text[0..] == line.text;
    assert SpanReads(doc, SpanAt(doc, line.start + 0, |line.text| - 0), line.text[0..]);
  }

  /** Of lines that are there, every task is reported, and its span reads its line from the marker on. */
  lemma {:induction false} TaskSpansRead(doc: Document, patterns: Patterns, lines: seq<Placed>) returns (at: seq<nat>)
    requires PatternsOk(patterns) && forall j :: 0 <= j < |lines| ==> LineThere(doc, lines[j])
    ensures TasksStandAt(doc, patterns, lines, TasksOf(doc, patterns, lines), at)
  {
    hide LineThere, TaskOf, IsTask, TasksStandAt;
    at := [];
    if lines == [] {
      NoTasks(doc, patterns);
    } else {
      var n := |lines| - 1;
      at := TaskSpansRead(doc, patterns, lines[..n]);
      OneMoreLine(doc, patterns, lines, TasksOf(doc, patterns, lines[..n]), at);
      if IsTask(doc, patterns, lines[n]) {
        at := at + [n];
      }
    }
  }

  lemma NoTasks(doc: Document, patterns: Patterns)
    requires PatternsOk(patterns)
    ensures TasksStandAt(doc, patterns, [], TasksOf(doc, patterns, []), [])
  {
  }

  lemma OneMoreLine(doc: Document, patterns: Patterns, lines: seq<Placed>, tasks: seq<Task>, at: seq<nat>)
    requires PatternsOk(patterns) && lines != [] && LineThere(doc, lines[|lines| - 1])
    requires TasksStandAt(doc, patterns, lines[..|lines| - 1], tasks, at)
    ensures var n := |lines| - 1;
            if IsTask(doc, patterns, lines[n])
            then TasksStandAt(doc, patterns, lines, tasks + [TaskOf(doc, lines[n], patterns.task(lines[n].text).value)], at + [n])
            else TasksStandAt(doc, patterns, lines, tasks, at)
  {
    hide LineThere, TaskStands, TaskOf, IsTask;
    var n := |lines| - 1;
    if IsTask(doc, patterns, lines[n]) {
      TaskHasIndent(doc, patterns, lines[n]);
      OneTaskStands(doc, patterns, lines[n]);
      assert forall i: nat :: i in at + [n] <==> i in at || i == n;
    }
  }

  lemma TaskHasIndent(doc: Document, patterns: Patterns, line: Placed)
    requires PatternsOk(patterns) && IsTask(doc, patterns, line)
    ensures patterns.task(line.text).Some? && |patterns.task(line.text).value.indent| <= |line.text|
  {
  }

  /** A callout's continuation ends before the next header line: it takes up none. */
  lemma {:induction false} ContinuationTakesNoHeader(doc: Document, patterns: Patterns, lines: seq<Placed>, i: nat, content: Bytes)
    requires i <= |lines|
    ensures forall j :: i <= j < Continued(doc, patterns, lines, i, content).1 ==> !IsCallout(doc, patterns, lines[j])
    decreases |lines| - i
  {
    hide Skipped, Joined;
    if i == |lines| {
    } else if Skipped(doc, lines[i]) {
      ContinuationTakesNoHeader(doc, patterns, lines, i + 1, content);
    } else if patterns.callout(lines[i].text).Some? || patterns.continuation(lines[i].text).None? {
    } else {
      ContinuationTakesNoHeader(doc, patterns, lines, i + 1, Joined(content, patterns.continuation(lines[i].text).value));
    }
  }

  /** A header before callouts that are all there, and the stretch up to them, which holds no further header. */
  lemma OneMoreHeader(doc: Document, patterns: Patterns, full: bool, lines: seq<Placed>, n: nat, next: nat, content: Bytes,
                      rest: seq<Callout>, later: seq<nat>)
    requires n < next <= |lines| && IsCallout(doc, patterns, lines[n]) && patterns.callout(lines[n].text).Some? && LineThere(doc, lines[n])
    requires forall j :: n < j < next ==> !IsCallout(doc, patterns, lines[j])
    requires if full then TakesUp(doc, patterns, lines, n + 1, content) else content == ""
    requires CalloutsStandAt(doc, patterns, full, lines, next, rest, later)
    ensures CalloutsStandAt(doc, patterns, full, lines, n,
                            [CalloutOf(doc, lines[n], patterns.callout(lines[n].text).value, content)] + rest, [n] + later)
  {
    hide LineThere, CalloutStands, CalloutOf, TakesUp, IsCallout;
    OneCalloutStands(doc, patterns, lines[n], content);
    AscendingFrom(n, next, later);
    var first := CalloutOf(doc, lines[n], patterns.callout(lines[n].text).value, content);
    var at, callouts := [n] + later, [first] + rest;
    forall k | 0 <= k < |at|
      ensures at[k] < |lines| && CalloutStands(doc, patterns, lines[at[k]], callouts[k])
      ensures if full then TakesUp(doc, patterns, lines, at[k] + 1, callouts[k].content) else callouts[k].content == ""
    {
      assert k > 0 ==> at[k] == later[k - 1] && callouts[k] == rest[k - 1];
    }
    assert forall i: nat :: i in at <==> i == n || i in later;
  }

  lemma HeaderMatches(doc: Document, patterns: Patterns, line: Placed)
    requires IsCallout(doc, patterns, line)
    ensures patterns.callout(line.text).Some?
  {
  }

  lemma AscendingFrom(n: nat, next: nat, later: seq<nat>)
    requires n < next && Ascending(later) && forall i: nat :: i in later ==> next <= i
    ensures Ascending([n] + later)
  {
    assert forall k :: 0 <= k < |later| ==> later[k] in later;
  }

  lemma NoHeaderHere(doc: Document, patterns: Patterns, full: bool, lines: seq<Placed>, n: nat, rest: seq<Callout>, at: seq<nat>)
    requires n < |lines| && !IsCallout(doc, patterns, lines[n]) && CalloutsStandAt(doc, patterns, full, lines, n + 1, rest, at)
    ensures CalloutsStandAt(doc, patterns, full, lines, n, rest, at)
  {
    hide CalloutStands, TakesUp, IsCallout;
  }

  lemma NoCallouts(doc: Document, patterns: Patterns, full: bool, lines: seq<Placed>)
    ensures CalloutsStandAt(doc, patterns, full, lines, |lines|, CalloutsFrom(doc, patterns, full, lines, |lines|), [])
  {
  }

  /** Of lines that are there, every header is reported, and its callout's span reads it. */
  lemma {:induction false} CalloutSpansRead(doc: Document, patterns: Patterns, full: bool, lines: seq<Placed>, n: nat)
    returns (at: seq<nat>)
    requires n <= |lines| && forall j :: 0 <= j < |lines| ==> LineThere(doc, lines[j])
    ensures CalloutsStandAt(doc, patterns, full, lines, n, CalloutsFrom(doc, patterns, full, lines, n), at)
    decreases |lines| - n
  {
    hide LineThere, CalloutOf, IsCallout, Continued, TakesUp, CalloutsStandAt;
    at := [];
    if n == |lines| {
      NoCallouts(doc, patterns, full, lines);
    } else {
      if !IsCallout(doc, patterns, lines[n]) {
        at := CalloutSpansRead(doc, patterns, full, lines, n + 1);
        NoHeaderHere(doc, patterns, full, lines, n, CalloutsFrom(doc, patterns, full, lines, n + 1), at);
      } else {
        var (content, next) := if full then Continued(doc, patterns, lines, n + 1, "") else ("", n + 1);
        ContinuationTakesNoHeader(doc, patterns, lines, n + 1, "");
        ContentTakenUp(doc, patterns, lines, n + 1);
        var later := CalloutSpansRead(doc, patterns, full, lines, next);
        HeaderMatches(doc, patterns, lines[n]);
        OneMoreHeader(doc, patterns, full, lines, n, next, content, CalloutsFrom(doc, patterns, full, lines, next), later);
        at := [n] + later;
      }
    }
  }

  /** The whole of a body: its tasks are reported whether or not the pre-filter looked for them. */
  lemma EveryTaskReported(doc: Document, patterns: Patterns, body: Bytes)
    requires PatternsOk(patterns) && PatternsMarked(patterns) && IsBody(doc, body)
    ensures TasksReported(doc, patterns, PlacedLines(body), TasksOf(doc, patterns, PlacedLines(body)))
    ensures !HasPart(body, "[/]") && !HasPart(body, "[-]") ==> TasksOf(doc, patterns, PlacedLines(body)) == []
  {
    hide PlacedLines, LineThere, IsBody, HasPart, TaskStands, TasksOf, Skipped, Lines, LineCount;
    BodyLinesThere(doc, body);
    var lines := PlacedLines(body);
    var at := TaskSpansRead(doc, patterns, lines);
    if at != [] {
      assert at[0] in at;
      assert IsTask(doc, patterns, lines[at[0]]);
    }
    if !HasPart(body, "[/]") && !HasPart(body, "[-]") {
      NoLineHas(body, "[/]");
      NoLineHas(body, "[-]");
    }
  }

  lemma EveryCalloutReported(doc: Document, patterns: Patterns, full: bool, body: Bytes)
    requires PatternsMarked(patterns) && IsBody(doc, body)
    ensures CalloutsReported(doc, patterns, full, PlacedLines(body), CalloutsFrom(doc, patterns, full, PlacedLines(body), 0))
    ensures !HasPart(body, "[!") ==> CalloutsFrom(doc, patterns, full, PlacedLines(body), 0) == []
  {
    hide PlacedLines, LineThere, IsBody, HasPart, CalloutStands, CalloutsFrom, TakesUp, Skipped, Lines, LineCount;
    BodyLinesThere(doc, body);
    var lines := PlacedLines(body);
    var at := CalloutSpansRead(doc, patterns, full, lines, 0);
    if at != [] {
      assert at[0] in at;
      assert IsCallout(doc, patterns, lines[at[0]]);
    }
    if !HasPart(body, "[!") {
      NoLineHas(body, "[!");
    }
  }
}
