/** Line and column from a byte offset: the indexed lookup against counting from the start. */
module LineIndices {
  import opened Wrappers

  /** Text as its bytes, one element each; a newline is one byte and part of no other character. */
  type Bytes = string

  /** Ascending numbers, as line starts and range starts are kept. */
  ghost predicate Ascending(s: seq<nat>) {
    forall i, j :: 0 <= i <= j < |s| ==> s[i] <= s[j]
  }

  /** How many of the ascending numbers are at most `x`, by bisection between `lo` and `hi`. */
  function PartitionPoint(s: seq<nat>, x: nat, lo: nat, hi: nat): (i: nat)
    requires lo <= hi <= |s| && Ascending(s)
    requires (forall j :: 0 <= j < lo ==> s[j] <= x) && (forall j :: hi <= j < |s| ==> s[j] > x)
    ensures i <= |s|
    ensures (forall j :: 0 <= j < i ==> s[j] <= x) && (forall j :: i <= j < |s| ==> s[j] > x)
    decreases hi - lo
  {
    if lo == hi then lo
    else
      var mid := lo + (hi - lo) / 2;
      if s[mid] <= x then PartitionPoint(s, x, mid + 1, hi) else PartitionPoint(s, x, lo, mid)
  }

  lemma PointUnique(s: seq<nat>, x: nat, i: nat, j: nat)
    requires i <= |s| && (forall k :: 0 <= k < i ==> s[k] <= x) && (forall k :: i <= k < |s| ==> s[k] > x)
    requires j <= |s| && (forall k :: 0 <= k < j ==> s[k] <= x) && (forall k :: j <= k < |s| ==> s[k] > x)
    ensures i == j
  {
    var atI := if i < |s| then s[i] else 0;
    var atJ := if j < |s| then s[j] else 0;
  }

  datatype Position = Position(line: nat, column: nat)

  // ---------------------------------------------------------------------------------------------
  // Counting from the start
  // ---------------------------------------------------------------------------------------------

  function CountNewlines(s: Bytes): nat {
    if s == "" then 0 else CountNewlines(s[..|s| - 1]) + if s[|s| - 1] == '\n' then 1 else 0
  }

  function LastNewline(s: Bytes): (p: Option<nat>)
    ensures p.Some? ==> p.value < |s| && s[p.value] == '\n' && forall j :: p.value < j < |s| ==> s[j] != '\n'
    ensures p.None? ==> forall j :: 0 <= j < |s| ==> s[j] != '\n'
  {
    if s == "" then None
    else if s[|s| - 1] == '\n' then Some(|s| - 1)
    else LastNewline(s[..|s| - 1])
  }

  /** Line and column by scanning what lies before the offset; past the end, the column runs on. */
  function FromOffset(content: Bytes, offset: nat): Position {
    var before := content[..if offset <= |content| then offset else |content|];
    match LastNewline(before)
    case Some(pos) => Position(CountNewlines(before) + 1, offset - pos)
    case None => Position(CountNewlines(before) + 1, offset + 1)
  }

  // ---------------------------------------------------------------------------------------------
  // The index
  // ---------------------------------------------------------------------------------------------

  /** Where each line starts: at 0, and after every newline. */
  function LineStarts(content: Bytes): (starts: seq<nat>)
    ensures starts != [] && starts[0] == 0
    ensures |starts| == CountNewlines(content) + 1
    ensures forall i :: 0 <= i < |starts| ==> starts[i] <= |content|
  {
    if content == "" then [0]
    else
      var n := |content| - 1;
      if content[n] == '\n' then LineStarts(content[..n]) + [n + 1] else LineStarts(content[..n])
  }

  lemma {:induction false} StartsAscend(content: Bytes)
    ensures Ascending(LineStarts(content))
    ensures forall i, j :: 0 <= i < j < |LineStarts(content)| ==> LineStarts(content)[i] < LineStarts(content)[j]
  {
    if content != "" {
      StartsAscend(content[..|content| - 1]);
    }
  }

  /** A position starts a line exactly if it is 0 or follows a newline. */
  lemma {:induction false} StartsAre(content: Bytes, p: nat)
    ensures p in LineStarts(content) <==> p == 0 || (p <= |content| && content[p - 1] == '\n')
  {
    if content != "" {
      StartsAre(content[..|content| - 1], p);
    }
  }

  datatype LineIndex = LineIndex(lineStarts: seq<nat>) {

    ghost predicate Of(content: Bytes) {
      lineStarts == LineStarts(content)
    }

    function LineCol(offset: nat): Position
      requires Ascending(lineStarts) && lineStarts != [] && lineStarts[0] == 0
    {
      var lineIdx := PartitionPoint(lineStarts, offset, 0, |lineStarts|);
      var line := if lineIdx > 1 then lineIdx else 1;
      var lineStart := lineStarts[if lineIdx > 0 then lineIdx - 1 else 0];
      assert lineIdx > 0;
      Position(line, offset - lineStart + 1)
    }

    function LineStart(line: nat): Option<nat> {
      if line == 0 || line > |lineStarts| then None else Some(lineStarts[line - 1])
    }
  }

  /** Build the index in one pass. */
  method NewLineIndex(content: Bytes) returns (index: LineIndex)
    ensures index.Of(content)
  {
    var starts: seq<nat> := [0];
    var i := 0;
    while i < |content|
      invariant i <= |content|
      invariant starts == LineStarts(content[..i])
    {
      assert content[..i + 1][..i] == content[..i];
      if content[i] == '\n' {
        starts := starts + [i + 1];
      }
      i := i + 1;
    }
    assert content[..i] == content;
    index := LineIndex(starts);
  }

  // ---------------------------------------------------------------------------------------------
  // Agreement
  // ---------------------------------------------------------------------------------------------

  /** The starts of a prefix are the starts of the whole that the prefix reaches. */
  lemma {:induction false} StartsOfPrefix(content: Bytes, n: nat)
    requires n <= |content|
    ensures LineStarts(content[..n]) <= LineStarts(content)
    ensures forall i :: |LineStarts(content[..n])| <= i < |LineStarts(content)| ==> LineStarts(content)[i] > n
    decreases |content|
  {
    if n < |content| {
      var m := |content| - 1;
      assert content[..m][..n] == content[..n];
      StartsOfPrefix(content[..m], n);
    } else {
      assert content[..n] == content;
    }
  }

  /** The last line start of a text is just after its last newline. */
  lemma {:induction false} LastStart(s: Bytes)
    ensures var starts := LineStarts(s);
            starts[|starts| - 1] == if LastNewline(s).None? then 0 else LastNewline(s).value + 1
  {
    if s != "" {
      LastStart(s[..|s| - 1]);
    }
  }

  /** The lookup reaches exactly the line starts of what lies before the offset. */
  lemma ReachedStarts(content: Bytes, offset: nat, n: nat)
    requires n == if offset <= |content| then offset else |content|
    ensures Ascending(LineStarts(content))
    ensures var starts, reached := LineStarts(content), LineStarts(content[..n]);
            && PartitionPoint(starts, offset, 0, |starts|) == |reached|
            && starts[|reached| - 1] == reached[|reached| - 1]
  {
    hide LineStarts, CountNewlines;
    var starts, reached := LineStarts(content), LineStarts(content[..n]);
    StartsAscend(content);
    StartsOfPrefix(content, n);
    forall j | 0 <= j < |starts| ensures starts[j] <= offset <==> j < |reached| {
      assert j < |reached| ==> starts[j] == reached[j];
    }
    PointUnique(starts, offset, PartitionPoint(starts, offset, 0, |starts|), |reached|);
  }

  /** At every offset, in the text or past its end, the lookup gives what counting gives. */
  lemma LookupAgrees(content: Bytes, offset: nat)
    ensures Ascending(LineStarts(content))
    ensures LineIndex(LineStarts(content)).LineCol(offset) == FromOffset(content, offset)
  {
    hide LineStarts, LastNewline, CountNewlines, PartitionPoint, Ascending;
    var n := if offset <= |content| then offset else |content|;
    ReachedStarts(content, offset, n);
    LastStart(content[..n]);
  }

  /** Line and column lead back to the offset through the start of the line. */
  lemma LookupInverts(content: Bytes, offset: nat)
    ensures Ascending(LineStarts(content))
    ensures var index := LineIndex(LineStarts(content));
            var at := index.LineCol(offset);
            && at.column >= 1
            && index.LineStart(at.line).Some?
            && index.LineStart(at.line).value + (at.column - 1) == offset
  {
    hide LineStarts;
    StartsAscend(content);
  }

  /** Every line's start is at column 1 of that line, and there are as many lines as newlines plus one. */
  lemma LineStartInverts(content: Bytes, line: nat)
    ensures Ascending(LineStarts(content))
    ensures var index := LineIndex(LineStarts(content));
            match index.LineStart(line)
            case None => line == 0 || line > CountNewlines(content) + 1
            case Some(start) => index.LineCol(start) == Position(line, 1)
  {
    hide LineStarts;
    StartsAscend(content);
    var starts := LineStarts(content);
    if 0 < line <= |starts| {
      var k := PartitionPoint(starts, starts[line - 1], 0, |starts|);
      PointUnique(starts, starts[line - 1], k, line);
    }
  }
}
