/** Lines of a text under any mix of line endings, and where each one truly starts. */
module BodyLines {
  import opened LineIndices

  /** The text cut after every newline; a last piece without one is kept, an empty one is not. */
  function Pieces(body: Bytes): seq<Bytes> {
    if body == "" then []
    else
      var n := |body| - 1;
      var before := Pieces(body[..n]);
      if before == [] || EndsLine(before[|before| - 1]) then before + [[body[n]]]
      else before[..|before| - 1] + [before[|before| - 1] + [body[n]]]
  }

  predicate EndsLine(piece: Bytes) {
    piece != "" && piece[|piece| - 1] == '\n'
  }

  /** A piece without its line ending: "\n" or "\r\n"; a "\r" with no "\n" after it stays. */
  function Strip(piece: Bytes): Bytes {
    if !EndsLine(piece) then piece
    else
      var line := piece[..|piece| - 1];
      if line != "" && line[|line| - 1] == '\r' then line[..|line| - 1] else line
  }

  /** How many bytes of line ending stand at an offset. */
  function LineEndingSizeAt(content: Bytes, offset: nat): nat {
    if offset + 1 < |content| && content[offset] == '\r' && content[offset + 1] == '\n' then 2
    else if offset < |content| && content[offset] == '\n' then 1
    else 0
  }

  function Lines(body: Bytes): (lines: seq<Bytes>)
    ensures |lines| == |Pieces(body)|
    ensures forall i :: 0 <= i < |lines| ==> lines[i] == Strip(Pieces(body)[i])
  {
    seq(|Pieces(body)|, i requires 0 <= i < |Pieces(body)| => Strip(Pieces(body)[i]))
  }

  // ---------------------------------------------------------------------------------------------
  // Where lines start
  // ---------------------------------------------------------------------------------------------

  /** Lines that hold anything: a newline at the very end starts no further line. */
  function LineCount(body: Bytes): nat {
    var starts := LineStarts(body);
    if starts[|starts| - 1] == |body| then |starts| - 1 else |starts|
  }

  function StartOf(body: Bytes, i: nat): (start: nat)
    requires i <= LineCount(body)
    ensures start <= |body|
  {
    if i < LineCount(body) then LineStarts(body)[i] else |body|
  }

  /** The last line start lies at the very end exactly if the text is empty or ends in a newline. */
  lemma LastStartAtEnd(body: Bytes)
    ensures var starts := LineStarts(body);
            starts[|starts| - 1] == |body| <==> body == "" || body[|body| - 1] == '\n'
  {
  }

  /** One more character: as many lines as the text before it has starts, and those start where they did. */
  lemma OneMore(body: Bytes)
    requires body != ""
    ensures var before := LineStarts(body[..|body| - 1]);
            && LineCount(body) == |before|
            && StartOf(body, |before|) == |body|
            && forall i :: 0 <= i < |before| ==> StartOf(body, i) == before[i]
  {
    LastStartAtEnd(body);
  }

  ghost predicate PieceIsThere(body: Bytes, i: nat)
    requires i < LineCount(body) && |Pieces(body)| == LineCount(body)
  {
    StartOf(body, i) < StartOf(body, i + 1) && Pieces(body)[i] == body[StartOf(body, i)..StartOf(body, i + 1)]
  }

  lemma StartsWithin(body: Bytes)
    ensures var starts := LineStarts(body);
            && LineCount(body) == |starts| - (if body == "" || body[|body| - 1] == '\n' then 1 else 0)
            && StartOf(body, LineCount(body)) == |body|
            && forall j :: 0 <= j < |starts| && j <= LineCount(body) ==> StartOf(body, j) == starts[j]
  {
    LastStartAtEnd(body);
  }

  lemma PiecesOfOneMore(body: Bytes)
    requires body != ""
    ensures var n, before := |body| - 1, Pieces(body[..|body| - 1]);
            Pieces(body) == if before == [] || EndsLine(before[|before| - 1]) then before + [[body[n]]]
                            else before[..|before| - 1] + [before[|before| - 1] + [body[n]]]
  {
    hide EndsLine;
  }

  /** A piece whose text before was complete stands alone; otherwise it is the last one grown. */
  lemma PieceStep(body: Bytes, i: nat)
    requires body != ""
    requires var init := body[..|body| - 1];
             && |Pieces(init)| == LineCount(init)
             && (forall j :: 0 <= j < LineCount(init) ==> PieceIsThere(init, j))
             && (init != "" ==> Pieces(init) != [] && (EndsLine(Pieces(init)[|Pieces(init)| - 1]) <==> init[|init| - 1] == '\n'))
    ensures |Pieces(body)| == LineCount(body)
    ensures i < LineCount(body) ==> PieceIsThere(body, i)
  {
    hide LineStarts, Pieces, LineCount, StartOf;
    var n := |body| - 1;
    var init := body[..n];
    var starts, before := LineStarts(init), Pieces(init);
    OneMore(body);
    StartsWithin(init);
    StartsAscend(init);
    PiecesOfOneMore(body);
    if i < |starts| - 1 {
      assert PieceIsThere(init, i);
      assert Pieces(body)[i] == before[i] == body[starts[i]..starts[i + 1]];
    } else if i == |starts| - 1 {
      if init == "" || init[n - 1] == '\n' {
        assert Pieces(body)[i] == [body[n]] == body[n..n + 1];
      } else {
        assert PieceIsThere(init, i);
        assert Pieces(body)[i] == before[i] + [body[n]] == body[starts[i]..n + 1];
      }
    }
  }

  /** The i-th piece lies between the i-th line start and the next. */
  lemma {:induction false} PiecesAt(body: Bytes)
    ensures |Pieces(body)| == LineCount(body)
    ensures forall i :: 0 <= i < LineCount(body) ==> PieceIsThere(body, i)
    ensures body != "" ==> Pieces(body) != [] && (EndsLine(Pieces(body)[|Pieces(body)| - 1]) <==> body[|body| - 1] == '\n')
  {
    if body != "" {
      PiecesAt(body[..|body| - 1]);
      PieceStep(body, 0);
      forall i | 0 <= i < LineCount(body) ensures PieceIsThere(body, i) {
        PieceStep(body, i);
      }
    }
  }

  /** A piece ends at a newline or at the end of the text. */
  lemma EndOfPiece(body: Bytes, i: nat)
    requires 0 < i <= LineCount(body)
    ensures StartOf(body, i) == |body| || (StartOf(body, i) > 0 && body[StartOf(body, i) - 1] == '\n')
  {
    if i < LineCount(body) {
      var starts := LineStarts(body);
      StartsAscend(body);
      assert starts[i] in starts;
      StartsAre(body, starts[i]);
      assert starts[0] < starts[i];
    }
  }

  /** What a running offset adds for a line and its ending leads exactly to the next line's start. */
  lemma RunningOffset(body: Bytes, i: nat)
    requires i < LineCount(body) && |Pieces(body)| == LineCount(body)
    ensures var line := Strip(Pieces(body)[i]);
            StartOf(body, i) + |line| + LineEndingSizeAt(body, StartOf(body, i) + |line|) == StartOf(body, i + 1)
  {
    hide LineStarts, Pieces, LineCount, StartOf;
    PiecesAt(body);
    assert PieceIsThere(body, i);
    EndOfPiece(body, i + 1);
    var start, end := StartOf(body, i), StartOf(body, i + 1);
    var piece := Pieces(body)[i];
    assert |piece| == end - start && piece[|piece| - 1] == body[end - 1];
    if EndsLine(piece) && |piece| > 1 {
      assert piece[|piece| - 2] == body[end - 2];
    }
  }

  // ---------------------------------------------------------------------------------------------
  // Lines with their places
  // ---------------------------------------------------------------------------------------------

  datatype Placed = Placed(start: nat, text: Bytes)

  /** Every line with its true byte start. */
  ghost function PlacedLines(body: Bytes): (placed: seq<Placed>)
    ensures |placed| == |Lines(body)| == LineCount(body)
    ensures forall i :: 0 <= i < |placed| ==> placed[i] == Placed(StartOf(body, i), Lines(body)[i])
  {
    PiecesAt(body);
    seq(|Lines(body)|, i requires 0 <= i < |Lines(body)| => Placed(StartOf(body, i), Lines(body)[i]))
  }

  /** Stripping takes off a line ending and nothing else. */
  lemma StripTakesEnding(piece: Bytes)
    requires forall k :: 0 <= k < |piece| - 1 ==> piece[k] != '\n'
    ensures piece == Strip(piece) + (if !EndsLine(piece) then "" else if |Strip(piece)| + 1 == |piece| then "\n" else "\r\n")
    ensures forall k :: 0 <= k < |Strip(piece)| ==> Strip(piece)[k] != '\n'
    ensures |Strip(piece)| < |piece| && piece[|Strip(piece)|] == '\n' ==> Strip(piece) == "" || Strip(piece)[|Strip(piece)| - 1] != '\r'
  {
  }

  lemma PieceHasOneNewline(body: Bytes, i: nat)
    requires i < LineCount(body) && |Pieces(body)| == LineCount(body) && PieceIsThere(body, i)
    ensures forall k :: 0 <= k < |Pieces(body)[i]| - 1 ==> Pieces(body)[i][k] != '\n'
  {
    hide LineStarts, Pieces, LineCount, StartOf;
    forall k | 0 <= k < |Pieces(body)[i]| - 1 ensures Pieces(body)[i][k] != '\n' {
      NoStartWithin(body, i, StartOf(body, i) + k);
    }
  }

  lemma StartFollowsNewline(body: Bytes, i: nat)
    requires i < LineCount(body)
    ensures StartOf(body, i) == 0 || body[StartOf(body, i) - 1] == '\n'
  {
    StartsAre(body, StartOf(body, i));
    assert LineStarts(body)[i] in LineStarts(body);
  }

  /** No part of a line ending is on the line: where a newline follows, the line does not end in "\r". */
  ghost predicate EndsBeforeEnding(body: Bytes, end: nat, line: Bytes) {
    end < |body| && body[end] == '\n' ==> line == "" || line[|line| - 1] != '\r'
  }

  /**
   * A placed line stands in the text where it says: at the text's start or after a newline, free of
   * newlines itself, up to a line ending or the end of the text.
   */
  lemma PlacedIsThere(body: Bytes, i: nat)
    requires i < |PlacedLines(body)|
    ensures var line := PlacedLines(body)[i];
            var end := line.start + |line.text|;
            && end <= |body| && body[line.start..end] == line.text
            && (line.start == 0 || body[line.start - 1] == '\n')
            && (forall k :: 0 <= k < |line.text| ==> line.text[k] != '\n')
            && (end == |body| || body[end..end + 1] == "\n" || (end + 2 <= |body| && body[end..end + 2] == "\r\n"))
            && EndsBeforeEnding(body, end, line.text)
  {
    hide LineStarts, Pieces, LineCount, StartOf, Strip;
    PiecesAt(body);
    assert PieceIsThere(body, i);
    PieceHasOneNewline(body, i);
    StartFollowsNewline(body, i);
    EndOfPiece(body, i + 1);
    var piece, start, next := Pieces(body)[i], StartOf(body, i), StartOf(body, i + 1);
    StripPlaced(body, start, next, piece);
  }

  /** What stripping leaves of a stretch of the body, and what follows it there. */
  lemma StripPlaced(body: Bytes, start: nat, next: nat, piece: Bytes)
    requires start <= next <= |body| && piece == body[start..next]
    requires forall k :: 0 <= k < |piece| - 1 ==> piece[k] != '\n'
    requires start < next && (next == |body| || body[next - 1] == '\n')
    ensures var line := Strip(piece);
            var end := start + |line|;
            && end <= |body| && body[start..end] == line && (forall k :: 0 <= k < |line| ==> line[k] != '\n')
            && (end == |body| || body[end..end + 1] == "\n" || (end + 2 <= |body| && body[end..end + 2] == "\r\n"))
            && EndsBeforeEnding(body, end, line)
  {
    hide Strip;
    StripTakesEnding(piece);
    var line := Strip(piece);
    SlicesOfSlice(body, start, next, |line|);
    assert |line| < |piece| ==> piece[|line|] == body[start + |line|];
    assert piece[|piece| - 1] == body[next - 1];
  }

  lemma SlicesOfSlice(s: Bytes, from: nat, to: nat, n: nat)
    requires from <= to <= |s| && n <= to - from
    ensures s[from..to][..n] == s[from..from + n] && s[from..to][n..] == s[from + n..to]
  {
  }

  /** Only the last byte of a piece can be a newline. */
  lemma NoStartWithin(body: Bytes, i: nat, p: nat)
    requires i < LineCount(body) && StartOf(body, i) <= p && p + 1 < StartOf(body, i + 1)
    ensures body[p] != '\n'
  {
    var starts := LineStarts(body);
    StartsAscend(body);
    StartsAre(body, p + 1);
    forall k | 0 <= k < |starts| ensures starts[k] != p + 1 {
      if k <= i {
        assert starts[k] <= starts[i];
      } else if i + 1 < |starts| {
        assert starts[i + 1] <= starts[k];
      }
    }
  }
}
