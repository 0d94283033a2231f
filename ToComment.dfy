/** `toCommentBlock`: turns text into a `/** ... */` block comment, one ` * ` line per line of text. */
module ToComment {
  import opened Strings

  /** The comment for text without a newline. */
  function SingleLine(text: string): string {
    "/**\n * " + text + "\n */"
  }

  /** The comment line for one line of text: a bare star for an empty line. */
  function LineText(line: string): string {
    if |line| <= 0 then " *\n" else " * " + line + "\n"
  }

  /** The comment lines for `lines`, in order. */
  function Lines(lines: seq<string>): string {
    if |lines| == 0 then "" else LineText(lines[0]) + Lines(lines[1..])
  }

  /** How the code closes the comment with the rest of the text from the last newline on. */
  function LastPiece(lastLine: string): string {
    if lastLine == "\n" then " *\n */" else " * " + lastLine + "\n */"
  }

  /**
   * The comment the code builds, stated on the pieces of `text.split("\n")`:
   * the first piece is never used, each middle piece becomes a comment line,
   * and the last piece is written after its newline.
   */
  function CommentOf(text: string): (r: string)
  {
    var parts := SplitOn(text, '\n');
    if |parts| == 1 then SingleLine(text) else MultiLine(parts)
  }

  /** The comment for the pieces of a text with at least one newline. */
  function MultiLine(parts: seq<string>): string
    requires |parts| >= 2
  {
    "/**\n" + Lines(parts[1..|parts| - 1]) + LastPiece("\n" + parts[|parts| - 1])
  }

  /** The loop of `toCommentBlock`, walking from one newline to the next. */
  method ToCommentBlock(text: string) returns (comment: string)
    ensures comment == CommentOf(text)
  {
    var newLineIndex := IndexOfChar(text, '\n', 0);
    if newLineIndex < 0 {
      NoNewline(text);
      return SingleLine(text);
    }
    ghost var parts := FirstNewline(text, newLineIndex);
    comment := "/**\n";
    ghost var k := 0;
    StartWalk(text, parts, newLineIndex);
    var nextNewLineIndex := IndexOfChar(text, '\n', newLineIndex + 1);
    while nextNewLineIndex >= 0
      invariant Walked(text, parts, k, newLineIndex, comment)
      invariant nextNewLineIndex == IndexOfChar(text, '\n', newLineIndex + 1)
      decreases |text| - newLineIndex
    {
      var startLineIndex := newLineIndex + 1;
      Advance(text, parts, k, newLineIndex, nextNewLineIndex, comment);
      comment := AddLine(comment, text, startLineIndex, nextNewLineIndex);
      newLineIndex := nextNewLineIndex;
      k := k + 1;
      nextNewLineIndex := IndexOfChar(text, '\n', nextNewLineIndex + 1);
    }
    var lastLine := text[newLineIndex..];
    Finish(text, parts, k, newLineIndex, comment);
    comment := CloseComment(comment, lastLine);
  }

  /**
   * The state of the loop at the newline at `i`: the pieces after it are
   * the pieces from the `k`-th on, and the comment holds the lines of the
   * pieces before.
   */
  ghost predicate Walked(text: string, parts: seq<string>, k: int, i: int, comment: string) {
    0 <= i < |text| && text[i] == '\n' && 0 <= k < |parts|
    && SplitOn(text[i + 1..], '\n') == parts[k..]
    && comment == "/**\n" + Lines(parts[..k])
  }

  /** The loop body's append: a bare star for an empty line, else the text between the two newlines. */
  method AddLine(comment: string, text: string, startLineIndex: nat, nextNewLineIndex: nat) returns (extended: string)
    requires startLineIndex <= nextNewLineIndex <= |text|
    ensures extended == comment + LineText(text[startLineIndex..nextNewLineIndex])
  {
    var lineLength := nextNewLineIndex - startLineIndex;
    if lineLength <= 0 {
      extended := comment + " *\n";
    } else {
      var line := text[startLineIndex..nextNewLineIndex];
      extended := comment + " * " + line + "\n";
    }
  }

  /** The closing append: a bare star for a lone newline, else the rest of the text, then the end of the comment. */
  method CloseComment(comment: string, lastLine: string) returns (closed: string)
    ensures closed == comment + LastPiece(lastLine)
  {
    if lastLine == "\n" {
      closed := comment + " *\n */";
    } else {
      closed := comment + " * " + lastLine + "\n */";
    }
  }

  /** Before the loop: nothing is written after the opening line yet. */
  lemma StartWalk(text: string, parts: seq<string>, i: int)
    requires 0 <= i < |text| && text[i] == '\n' && parts == SplitOn(text[i + 1..], '\n')
    ensures Walked(text, parts, 0, i, "/**\n")
  {
    assert parts[..0] == [];
  }

  /** One pass of the loop: the text up to the next newline is the next piece, appended as a comment line. */
  lemma Advance(text: string, parts: seq<string>, k: nat, i: nat, j: int, before: string)
    requires Walked(text, parts, k, i, before)
    requires j == IndexOfChar(text, '\n', i + 1) && j >= 0
    ensures i < j < |text|
    ensures Walked(text, parts, k + 1, j, before + LineText(text[i + 1..j]))
  {
    assert i < j < |text| && text[j] == '\n' && forall m :: i < m < j ==> text[m] != '\n';
    NextLine(text, i, j);
    var line := text[i + 1..j];
    DropOne(parts, k, line, SplitOn(text[j + 1..], '\n'));
    ExtendLines(parts, k, before);
  }

  /** After the loop: the rest of the text from the last newline closes the comment. */
  lemma Finish(text: string, parts: seq<string>, k: nat, i: nat, before: string)
    requires |parts| >= 1
    requires CommentOf(text) == "/**\n" + Lines(parts[..|parts| - 1]) + LastPiece("\n" + parts[|parts| - 1])
    requires Walked(text, parts, k, i, before) && IndexOfChar(text, '\n', i + 1) < 0
    ensures i < |text| && before + LastPiece(text[i..]) == CommentOf(text)
  {
    LastNewline(text, i);
    var rest := text[i + 1..];
    assert parts[k..] == [rest];
    assert k == |parts| - 1;
    assert parts[k] == rest;
    assert "\n" + parts[|parts| - 1] == text[i..];
  }

  /** Text without a newline is a single piece. */
  lemma NoNewline(text: string)
    requires IndexOfChar(text, '\n', 0) < 0
    ensures CommentOf(text) == SingleLine(text)
  {
    NoSeparatorSplit(text, '\n');
  }

  /** At the first newline: the comment is fixed by the pieces after it. */
  lemma FirstNewline(text: string, i: int) returns (parts: seq<string>)
    requires i == IndexOfChar(text, '\n', 0) && i >= 0
    ensures i < |text| && text[i] == '\n'
    ensures parts == SplitOn(text[i + 1..], '\n')
    ensures CommentOf(text) == "/**\n" + Lines(parts[..|parts| - 1]) + LastPiece("\n" + parts[|parts| - 1])
  {
    parts := SplitOn(text[i + 1..], '\n');
    assert text == text[..i] + "\n" + text[i + 1..];
    CommentAfterFirst(text[..i], text[i + 1..]);
    MultiLineTail(text[..i], parts);
  }

  /** After the last newline: the rest of the text is the last piece. */
  lemma LastNewline(text: string, i: nat)
    requires i < |text| && text[i] == '\n' && IndexOfChar(text, '\n', i + 1) < 0
    ensures SplitOn(text[i + 1..], '\n') == [text[i + 1..]]
    ensures text[i..] == "\n" + text[i + 1..]
  {
    var rest := text[i + 1..];
    assert forall j :: 0 <= j < |rest| ==> rest[j] == text[i + 1 + j];
    NoSeparatorSplit(rest, '\n');
  }

  lemma DropOne(parts: seq<string>, k: nat, line: string, rest: seq<string>)
    requires k < |parts| && parts[k..] == [line] + rest
    ensures parts[k] == line && parts[k + 1..] == rest
  {
    assert parts[k] == parts[k..][0];
    assert parts[k + 1..] == parts[k..][1..];
  }

  lemma ExtendLines(parts: seq<string>, k: nat, before: string)
    requires k < |parts| && before == "/**\n" + Lines(parts[..k])
    ensures before + LineText(parts[k]) == "/**\n" + Lines(parts[..k + 1])
  {
    assert Lines(parts[..k + 1]) == Lines(parts[..k]) + LineText(parts[k]) by {
      assert parts[..k + 1] == parts[..k] + [parts[k]];
      LinesAppend(parts[..k], [parts[k]]);
      LinesOne(parts[k]);
    }
    AppendAssoc("/**\n", Lines(parts[..k]), LineText(parts[k]));
  }

  /** The text between the newline at `i` and the next one at `j` is the next piece of the split. */
  lemma NextLine(text: string, i: nat, j: int)
    requires i < j < |text| && text[i] == '\n' && text[j] == '\n'
    requires forall m :: i < m < j ==> text[m] != '\n'
    ensures SplitOn(text[i + 1..], '\n') == [text[i + 1..j]] + SplitOn(text[j + 1..], '\n')
  {
    var t := text[i + 1..];
    var n := j - i - 1;
    assert n < |t| && t[n] == '\n' by {
      assert t[n] == text[j];
    }
    assert forall m :: 0 <= m < n ==> t[m] != '\n' by {
      forall m | 0 <= m < n
        ensures t[m] != '\n'
      {
        assert t[m] == text[i + 1 + m];
      }
    }
    FirstSegmentSplit(t, n, '\n');
    assert t[..n] == text[i + 1..j];
    assert t[n + 1..] == text[j + 1..];
  }

  // ---------------------------------------------------------------------------
  // Properties.

  lemma {:induction false} LinesAppend(lines: seq<string>, more: seq<string>)
    ensures Lines(lines + more) == Lines(lines) + Lines(more)
    decreases |lines|
  {
    if |lines| == 0 {
      assert lines + more == more;
    } else {
      var tail := lines[1..] + more;
      assert (lines + more)[1..] == tail;
      assert (lines + more)[0] == lines[0];
      LinesAppend(lines[1..], more);
      assert Lines(tail) == Lines(lines[1..]) + Lines(more);
      assert Lines(lines + more) == LineText(lines[0]) + Lines(tail);
    }
  }

  lemma LinesOne(line: string)
    ensures Lines([line]) == LineText(line)
  {
    assert [line][1..] == [];
  }

  /** Text split into lines without newlines: the comment is fixed by the pieces after the first. */
  lemma CommentOfLines(first: string, middle: seq<string>, last: string)
    requires '\n' !in first && '\n' !in last
    requires forall i :: 0 <= i < |middle| ==> '\n' !in middle[i]
    ensures CommentOf(Join([first] + middle + [last], "\n")) == "/**\n" + Lines(middle) + LastPiece("\n" + last)
  {
    var pieces := [first] + middle + [last];
    NoNewlinePieces(first, middle, last);
    SplitOnJoin(pieces, '\n');
    assert pieces[1..|pieces| - 1] == middle;
  }

  lemma NoNewlinePieces(first: string, middle: seq<string>, last: string)
    requires '\n' !in first && '\n' !in last
    requires forall i :: 0 <= i < |middle| ==> '\n' !in middle[i]
    ensures forall i :: 0 <= i < |[first] + middle + [last]| ==> '\n' !in ([first] + middle + [last])[i]
  {
    var pieces := [first] + middle + [last];
    forall i | 0 <= i < |pieces| ensures '\n' !in pieces[i] {
      if 0 < i < |pieces| - 1 {
        assert pieces[i] == middle[i - 1];
      }
    }
  }

  /** After the first newline, the comment depends only on the pieces of the rest of the text. */
  lemma CommentAfterFirst(first: string, rest: string)
    requires '\n' !in first
    ensures CommentOf(first + "\n" + rest) == MultiLine([first] + SplitOn(rest, '\n'))
  {
    var text := first + "\n" + rest;
    assert text == first + ['\n'] + rest;
    SplitOnConcat(first, rest, '\n');
    NoSeparatorSplit(first, '\n');
    assert SplitOn(text, '\n') == [first] + SplitOn(rest, '\n');
  }

  lemma MultiLineTail(first: string, r: seq<string>)
    requires |r| >= 1
    ensures MultiLine([first] + r) == "/**\n" + Lines(r[..|r| - 1]) + LastPiece("\n" + r[|r| - 1])
  {
    var parts := [first] + r;
    assert parts[1..|parts| - 1] == r[..|r| - 1];
    assert parts[|parts| - 1] == r[|r| - 1];
  }

  /** Every comment the code builds opens with "/**" on its own line and ends with " */". */
  lemma CommentFrame(text: string)
    ensures StartsWith(CommentOf(text), "/**\n") && EndsWith(CommentOf(text), " */")
  {
    var parts := SplitOn(text, '\n');
    if |parts| == 1 {
      SingleLineFrame(text);
    } else {
      MultiLineFrame(parts);
    }
  }

  lemma SingleLineFrame(text: string)
    ensures StartsWith(SingleLine(text), "/**\n") && EndsWith(SingleLine(text), " */")
  {
    var line := " * " + text + "\n";
    assert SingleLine(text) == "/**\n" + line + " */" by {
      assert "/**\n * " == "/**\n" + " * ";
      assert "\n */" == "\n" + " */";
      AppendAssoc("/**\n", " * ", text);
      AppendAssoc("/**\n" + " * " + text, "\n", " */");
      AppendAssoc("/**\n", " * " + text, "\n");
    }
    Framed("/**\n", line, " */");
  }

  lemma MultiLineFrame(parts: seq<string>)
    requires |parts| >= 2
    ensures StartsWith(MultiLine(parts), "/**\n") && EndsWith(MultiLine(parts), " */")
  {
    var middle := Lines(parts[1..|parts| - 1]);
    var close := LastPieceEnds("\n" + parts[|parts| - 1]);
    assert MultiLine(parts) == "/**\n" + (middle + close) + " */" by {
      AppendAssoc("/**\n" + middle, close, " */");
      AppendAssoc("/**\n", middle, close);
    }
    Framed("/**\n", middle + close, " */");
  }

  // Both ways of closing the comment end with the closing star and slash.
  lemma LastPieceEnds(lastLine: string) returns (close: string)
    ensures LastPiece(lastLine) == close + " */"
  {
    if lastLine == "\n" {
      close := " *\n";
      assert " *\n */" == close + " */";
    } else {
      close := " * " + lastLine + "\n";
      assert "\n */" == "\n" + " */";
      AppendAssoc(" * " + lastLine, "\n", " */");
    }
  }

  /**
   * With a newline in the text, the text before the first newline never
   * reaches the comment: any other first line gives the same result.
   */
  lemma FirstLineIgnored(x: string, y: string, rest: string)
    requires '\n' !in x && '\n' !in y
    ensures CommentOf(x + "\n" + rest) == CommentOf(y + "\n" + rest)
  {
    var r := SplitOn(rest, '\n');
    var c := "/**\n" + Lines(r[..|r| - 1]) + LastPiece("\n" + r[|r| - 1]);
    assert CommentOf(x + "\n" + rest) == c by {
      CommentAfterFirst(x, rest);
      MultiLineTail(x, r);
    }
    assert CommentOf(y + "\n" + rest) == c by {
      CommentAfterFirst(y, rest);
      MultiLineTail(y, r);
    }
  }

  /**
   * Two lines "x\ny" give a blank-looking first comment line followed by the
   * raw newline and `y`: for "First Line\nSecond Line" the result is
   * "/**\n * \nSecond Line\n */", not the two-line comment the documentation shows.
   */
  lemma TwoLinesAsWritten(x: string, y: string)
    requires '\n' !in x && '\n' !in y && y != ""
    ensures CommentOf(x + "\n" + y) == "/**\n" + " * " + "\n" + y + "\n */"
  {
    TwoPieces(x, y);
    LastOfTwo(x, y);
    LastPieceText(y);
  }

  lemma TwoPieces(x: string, y: string)
    requires '\n' !in x && '\n' !in y
    ensures CommentOf(x + "\n" + y) == MultiLine([x] + [y])
  {
    CommentAfterFirst(x, y);
    NoSeparatorSplit(y, '\n');
  }

  lemma LastOfTwo(x: string, y: string)
    ensures MultiLine([x] + [y]) == "/**\n" + LastPiece("\n" + y)
  {
    MultiLineTail(x, [y]);
    assert [y][..0] == [];
  }

  lemma LastPieceText(y: string)
    requires y != ""
    ensures "/**\n" + LastPiece("\n" + y) == "/**\n" + " * " + "\n" + y + "\n */"
  {
    assert |"\n" + y| > 1;
    assert LastPiece("\n" + y) == " * " + ("\n" + y) + "\n */";
  }

  // ---------------------------------------------------------------------------
  // The comment the documentation describes: every line of the text, in order.

  function IntendedCommentBlock(text: string): (r: string)
  {
    "/**\n" + Lines(SplitOn(text, '\n')) + " */"
  }

  /** Every line of the text becomes one comment line, in order. */
  lemma IntendedListsEveryLine(lines: seq<string>)
    requires |lines| >= 1
    requires forall i :: 0 <= i < |lines| ==> '\n' !in lines[i]
    ensures IntendedCommentBlock(Join(lines, "\n")) == "/**\n" + Lines(lines) + " */"
  {
    SplitOnJoin(lines, '\n');
  }

  /** Two lines give two comment lines, the first one included. */
  lemma IntendedTwoLines(first: string, second: string)
    requires '\n' !in first && '\n' !in second && first != "" && second != ""
    ensures IntendedCommentBlock(first + "\n" + second) == "/**\n" + LineText(first) + LineText(second) + " */"
  {
    var lines := [first, second];
    assert Join(lines, "\n") == first + "\n" + second by {
      assert lines[1..] == [second];
    }
    IntendedListsEveryLine(lines);
    assert Lines(lines) == LineText(first) + LineText(second) by {
      assert lines[1..] == [second] && lines[1..][1..] == [];
      assert Lines(lines[1..]) == LineText(second) + Lines([]);
      assert LineText(second) + "" == LineText(second);
    }
  }

  /**
   * The example of the documentation: "First Line\nSecond Line" becomes a
   * comment listing both lines.
   */
  lemma IntendedDocumentedExample(text: string, comment: string)
    requires text == "First Line\nSecond Line"
    requires comment == "/**\n * First Line\n * Second Line\n */"
    ensures IntendedCommentBlock(text) == comment
  {
    ExampleText();
    IntendedTwoLines("First Line", "Second Line");
    ExampleComment();
  }

  lemma ExampleText()
    ensures "First Line" + "\n" + "Second Line" == "First Line\nSecond Line"
  {
  }

  lemma ExampleComment()
    ensures "/**\n" + LineText("First Line") + LineText("Second Line") + " */"
      == "/**\n * First Line\n * Second Line\n */"
  {
    ExampleFirstLine();
    ExampleSecondLine();
    ExampleLayout();
  }

  lemma ExampleFirstLine()
    ensures LineText("First Line") == " * First Line\n"
  {
  }

  lemma ExampleSecondLine()
    ensures LineText("Second Line") == " * Second Line\n"
  {
  }

  lemma ExampleLayout()
    ensures "/**\n" + " * First Line\n" + " * Second Line\n" + " */" == "/**\n * First Line\n * Second Line\n */"
  {
  }

  /** On non-empty text without a newline the intended comment is what the code builds. */
  lemma IntendedAgreesOnOneLine(text: string)
    requires '\n' !in text && text != ""
    ensures IntendedCommentBlock(text) == CommentOf(text)
  {
    NoSeparatorSplit(text, '\n');
    assert Lines([text]) == Lines([]) + LineText(text);
  }
}
