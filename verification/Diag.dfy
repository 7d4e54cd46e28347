/**
 Source spans in diag.go: the line index, the offset lookup, and the carets drawn under a
 label. Colour is off; a character stands for one byte.
 */
module Diag {
  import opened Decimal
  import opened Text

  datatype Label = Label(start: int, len: int, msg: string)

  // ---- the line index ------------------------------------------------------------------

  // The offset at which line i starts.
  function StartOf(lines: seq<string>, i: nat): nat
    requires i <= |lines|
    decreases i
  {
    if i == 0 then 0 else |lines[0]| + 1 + StartOf(lines[1..], i - 1)
  }

  lemma {:induction false} NextStart(lines: seq<string>, i: nat)
    requires i < |lines|
    ensures StartOf(lines, i + 1) == StartOf(lines, i) + |lines[i]| + 1
    decreases i
  {
    if i > 0 {
      NextStart(lines[1..], i - 1);
    }
  }

  lemma {:induction false} StartsIncrease(lines: seq<string>, i: nat, j: nat)
    requires i < j <= |lines|
    ensures StartOf(lines, i) + |lines[i]| + 1 <= StartOf(lines, j)
    decreases j - i
  {
    NextStart(lines, i);
    if i + 1 < j {
      StartsIncrease(lines, i + 1, j);
    }
  }

  ghost predicate Indexes(starts: array<int>, lines: seq<string>)
    reads starts
  {
    starts.Length == |lines| && forall i :: 0 <= i < |lines| ==> starts[i] == StartOf(lines, i)
  }

  method IndexLines(s: string) returns (lines: seq<string>, starts: array<int>)
    ensures lines == Split(s, '\n') && fresh(starts) && Indexes(starts, lines)
  {
    lines := Split(s, '\n');
    starts := new int[|lines|];
    var off := 0;
    for i := 0 to |lines|
      invariant off == StartOf(lines, i)
      invariant forall k :: 0 <= k < i ==> starts[k] == StartOf(lines, k)
    {
      NextStart(lines, i);
      starts[i] := off;
      off := off + |lines[i]| + 1;
    }
  }

  lemma SliceAfter(head: string, rest: string, a: nat, n: nat)
    requires a + n <= |rest|
    ensures (head + rest)[|head| + a..|head| + a + n] == rest[a..a + n]
    ensures a + n < |rest| ==> (head + rest)[|head| + a + n] == rest[a + n]
  {
  }

  /** Line i sits at its start in the text, and a newline follows it unless it is the last. */
  lemma {:induction false} LineIsAtStart(lines: seq<string>, i: nat)
    requires i < |lines|
    ensures var s, a := Join(lines, "\n"), StartOf(lines, i);
            a + |lines[i]| <= |s| && s[a..a + |lines[i]|] == lines[i]
            && if i == |lines| - 1 then a + |lines[i]| == |s| else a + |lines[i]| < |s| && s[a + |lines[i]|] == '\n'
    decreases i, |lines|
  {
    var s := Join(lines, "\n");
    if |lines| > 1 {
      var head, rest := lines[0] + "\n", Join(lines[1..], "\n");
      assert s == head + rest;
      if i > 0 {
        LineIsAtStart(lines[1..], i - 1);
        SliceAfter(head, rest, StartOf(lines[1..], i - 1), |lines[i]|);
      } else {
        assert s[..|lines[0]|] == lines[0] && s[|lines[0]|] == '\n';
      }
    }
  }

  // ---- the offset lookup ---------------------------------------------------------------

  // The line an offset is charged to; past the end it is the last.
  function LineAt(lines: seq<string>, off: nat): (ln: nat)
    requires lines != []
    ensures ln < |lines|
  {
    if |lines| == 1 || off <= |lines[0]| then 0 else 1 + LineAt(lines[1..], off - |lines[0]| - 1)
  }

  // Line and column, both counted from 0; line -1 for an offset before the text.
  datatype Place = Place(line: int, col: int)

  function Position(lines: seq<string>, off: int): Place
    requires lines != []
  {
    if off < 0 then Place(-1, 0) else Place(LineAt(lines, off), off - StartOf(lines, LineAt(lines, off)))
  }

  lemma {:induction false} LineAtBounds(lines: seq<string>, off: nat)
    requires lines != []
    ensures var ln := LineAt(lines, off);
            StartOf(lines, ln) <= off && (ln + 1 < |lines| ==> off < StartOf(lines, ln + 1))
  {
    if |lines| > 1 && off > |lines[0]| {
      LineAtBounds(lines[1..], off - |lines[0]| - 1);
    }
  }

  // The line is determined by its start and the next one's.
  lemma {:induction false} OnlyLine(lines: seq<string>, l: nat, off: nat)
    requires l < |lines| && StartOf(lines, l) <= off && (l + 1 < |lines| ==> off < StartOf(lines, l + 1))
    ensures LineAt(lines, off) == l
    decreases l
  {
    NextStart(lines, l);
    if l > 0 {
      OnlyLine(lines[1..], l - 1, off - |lines[0]| - 1);
    }
  }

  method Locate(starts: array<int>, off: int, ghost lines: seq<string>) returns (ln: int, col: int)
    requires lines != [] && Indexes(starts, lines)
    ensures Place(ln, col) == Position(lines, off)
  {
    ln := -1;
    var i := 0;
    while i < starts.Length
      invariant 0 <= i <= starts.Length && ln == i - 1
      invariant forall k :: 0 <= k < i ==> starts[k] <= off
    {
      if off < starts[i] {
        break;
      }
      ln := i;
      i := i + 1;
    }
    if ln < 0 {
      return -1, 0;
    }
    assert starts[0] == StartOf(lines, 0) == 0;
    OnlyLine(lines, ln, off);
    col := off - starts[ln];
  }

  function Newlines(s: string): nat {
    if s == "" then 0 else (if s[0] == '\n' then 1 else 0) + Newlines(s[1..])
  }

  lemma {:induction false} NewlinesAppend(s: string, t: string)
    ensures Newlines(s + t) == Newlines(s) + Newlines(t)
  {
    if s == "" {
      assert s + t == t;
    } else {
      assert (s + t)[1..] == s[1..] + t;
      NewlinesAppend(s[1..], t);
    }
  }

  lemma {:induction false} NoNewlines(s: string)
    requires '\n' !in s
    ensures Newlines(s) == 0
  {
    if s != "" {
      NoNewlines(s[1..]);
    }
  }

  lemma {:induction false} NewlinesBefore(lines: seq<string>, off: nat)
    requires lines != [] && off <= |Join(lines, "\n")|
    requires forall i :: 0 <= i < |lines| ==> '\n' !in lines[i]
    ensures Newlines(Join(lines, "\n")[..off]) == LineAt(lines, off)
    ensures off - StartOf(lines, LineAt(lines, off)) <= |lines[LineAt(lines, off)]|
    decreases |lines|
  {
    var s, first := Join(lines, "\n"), lines[0];
    if off <= |first| {
      assert s[..off] == first[..off];
      NoNewlines(first[..off]);
    } else {
      var rest, n := Join(lines[1..], "\n"), |first| + 1;
      assert s == first + "\n" + rest;
      assert s[..off] == first + "\n" + rest[..off - n];
      NewlinesAppend(first + "\n", rest[..off - n]);
      NewlinesAppend(first, "\n");
      NoNewlines(first);
      assert Newlines("\n") == 1 by { assert "\n"[1..] == ""; }
      NewlinesBefore(lines[1..], off - n);
    }
  }

  /** Index and lookup invert each other: every offset of the text has exactly one line and
      column, the line is the number of newlines before it, and start plus column is the offset. */
  lemma LocateInvertsIndex(src: string, off: nat)
    requires off <= |src|
    ensures var lines := Split(src, '\n');
            var ln := LineAt(lines, off);
            Join(lines, "\n") == src && ln == Newlines(src[..off])
            && StartOf(lines, ln) <= off <= StartOf(lines, ln) + |lines[ln]|
            && forall l: nat :: l < |lines| && StartOf(lines, l) <= off <= StartOf(lines, l) + |lines[l]| ==> l == ln
  {
    var lines := Split(src, '\n');
    JoinSplit(src, '\n');
    NewlinesBefore(lines, off);
    LineAtBounds(lines, off);
    var ln := LineAt(lines, off);
    forall l: nat | l < |lines| && StartOf(lines, l) <= off <= StartOf(lines, l) + |lines[l]| ensures l == ln {
      NextStart(lines, l);
      OnlyLine(lines, l, off);
    }
  }

  /** An offset past the end is not rejected: it lands on the last line, right of its text. */
  lemma {:induction false} PastTheEnd(lines: seq<string>, off: nat)
    requires lines != [] && off > |Join(lines, "\n")|
    ensures LineAt(lines, off) == |lines| - 1
    ensures off - StartOf(lines, |lines| - 1) > |lines[|lines| - 1]|
    decreases |lines|
  {
    if |lines| > 1 {
      PastTheEnd(lines[1..], off - |lines[0]| - 1);
    }
  }

  // src is one line with what surrounds it, and off is charged to that line.
  predicate OnLine(before: string, line: string, after: string, off: int) {
    && '\n' !in line && (before == "" || before[|before| - 1] == '\n') && (after == "" || after[0] == '\n')
    && |before| <= off && (after == "" || off <= |before| + |line|)
  }

  lemma LocateBounds(src: string, off: nat, lines: seq<string>, ln: nat)
    requires off <= |src| && lines == Split(src, '\n') && ln == LineAt(lines, off)
    ensures ln == Newlines(src[..off]) && StartOf(lines, ln) <= off <= StartOf(lines, ln) + |lines[ln]|
  {
    LocateInvertsIndex(src, off);
  }

  // Where a line starts and ends, the lookup finds one and the same line.
  lemma LineEnds(before: string, line: string, after: string)
    requires OnLine(before, line, after, |before|)
    ensures var lines := Split(before + line + after, '\n');
            var ln := LineAt(lines, |before|);
            ln == Newlines(before)
            && StartOf(lines, ln) <= |before| && |before| + |line| <= StartOf(lines, ln) + |lines[ln]|
  {
    var src := before + line + after;
    var lines, a, b := Split(src, '\n'), |before|, |before| + |line|;
    LocateBounds(src, a, lines, LineAt(lines, a));
    LocateBounds(src, b, lines, LineAt(lines, b));
    assert src[..|before|] == before && src[..|before| + |line|] == before + line;
    NewlinesAppend(before, line);
    NoNewlines(line);
  }

  lemma LineIsThere(lines: seq<string>, ln: nat, src: string, a: nat, b: nat)
    requires ln < |lines| && src == Join(lines, "\n") && a == StartOf(lines, ln) && b == a + |lines[ln]|
    ensures b <= |src| && src[a..b] == lines[ln]
    ensures if ln == |lines| - 1 then b == |src| else b < |src| && src[b] == '\n'
  {
    LineIsAtStart(lines, ln);
  }

  lemma LinesAreClean(src: string, lines: seq<string>, ln: nat)
    requires lines == Split(src, '\n') && ln < |lines|
    ensures src == Join(lines, "\n") && '\n' !in lines[ln]
  {
    JoinSplit(src, '\n');
  }

  // The line around an offset: from after the last newline before it to the next one.
  lemma LineAround(before: string, line: string, after: string)
    requires OnLine(before, line, after, |before|)
    ensures var lines := Split(before + line + after, '\n');
            var ln := LineAt(lines, |before|);
            ln == Newlines(before) && lines[ln] == line && StartOf(lines, ln) == |before|
            && (after == "" ==> ln == |lines| - 1)
  {
    var src := before + line + after;
    var lines := Split(src, '\n');
    var ln := LineAt(lines, |before|);
    var a := StartOf(lines, ln);
    LinesAreClean(src, lines, ln);
    LineEnds(before, line, after);
    LineIsThere(lines, ln, src, a, a + |lines[ln]|);
    LineIsWhole(src, before, line, after, a, lines[ln]);
  }

  // A stretch without newlines around a whole line is that line.
  lemma LineIsWhole(src: string, before: string, line: string, after: string, a: nat, found: string)
    requires src == before + line + after && OnLine(before, line, after, |before|)
    requires a + |found| <= |src| && src[a..a + |found|] == found && '\n' !in found
    requires a <= |before| && |before| + |line| <= a + |found|
    ensures a == |before| && found == line
  {
    assert forall k :: a <= k < a + |found| ==> src[k] == src[a..a + |found|][k - a];
    assert before != "" ==> src[|before| - 1] == '\n';
    assert after != "" ==> src[|before| + |line|] == '\n';
    assert src[|before|..|before| + |line|] == line;
  }

  /** An offset is charged to the line around it, numbered by the newlines before the line; its
      column is the distance from the line's start. Past the end that is the last line. */
  lemma PositionIs(before: string, line: string, after: string, off: int)
    requires OnLine(before, line, after, off)
    ensures var lines := Split(before + line + after, '\n');
            Position(lines, off) == Place(Newlines(before), off - |before|)
            && LineAt(lines, off) == Newlines(before) && lines[Newlines(before)] == line
            && StartOf(lines, Newlines(before)) == |before|
  {
    LineAround(before, line, after);
    var lines := Split(before + line + after, '\n');
    var ln := Newlines(before);
    if ln + 1 < |lines| {
      NextStart(lines, ln);
    }
    OnlyLine(lines, ln, off);
  }

  lemma CutAt(src: string, a: nat, b: nat, line: string)
    requires a <= b <= |src| && src[a..b] == line && '\n' !in line
    requires (a == 0 || src[a - 1] == '\n') && (b == |src| || src[b] == '\n')
    ensures src == src[..a] + line + src[b..] && OnLine(src[..a], line, src[b..], a)
  {
  }

  lemma NewlineBefore(lines: seq<string>, ln: nat, src: string)
    requires 0 < ln < |lines| && src == Join(lines, "\n")
    ensures 0 < StartOf(lines, ln) <= |src| && src[StartOf(lines, ln) - 1] == '\n'
  {
    LineIsAtStart(lines, ln - 1);
    NextStart(lines, ln - 1);
  }

  lemma LineIsCut(lines: seq<string>, ln: nat, src: string)
    requires ln < |lines| && src == Join(lines, "\n") && '\n' !in lines[ln]
    ensures var a := StartOf(lines, ln); var b := a + |lines[ln]|;
            b <= |src| && src == src[..a] + lines[ln] + src[b..] && OnLine(src[..a], lines[ln], src[b..], a)
            && (ln == |lines| - 1 <==> b == |src|)
  {
    var a := StartOf(lines, ln);
    LineIsThere(lines, ln, src, a, a + |lines[ln]|);
    if ln > 0 {
      NewlineBefore(lines, ln, src);
    }
    CutAt(src, a, a + |lines[ln]|, lines[ln]);
  }

  lemma WithinLine(lines: seq<string>, ln: nat, off: nat)
    requires lines != [] && ln == LineAt(lines, off)
    ensures StartOf(lines, ln) <= off && (ln < |lines| - 1 ==> off <= StartOf(lines, ln) + |lines[ln]|)
  {
    LineAtBounds(lines, off);
    NextStart(lines, ln);
  }

  // Every offset that is not negative is on some line.
  lemma EveryOffsetIsOnALine(src: string, off: nat) returns (before: string, line: string, after: string)
    ensures src == before + line + after && OnLine(before, line, after, off)
  {
    var lines := Split(src, '\n');
    var ln := LineAt(lines, off);
    LinesAreClean(src, lines, ln);
    LineIsCut(lines, ln, src);
    WithinLine(lines, ln, off);
    var a := StartOf(lines, ln);
    before, line, after := src[..a], lines[ln], src[a + |lines[ln]|..];
  }

  // ---- the label block -----------------------------------------------------------------

  // How many carets a label gets.
  function Underline(line: string, col: int, len: int): int {
    var ul := if len < 1 then 1 else len;
    if col + ul > |line| then (if 1 < |line| - col then |line| - col else 1) else ul
  }

  // The source line and the underline, up to the last caret, as they are printed.
  function SourceRow(lines: seq<string>, ln: nat): string
    requires ln < |lines|
  {
    Itoa(ln + 1) + " | " + lines[ln]
  }

  function CaretRow(lines: seq<string>, lb: Label): string
    requires lines != [] && lb.start >= 0
  {
    var Place(ln, col) := Position(lines, lb.start);
    LineAtBounds(lines, lb.start);
    Repeat(' ', |Itoa(ln + 1)|) + " | " + Repeat(' ', col)
    + Repeat('^', Underline(lines[ln], col, lb.len))
  }

  function Block(lines: seq<string>, lb: Label): string
    requires lines != []
  {
    if lb.start < 0 then ""
    else
      var ln := LineAt(lines, lb.start);
      Repeat(' ', |Itoa(ln + 1)|) + " |\n" + SourceRow(lines, ln) + "\n"
      + CaretRow(lines, lb) + " " + lb.msg + "\n"
  }

  function Blocks(lines: seq<string>, labels: seq<Label>): string
    requires lines != []
  {
    if labels == [] then "" else Blocks(lines, labels[..|labels| - 1]) + Block(lines, labels[|labels| - 1])
  }

  lemma BlocksSnoc(lines: seq<string>, labels: seq<Label>, lb: Label)
    requires lines != []
    ensures Blocks(lines, labels + [lb]) == Blocks(lines, labels) + Block(lines, lb)
  {
    assert (labels + [lb])[..|labels|] == labels;
  }

  lemma {:induction false} BlocksMiddle(lines: seq<string>, before: seq<Label>, lb: Label, after: seq<Label>)
    requires lines != []
    ensures Blocks(lines, []) == ""
    ensures Blocks(lines, before + [lb] + after) == Blocks(lines, before) + Block(lines, lb) + Blocks(lines, after)
  {
    if after == [] {
      assert before + [lb] + after == before + [lb];
      BlocksSnoc(lines, before, lb);
    } else {
      var n := |after| - 1;
      assert before + [lb] + after == before + [lb] + after[..n] + [after[n]];
      assert after == after[..n] + [after[n]];
      BlocksSnoc(lines, before + [lb] + after[..n], after[n]);
      BlocksSnoc(lines, after[..n], after[n]);
      BlocksMiddle(lines, before, lb, after[..n]);
      Assoc(Blocks(lines, before) + Block(lines, lb), Blocks(lines, after[..n]), Block(lines, after[n]));
    }
  }

  lemma Assoc(a: string, b: string, c: string)
    ensures a + (b + c) == a + b + c
  {
  }

  function Least(a: int, b: int): int {
    if a < b then a else b
  }

  function Largest(a: int, b: int): int {
    if a < b then b else a
  }

  lemma UnderlineIs(line: string, col: int, len: int)
    ensures Underline(line, col, len) == Largest(1, Least(len, |line| - col))
  {
  }

  lemma CaretRowIs(before: string, line: string, after: string, lb: Label)
    requires OnLine(before, line, after, lb.start)
    ensures var number, col := Itoa(Newlines(before) + 1), lb.start - |before|;
            CaretRow(Split(before + line + after, '\n'), lb)
            == Repeat(' ', |number|) + " | " + Repeat(' ', col) + Repeat('^', Largest(1, Least(lb.len, |line| - col)))
  {
    PositionIs(before, line, after, lb.start);
    UnderlineIs(line, lb.start - |before|, lb.len);
  }

  /** What is printed for a label, told from the text alone: a gutter as wide as the line's number,
      the line with its number, and under the label's column as many carets as the label is long,
      cut at the end of the line, but at least one. A label before the text prints nothing. */
  lemma BlockIs(before: string, line: string, after: string, lb: Label)
    ensures lb.start < 0 ==> Block(Split(before + line + after, '\n'), lb) == ""
    ensures OnLine(before, line, after, lb.start) ==>
      var number, col := Itoa(Newlines(before) + 1), lb.start - |before|;
      Block(Split(before + line + after, '\n'), lb)
      == Repeat(' ', |number|) + " |\n" + (number + " | " + line) + "\n"
         + (Repeat(' ', |number|) + " | " + Repeat(' ', col)
            + Repeat('^', Largest(1, Least(lb.len, |line| - col)))) + " " + lb.msg + "\n"
  {
    if OnLine(before, line, after, lb.start) {
      PositionIs(before, line, after, lb.start);
      CaretRowIs(before, line, after, lb);
      BlockRows(Split(before + line + after, '\n'), lb);
    }
  }

  lemma BlockRows(lines: seq<string>, lb: Label)
    requires lines != [] && lb.start >= 0
    ensures var ln := LineAt(lines, lb.start);
            Block(lines, lb) == Repeat(' ', |Itoa(ln + 1)|) + " |\n" + (Itoa(ln + 1) + " | " + lines[ln]) + "\n"
                                + CaretRow(lines, lb) + " " + lb.msg + "\n"
  {
  }

  // Counted from 1; 0 for a label before the text.
  function LineNumber(lines: seq<string>, lb: Label): nat
    requires lines != []
  {
    Position(lines, lb.start).line + 1
  }

  // The fold that sizes the closing gutter.
  function MaxLine(lines: seq<string>, labels: seq<Label>): int
    requires lines != []
  {
    if labels == [] then 1
    else
      var m, n := MaxLine(lines, labels[..|labels| - 1]), LineNumber(lines, labels[|labels| - 1]);
      if n > m then n else m
  }

  /** It is a maximum: 1 or the line number of some label, and no label's is larger. */
  lemma {:induction false} MaxLineIsMaximum(lines: seq<string>, labels: seq<Label>)
    requires lines != []
    ensures MaxLine(lines, labels) >= 1
    ensures forall i :: 0 <= i < |labels| ==> LineNumber(lines, labels[i]) <= MaxLine(lines, labels)
    ensures MaxLine(lines, labels) == 1
            || exists i :: 0 <= i < |labels| && LineNumber(lines, labels[i]) == MaxLine(lines, labels)
    decreases |labels|
  {
    if labels != [] {
      var rest := labels[..|labels| - 1];
      MaxLineIsMaximum(lines, rest);
      assert forall i :: 0 <= i < |rest| ==> rest[i] == labels[i];
    }
  }

  /** So the rule that closes the source section is at least as wide as every label's gutter. */
  lemma ClosingRuleFits(lines: seq<string>, labels: seq<Label>, i: nat)
    requires lines != [] && i < |labels|
    ensures |Itoa(LineNumber(lines, labels[i]))| <= |Itoa(MaxLine(lines, labels))|
  {
    MaxLineIsMaximum(lines, labels);
    NumeralWidens(LineNumber(lines, labels[i]), MaxLine(lines, labels));
  }

  method Graphical(name: string, src: string, labels: seq<Label>) returns (out: string)
    ensures src == "" || labels == [] ==> out == ""
    ensures src != "" && labels != [] ==>
      var lines := Split(src, '\n');
      out == "  --> " + (if name == "" then "<source>" else name) + "\n" + Blocks(lines, labels)
             + Repeat(' ', |Itoa(MaxLine(lines, labels))|) + " |\n"
  {
    if src == "" || |labels| == 0 {
      return "";
    }
    var lines, starts := IndexLines(src);
    var blocks := LabelBlocks(lines, starts, labels);
    var m := MaxLabelLine(lines, starts, labels);
    out := "  --> " + (if name == "" then "<source>" else name) + "\n" + blocks;
    out := out + Repeat(' ', |Itoa(m)|) + " |\n";
  }

  method LabelBlocks(lines: seq<string>, starts: array<int>, labels: seq<Label>) returns (out: string)
    requires lines != [] && Indexes(starts, lines)
    ensures out == Blocks(lines, labels)
  {
    out := "";
    for i := 0 to |labels|
      invariant out == Blocks(lines, labels[..i])
    {
      assert labels[..i + 1][..i] == labels[..i];
      var block := LabelBlock(lines, starts, labels[i]);
      out := out + block;
    }
    assert labels[..|labels|] == labels;
  }

  method LabelBlock(lines: seq<string>, starts: array<int>, lb: Label) returns (out: string)
    requires lines != [] && Indexes(starts, lines)
    ensures out == Block(lines, lb)
  {
    var ln, col := Locate(starts, lb.start, lines);
    if ln < 0 || ln >= |lines| {
      return "";
    }
    LineAtBounds(lines, lb.start);
    var gutter := Itoa(ln + 1);
    var pad := Repeat(' ', |gutter|);
    var ul := lb.len;
    if ul < 1 {
      ul := 1;
    }
    if col + ul > |lines[ln]| {
      ul := if 1 < |lines[ln]| - col then |lines[ln]| - col else 1;
    }
    out := pad + " |\n";
    out := out + (gutter + " | " + lines[ln]) + "\n";
    out := out + (pad + " | " + Repeat(' ', col) + Repeat('^', ul)) + " " + lb.msg + "\n";
  }

  method MaxLabelLine(lines: seq<string>, starts: array<int>, labels: seq<Label>) returns (m: int)
    requires lines != [] && Indexes(starts, lines)
    ensures m == MaxLine(lines, labels) >= 1
    ensures forall i :: 0 <= i < |labels| ==> LineNumber(lines, labels[i]) <= m
    ensures m == 1 || exists i :: 0 <= i < |labels| && LineNumber(lines, labels[i]) == m
  {
    m := 1;
    for i := 0 to |labels|
      invariant m == MaxLine(lines, labels[..i])
    {
      assert labels[..i + 1][..i] == labels[..i];
      var ln, _ := Locate(starts, labels[i].start, lines);
      if ln + 1 > m {
        m := ln + 1;
      }
    }
    assert labels[..|labels|] == labels;
    MaxLineIsMaximum(lines, labels);
  }

  // Byte off of the text lies in the label's span and on line ln.
  predicate Marked(lines: seq<string>, lb: Label, ln: nat, off: int)
    requires ln < |lines|
  {
    StartOf(lines, ln) <= off < StartOf(lines, ln) + |lines[ln]| && lb.start <= off < lb.start + lb.len
  }

  // The column of the output in which byte off of line ln is printed.
  function ColumnOf(lines: seq<string>, ln: nat, off: int): int
    requires ln < |lines|
  {
    |Itoa(ln + 1)| + 3 + off - StartOf(lines, ln)
  }

  // Each caret is under a byte of the span, and each byte of the span on that line has one.
  ghost predicate CaretsAreExact(lines: seq<string>, lb: Label)
    requires lines != [] && lb.start >= 0
  {
    var ln, row := LineAt(lines, lb.start), CaretRow(lines, lb);
    forall off: int :: var k := ColumnOf(lines, ln, off);
      (0 <= k < |row| && row[k] == '^') <==> Marked(lines, lb, ln, off)
  }

  lemma CaretRowAt(lines: seq<string>, lb: Label, k: int)
    requires lines != [] && lb.start >= 0
    ensures var ln := LineAt(lines, lb.start);
            var first := |Itoa(ln + 1)| + 3 + lb.start - StartOf(lines, ln);
            var ul := Underline(lines[ln], lb.start - StartOf(lines, ln), lb.len);
            ul >= 1 && |CaretRow(lines, lb)| == first + ul
            && (0 <= k < |CaretRow(lines, lb)| ==> (CaretRow(lines, lb)[k] == '^' <==> first <= k))
  {
    var ln := LineAt(lines, lb.start);
    LineAtBounds(lines, lb.start);
    var col := lb.start - StartOf(lines, ln);
    var pad, gap := Repeat(' ', |Itoa(ln + 1)|), Repeat(' ', col);
    var carets := Repeat('^', Underline(lines[ln], col, lb.len));
    PiecesAt(pad, gap, carets, k);
  }

  lemma PiecesAt(pad: string, gap: string, carets: string, k: int)
    ensures var row, first := pad + " | " + gap + carets, |pad| + 3 + |gap|;
            |row| == first + |carets|
            && (0 <= k < |pad| ==> row[k] == pad[k])
            && (|pad| <= k < |pad| + 3 ==> row[k] in " |")
            && (|pad| + 3 <= k < first ==> row[k] == gap[k - |pad| - 3])
            && (first <= k < |row| ==> row[k] == carets[k - first])
  {
  }

  // The column of one byte, for a span that is not empty and starts on the line.
  lemma CaretMarks(lines: seq<string>, lb: Label, off: int)
    requires lines != [] && lb.start >= 0 && lb.len >= 1
    requires lb.start < StartOf(lines, LineAt(lines, lb.start)) + |lines[LineAt(lines, lb.start)]|
    ensures var ln, row := LineAt(lines, lb.start), CaretRow(lines, lb);
            var k := ColumnOf(lines, ln, off);
            (0 <= k < |row| && row[k] == '^') <==> Marked(lines, lb, ln, off)
  {
    LineAtBounds(lines, lb.start);
    CaretRowAt(lines, lb, ColumnOf(lines, LineAt(lines, lb.start), off));
  }

  // The first caret stands in the column of the first byte, whatever the span.
  lemma FirstCaret(lines: seq<string>, lb: Label)
    requires lines != [] && lb.start >= 0
    ensures var row, first := CaretRow(lines, lb), ColumnOf(lines, LineAt(lines, lb.start), lb.start);
            0 <= first < |row| && row[first] == '^'
  {
    LineAtBounds(lines, lb.start);
    CaretRowAt(lines, lb, ColumnOf(lines, LineAt(lines, lb.start), lb.start));
  }

  /** A label that does not start before the text has at least one caret; and the carets cover
      the part of the span on its line, no more and no less, if and only if the span is not
      empty and starts before the end of that line. */
  lemma CaretsCoverSpan(lines: seq<string>, lb: Label)
    requires lines != [] && lb.start >= 0
    ensures CaretsAreExact(lines, lb) <==>
              lb.len >= 1 && lb.start < StartOf(lines, LineAt(lines, lb.start)) + |lines[LineAt(lines, lb.start)]|
    ensures exists k :: 0 <= k < |CaretRow(lines, lb)| && CaretRow(lines, lb)[k] == '^'
  {
    var ln, row := LineAt(lines, lb.start), CaretRow(lines, lb);
    FirstCaret(lines, lb);
    if lb.len >= 1 && lb.start < StartOf(lines, ln) + |lines[ln]| {
      forall off: int
        ensures var k := ColumnOf(lines, ln, off); (0 <= k < |row| && row[k] == '^') <==> Marked(lines, lb, ln, off)
      {
        CaretMarks(lines, lb, off);
      }
    } else {
      assert !Marked(lines, lb, ln, lb.start);
    }
  }

  /** Carets and bytes are aligned: byte off of the line is printed in its column of the source
      row, which is the column its caret has in the row below. */
  lemma BytesAreAligned(lines: seq<string>, ln: nat, off: int)
    requires ln < |lines| && StartOf(lines, ln) <= off < StartOf(lines, ln) + |lines[ln]|
    ensures var src, k := Join(lines, "\n"), ColumnOf(lines, ln, off);
            0 <= off < |src| && 0 <= k < |SourceRow(lines, ln)| && SourceRow(lines, ln)[k] == src[off]
  {
    LineIsAtStart(lines, ln);
    RowShows(Join(lines, "\n"), StartOf(lines, ln), lines[ln], Itoa(ln + 1), off);
  }

  lemma RowShows(src: string, a: nat, line: string, gutter: string, off: int)
    requires a + |line| <= |src| && src[a..a + |line|] == line && a <= off < a + |line|
    ensures (gutter + " | " + line)[|gutter| + 3 + off - a] == src[off]
  {
    var j := off - a;
    assert src[a..a + |line|][j] == src[off];
    assert (gutter + " | " + line)[|gutter| + 3 + j] == line[j];
  }

  // ---- the narrated form ---------------------------------------------------------------

  function Sentence(name: string, lines: seq<string>, lb: Label): string
    requires lines != []
  {
    var Place(ln, col) := Position(lines, lb.start);
    "  at " + (if name == "" then "source" else name) + " line " + Itoa(ln + 1) + ", column " + Itoa(col + 1)
    + ": " + lb.msg + "\n"
  }

  function Sentences(name: string, lines: seq<string>, labels: seq<Label>): string
    requires lines != []
  {
    if labels == [] then ""
    else Sentences(name, lines, labels[..|labels| - 1]) + Sentence(name, lines, labels[|labels| - 1])
  }

  lemma SentencesSnoc(name: string, lines: seq<string>, labels: seq<Label>, lb: Label)
    requires lines != []
    ensures Sentences(name, lines, labels + [lb]) == Sentences(name, lines, labels) + Sentence(name, lines, lb)
  {
    assert (labels + [lb])[..|labels|] == labels;
  }

  lemma {:induction false} SentencesMiddle(name: string, lines: seq<string>, before: seq<Label>, lb: Label,
                                           after: seq<Label>)
    requires lines != []
    ensures Sentences(name, lines, []) == ""
    ensures Sentences(name, lines, before + [lb] + after)
         == Sentences(name, lines, before) + Sentence(name, lines, lb) + Sentences(name, lines, after)
  {
    if after == [] {
      assert before + [lb] + after == before + [lb];
      SentencesSnoc(name, lines, before, lb);
    } else {
      var n := |after| - 1;
      assert before + [lb] + after == before + [lb] + after[..n] + [after[n]];
      assert after == after[..n] + [after[n]];
      SentencesSnoc(name, lines, before + [lb] + after[..n], after[n]);
      SentencesSnoc(name, lines, after[..n], after[n]);
      SentencesMiddle(name, lines, before, lb, after[..n]);
      Assoc(Sentences(name, lines, before) + Sentence(name, lines, lb), Sentences(name, lines, after[..n]),
            Sentence(name, lines, after[n]));
    }
  }

  /** The sentence for a label, told from the text alone; a label before the text is put in line 0,
      column 1. */
  lemma SentenceIs(name: string, before: string, line: string, after: string, lb: Label, number: int, column: int)
    requires if lb.start < 0 then number == 0 && column == 1
             else OnLine(before, line, after, lb.start)
                  && number == Newlines(before) + 1 && column == lb.start - |before| + 1
    ensures Sentence(name, Split(before + line + after, '\n'), lb)
         == "  at " + (if name == "" then "source" else name) + " line " + Itoa(number) + ", column "
            + Itoa(column) + ": " + lb.msg + "\n"
  {
    var lines := Split(before + line + after, '\n');
    if lb.start >= 0 {
      PositionIs(before, line, after, lb.start);
    }
    SentenceAt(name, lines, lb, number - 1, column - 1);
  }

  lemma SentenceAt(name: string, lines: seq<string>, lb: Label, ln: int, col: int)
    requires lines != [] && Position(lines, lb.start) == Place(ln, col)
    ensures Sentence(name, lines, lb)
         == "  at " + (if name == "" then "source" else name) + " line " + Itoa(ln + 1) + ", column "
            + Itoa(col + 1) + ": " + lb.msg + "\n"
  {
  }

  method Narrate(name: string, src: string, labels: seq<Label>) returns (out: string)
    ensures out == if src == "" then "" else Sentences(name, Split(src, '\n'), labels)
  {
    if src == "" {
      return "";
    }
    var lines, starts := IndexLines(src);
    out := NarrateLabels(name, lines, starts, labels);
  }

  method NarrateLabels(name: string, lines: seq<string>, starts: array<int>, labels: seq<Label>)
    returns (out: string)
    requires lines != [] && Indexes(starts, lines)
    ensures out == Sentences(name, lines, labels)
  {
    out := "";
    for i := 0 to |labels|
      invariant out == Sentences(name, lines, labels[..i])
    {
      assert labels[..i + 1][..i] == labels[..i];
      var ln, col := Locate(starts, labels[i].start, lines);
      out := out + ("  at " + (if name == "" then "source" else name) + " line " + Itoa(ln + 1) + ", column "
                    + Itoa(col + 1) + ": " + labels[i].msg + "\n");
    }
    assert labels[..|labels|] == labels;
  }
}
