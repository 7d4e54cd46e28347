/** Stack text in contrib/otel: decimal printing into a fixed buffer, and what it lets one read back. */
module Otel {
  import opened Values
  import opened Decimal
  import opened Text

  const MAX_INT: int := 0x7fff_ffff_ffff_ffff

  function Pow10(k: nat): nat {
    if k == 0 then 1 else 10 * Pow10(k - 1)
  }

  // What is appended for n: its numeral, and nothing at all for a negative number.
  function Digits(n: int): string {
    if n < 0 then "" else Numeral(n)
  }

  lemma TwentyDigitsAreEnough()
    ensures MAX_INT < Pow10(20)
  {
    assert Pow10(3) == 1000;
    assert Pow10(6) == 1000 * Pow10(3);
    assert Pow10(9) == 1000 * Pow10(6);
    assert Pow10(12) == 1000 * Pow10(9);
    assert Pow10(15) == 1000 * Pow10(12);
    assert Pow10(18) == 1000 * Pow10(15);
  }

  // What stands to the left of the digits already in the buffer.
  function Leading(n: nat): string {
    if n == 0 then "" else Numeral(n)
  }

  lemma DigitStep(n: nat, tail: string)
    requires n > 0
    ensures Leading(n) + tail == Leading(n / 10) + ([DigitChar(n % 10)] + tail)
  {
    if n >= 10 {
      assert Numeral(n / 10) + [DigitChar(n % 10)] + tail == Numeral(n / 10) + ([DigitChar(n % 10)] + tail);
    } else {
      assert "" + ([DigitChar(n)] + tail) == [DigitChar(n)] + tail;
    }
  }

  lemma FewerDigits(rest: nat, i: nat)
    requires 0 < rest < Pow10(i)
    ensures i > 0 && rest / 10 < Pow10(i - 1)
  {
  }

  // The digits in the buffer and those still to come are the numeral of n.
  ghost predicate Printing(n: int, rest: int, shown: string) {
    if n > 0 then rest >= 0 && Numeral(n) == Leading(rest) + shown else rest == n && shown == ""
  }

  lemma PrintingStep(n: int, rest: int, shown: string)
    requires Printing(n, rest, shown) && rest > 0
    ensures Printing(n, rest / 10, [DigitChar(rest % 10)] + shown)
  {
    DigitStep(rest, shown);
  }

  // The loop: digits from the end of the buffer to the front.
  method FillDigits(tmp: array<char>, n: int) returns (i: nat)
    requires n < Pow10(tmp.Length)
    modifies tmp
    ensures i <= tmp.Length && tmp[i..] == (if n > 0 then Numeral(n) else "")
  {
    var rest := n;
    i := tmp.Length;
    while rest > 0
      invariant i <= tmp.Length && rest < Pow10(i) && Printing(n, rest, tmp[i..])
    {
      PrintingStep(n, rest, tmp[i..]);
      FewerDigits(rest, i);
      ghost var tail := tmp[i..];
      i := i - 1;
      tmp[i] := '0' + (rest % 10) as char;
      assert tmp[i..] == [DigitChar(rest % 10)] + tail;
      rest := rest / 10;
    }
    assert n > 0 ==> Leading(rest) + tmp[i..] == tmp[i..];
  }

  // The write index stays inside the buffer for every machine integer.
  method AppendInt(b: string, n: int) returns (out: string)
    requires n <= MAX_INT
    ensures out == b + Digits(n)
  {
    if n == 0 {
      return b + "0";
    }
    var tmp := new char[20];
    TwentyDigitsAreEnough();
    var i := FillDigits(tmp, n);
    out := b + tmp[i..];
  }

  function FrameText(f: Frame): string {
    f.function_ + "\n\t" + f.file + ":" + Digits(f.line) + "\n"
  }

  function StackText(frames: seq<Frame>): string {
    if frames == [] then "" else StackText(frames[..|frames| - 1]) + FrameText(frames[|frames| - 1])
  }

  method StackString(frames: seq<Frame>) returns (b: string)
    requires forall i :: 0 <= i < |frames| ==> frames[i].line <= MAX_INT
    ensures b == StackText(frames)
  {
    b := "";
    for i := 0 to |frames|
      invariant b == StackText(frames[..i])
    {
      assert frames[..i + 1][..i] == frames[..i];
      b := AppendFrame(b, frames[i]);
    }
    assert frames[..|frames|] == frames;
  }

  method AppendFrame(b: string, f: Frame) returns (out: string)
    requires f.line <= MAX_INT
    ensures out == b + FrameText(f)
    ensures out == b + (f.function_ + "\n\t" + f.file + ":" + (if f.line < 0 then "" else Numeral(f.line)) + "\n")
  {
    out := b + f.function_;
    out := out + "\n\t";
    out := out + f.file;
    out := out + ":";
    out := AppendInt(out, f.line);
    out := out + "\n";
  }

  /** Reading the numeral of a machine integer gives the integer back. */
  lemma DigitsReadBack(n: nat)
    ensures Digits(n) != "" && (forall i :: 0 <= i < |Digits(n)| ==> IsDigit(Digits(n)[i]))
    ensures Parse(Digits(n)) == n && (n > 0 ==> Digits(n)[0] != '0')
  {
    ParseNumeral(n);
    NoLeadingZero(n);
  }

  // A frame whose names stay on one line.
  predicate Clean(f: Frame) {
    '\n' !in f.function_ && '\n' !in f.file
  }

  // Frames that are printed alike: negative line numbers are printed as nothing.
  predicate SameFrame(f: Frame, h: Frame) {
    f.function_ == h.function_ && f.file == h.file && (f.line == h.line || (f.line < 0 && h.line < 0))
  }

  predicate SameFrames(fs: seq<Frame>, gs: seq<Frame>) {
    |fs| == |gs| && forall i :: 0 <= i < |fs| ==> SameFrame(fs[i], gs[i])
  }

  lemma Separate(f: Frame, rest: string)
    ensures FrameText(f) + rest == f.function_ + ['\n'] + (("\t" + f.file + ":" + Digits(f.line)) + ['\n'] + rest)
  {
    var loc := "\t" + f.file + ":" + Digits(f.line);
    assert FrameText(f) == f.function_ + "\n" + (loc + "\n");
    assert f.function_ + "\n" + (loc + "\n") + rest == f.function_ + "\n" + (loc + "\n" + rest);
  }

  lemma LocationIsClean(f: Frame)
    requires Clean(f)
    ensures '\n' !in "\t" + f.file + ":" + Digits(f.line) && ':' !in Digits(f.line)
  {
    var d := Digits(f.line);
    assert forall i :: 0 <= i < |d| ==> IsDigit(d[i]);
  }

  // The first frame of a stack text can be told from the rest.
  lemma FirstFrame(f: Frame, h: Frame, x: string, y: string)
    requires Clean(f) && Clean(h) && FrameText(f) + x == FrameText(h) + y
    ensures SameFrame(f, h) && x == y
  {
    Separate(f, x);
    Separate(h, y);
    var lf, lh := "\t" + f.file + ":" + Digits(f.line), "\t" + h.file + ":" + Digits(h.line);
    LocationIsClean(f);
    LocationIsClean(h);
    SplitFirst(f.function_, lf + ['\n'] + x, h.function_, lh + ['\n'] + y, '\n');
    SplitFirst(lf, x, lh, y, '\n');
    SplitLast("\t" + f.file, Digits(f.line), "\t" + h.file, Digits(h.line), ':');
    assert f.file == ("\t" + f.file)[1..] && h.file == ("\t" + h.file)[1..];
    SameDigits(f.line, h.line);
  }

  lemma SameDigits(a: int, b: int)
    requires Digits(a) == Digits(b)
    ensures a == b || (a < 0 && b < 0)
  {
    if a >= 0 && b >= 0 {
      ParseNumeral(a);
      ParseNumeral(b);
    }
  }

  lemma {:induction false} StackCons(f: Frame, fs: seq<Frame>)
    ensures StackText([f] + fs) == FrameText(f) + StackText(fs)
  {
    var n := |fs|;
    if n == 0 {
      assert ([f] + fs)[..0] == [];
      assert StackText([f] + fs) == "" + FrameText(f) && FrameText(f) + "" == FrameText(f);
    } else {
      assert ([f] + fs)[..n] == [f] + fs[..n - 1];
      StackCons(f, fs[..n - 1]);
      assert FrameText(f) + StackText(fs[..n - 1]) + FrameText(fs[n - 1])
          == FrameText(f) + (StackText(fs[..n - 1]) + FrameText(fs[n - 1]));
    }
  }

  lemma {:induction false} AlikeFramesPrintAlike(fs: seq<Frame>, gs: seq<Frame>)
    requires SameFrames(fs, gs)
    ensures StackText(fs) == StackText(gs)
  {
    if fs != [] {
      var n := |fs| - 1;
      AlikeFramesPrintAlike(fs[..n], gs[..n]);
      assert SameFrame(fs[n], gs[n]);
    }
  }

  /** The exported stack text tells frames on one line apart, up to negative line numbers: two
      lists have one text if and only if they agree frame by frame. */
  lemma {:induction false} StackTextIsInjective(fs: seq<Frame>, gs: seq<Frame>)
    requires forall i :: 0 <= i < |fs| ==> Clean(fs[i])
    requires forall i :: 0 <= i < |gs| ==> Clean(gs[i])
    ensures StackText(fs) == StackText(gs) <==> SameFrames(fs, gs)
  {
    if SameFrames(fs, gs) {
      AlikeFramesPrintAlike(fs, gs);
    } else if StackText(fs) == StackText(gs) {
      ReadFrames(fs, gs);
    }
  }

  lemma {:induction false} ReadFrames(fs: seq<Frame>, gs: seq<Frame>)
    requires forall i :: 0 <= i < |fs| ==> Clean(fs[i])
    requires forall i :: 0 <= i < |gs| ==> Clean(gs[i])
    requires StackText(fs) == StackText(gs)
    ensures SameFrames(fs, gs)
  {
    if fs != [] && gs != [] {
      FirstOfStack(fs);
      FirstOfStack(gs);
      FirstFrame(fs[0], gs[0], StackText(fs[1..]), StackText(gs[1..]));
      ReadFrames(fs[1..], gs[1..]);
      SameFramesCons(fs, gs);
    }
  }

  lemma FirstOfStack(fs: seq<Frame>)
    requires fs != []
    ensures StackText(fs) == FrameText(fs[0]) + StackText(fs[1..])
  {
    assert fs == [fs[0]] + fs[1..];
    StackCons(fs[0], fs[1..]);
  }

  lemma SameFramesCons(fs: seq<Frame>, gs: seq<Frame>)
    requires fs != [] && gs != [] && SameFrame(fs[0], gs[0]) && SameFrames(fs[1..], gs[1..])
    ensures SameFrames(fs, gs)
  {
    assert forall i :: 0 < i < |fs| ==> fs[i] == fs[1..][i - 1] && gs[i] == gs[1..][i - 1];
  }
}
