/** The string functions of the standard library that the sources call. */
module Text {
  // strings.IndexByte
  function IndexOf(s: string, c: char): (k: int)
    ensures -1 <= k < |s|
  {
    if s == "" then -1
    else if s[0] == c then 0
    else
      var k := IndexOf(s[1..], c);
      if k < 0 then -1 else k + 1
  }

  // The first index holds the character and has none before it.
  lemma {:induction false} IndexOfFirst(s: string, c: char)
    ensures var k := IndexOf(s, c); if k < 0 then c !in s else s[k] == c && c !in s[..k]
  {
    if s != "" && s[0] != c {
      IndexOfFirst(s[1..], c);
      var k := IndexOf(s, c);
      if k > 0 {
        assert s[..k] == [s[0]] + s[1..][..k - 1];
      }
    }
  }

  // And it is the only such index.
  lemma {:induction false} IndexOfIs(s: string, c: char, k: nat)
    requires k <= |s| && c !in s[..k] && (k < |s| ==> s[k] == c)
    ensures IndexOf(s, c) == if k < |s| then k else -1
  {
    if k > 0 {
      assert s[0] == s[..k][0];
      assert s[1..][..k - 1] == s[..k][1..];
      IndexOfIs(s[1..], c, k - 1);
    }
  }

  // The first separator separates the first part from the rest.
  lemma SplitFirst(a: string, x: string, b: string, y: string, c: char)
    requires c !in a && c !in b && a + [c] + x == b + [c] + y
    ensures a == b && x == y
  {
    var s := a + [c] + x;
    assert s[..|a|] == a && s[..|b|] == b && s[|a|] == c && s[|b|] == c;
    IndexOfIs(s, c, |a|);
    IndexOfIs(s, c, |b|);
    assert x == s[|a| + 1..];
  }

  // The last index of a character, counted from the end.
  function FromEnd(s: string, c: char): nat {
    if s == "" || s[|s| - 1] == c then 0 else 1 + FromEnd(s[..|s| - 1], c)
  }

  lemma {:induction false} FromEndIs(a: string, x: string, c: char)
    requires c !in x
    ensures FromEnd(a + [c] + x, c) == |x|
  {
    if x != "" {
      var s := a + [c] + x;
      assert s[..|s| - 1] == a + [c] + x[..|x| - 1] && s[|s| - 1] == x[|x| - 1];
      FromEndIs(a, x[..|x| - 1], c);
    }
  }

  // The last separator separates the last part from what precedes it.
  lemma SplitLast(a: string, x: string, b: string, y: string, c: char)
    requires c !in x && c !in y && a + [c] + x == b + [c] + y
    ensures a == b && x == y
  {
    FromEndIs(a, x, c);
    FromEndIs(b, y, c);
    var s := a + [c] + x;
    assert a == s[..|s| - |x| - 1] && x == s[|s| - |x|..];
  }

  // strings.Split for a one-character separator
  function Split(s: string, c: char): (parts: seq<string>)
    ensures |parts| >= 1
  {
    var k := IndexOf(s, c);
    if k < 0 then [s] else [s[..k]] + Split(s[k + 1..], c)
  }

  function Join(parts: seq<string>, sep: string): string {
    if parts == [] then ""
    else if |parts| == 1 then parts[0]
    else parts[0] + sep + Join(parts[1..], sep)
  }

  lemma JoinCons(p: string, parts: seq<string>, sep: string)
    requires parts != []
    ensures Join([p] + parts, sep) == p + sep + Join(parts, sep)
  {
    assert ([p] + parts)[1..] == parts;
  }

  /** Splitting loses nothing, and no part holds the separator. */
  lemma {:induction false} JoinSplit(s: string, c: char)
    ensures Join(Split(s, c), [c]) == s
    ensures forall i :: 0 <= i < |Split(s, c)| ==> c !in Split(s, c)[i]
    decreases |s|
  {
    var k := IndexOf(s, c);
    IndexOfFirst(s, c);
    if k >= 0 {
      JoinSplit(s[k + 1..], c);
      JoinCons(s[..k], Split(s[k + 1..], c), [c]);
      assert s == s[..k] + [c] + s[k + 1..];
    }
  }

  /** Parts without the separator come back. */
  lemma {:induction false} SplitJoin(parts: seq<string>, c: char)
    requires parts != [] && forall i :: 0 <= i < |parts| ==> c !in parts[i]
    ensures Split(Join(parts, [c]), c) == parts
  {
    var s := Join(parts, [c]);
    if |parts| > 1 {
      var rest := Join(parts[1..], [c]);
      SplitJoin(parts[1..], c);
      assert s[|parts[0]|] == c && s[..|parts[0]|] == parts[0] && s[|parts[0]| + 1..] == rest;
      IndexOfIs(s, c, |parts[0]|);
      assert parts == [parts[0]] + parts[1..];
    } else {
      assert s[..|s|] == s;
      IndexOfIs(s, c, |s|);
    }
  }

  // unicode.IsSpace
  predicate IsSpace(c: char) {
    c == ' ' || '\t' <= c <= '\r' || c in "\U{85}\U{A0}\U{1680}" || '\U{2000}' <= c <= '\U{200A}'
    || c in "\U{2028}\U{2029}\U{202F}\U{205F}\U{3000}"
  }

  function TrimLeft(s: string): string {
    if s != "" && IsSpace(s[0]) then TrimLeft(s[1..]) else s
  }

  function TrimRight(s: string): string {
    if s != "" && IsSpace(s[|s| - 1]) then TrimRight(s[..|s| - 1]) else s
  }

  // strings.TrimSpace
  function TrimSpace(s: string): string {
    TrimRight(TrimLeft(s))
  }

  predicate Trimmed(s: string) {
    s == "" || (!IsSpace(s[0]) && !IsSpace(s[|s| - 1]))
  }

  lemma {:induction false} TrimLeftTrims(s: string)
    ensures var t := TrimLeft(s); (t == "" || !IsSpace(t[0])) && forall c :: c in t ==> c in s
  {
    if s != "" && IsSpace(s[0]) {
      TrimLeftTrims(s[1..]);
    }
  }

  lemma {:induction false} TrimRightTrims(s: string)
    ensures var t := TrimRight(s); (t == "" || !IsSpace(t[|t| - 1])) && forall c :: c in t ==> c in s
    ensures TrimRight(s) == "" || TrimRight(s)[0] == s[0]
  {
    if s != "" && IsSpace(s[|s| - 1]) {
      TrimRightTrims(s[..|s| - 1]);
    }
  }

  // Trimming leaves no outer space, adds nothing, and stops there.
  lemma TrimSpaceTrims(s: string)
    ensures Trimmed(TrimSpace(s)) && forall c :: c in TrimSpace(s) ==> c in s
    ensures Trimmed(s) ==> TrimSpace(s) == s
  {
    TrimLeftTrims(s);
    TrimRightTrims(TrimLeft(s));
    if Trimmed(s) {
      TrimmedStays(s);
    }
  }

  predicate Blank(s: string) {
    forall i :: 0 <= i < |s| ==> IsSpace(s[i])
  }

  lemma {:induction false} TrimLeftCuts(s: string)
    ensures |TrimLeft(s)| <= |s| && s[|s| - |TrimLeft(s)|..] == TrimLeft(s) && Blank(s[..|s| - |TrimLeft(s)|])
  {
    if s != "" && IsSpace(s[0]) {
      TrimLeftCuts(s[1..]);
      var k := |s| - |TrimLeft(s)|;
      assert s[..k] == [s[0]] + s[1..][..k - 1];
    } else {
      assert s[..0] == "";
    }
  }

  lemma {:induction false} TrimRightCuts(s: string)
    ensures |TrimRight(s)| <= |s| && s[..|TrimRight(s)|] == TrimRight(s) && Blank(s[|TrimRight(s)|..])
  {
    if s != "" && IsSpace(s[|s| - 1]) {
      var n := |s| - 1;
      TrimRightCuts(s[..n]);
      var k := |TrimRight(s)|;
      assert s[k..] == s[..n][k..] + [s[n]];
    }
  }

  // Trimming takes white space away, at both ends, and nothing else.
  lemma TrimSpaceCuts(s: string) returns (left: string, right: string)
    ensures s == left + TrimSpace(s) + right && Blank(left) && Blank(right)
  {
    var t := TrimLeft(s);
    TrimLeftCuts(s);
    TrimRightCuts(t);
    left, right := s[..|s| - |t|], t[|TrimSpace(s)|..];
  }

  lemma TrimmedStays(s: string)
    requires Trimmed(s)
    ensures TrimLeft(s) == s && TrimRight(s) == s
  {
  }

  // Trimming stops at a character that is not a space.
  lemma {:induction false} TrimRightAfter(a: string, c: char, b: string)
    requires !IsSpace(c)
    ensures TrimRight(a + [c] + b) == a + [c] + TrimRight(b)
  {
    var s := a + [c] + b;
    if b == "" {
      assert s == a + [c] && s[|s| - 1] == c;
    } else {
      assert s[|s| - 1] == b[|b| - 1] && s[..|s| - 1] == a + [c] + b[..|b| - 1];
      TrimRightAfter(a, c, b[..|b| - 1]);
    }
  }

  lemma {:induction false} TrimLeftSnoc(s: string, c: char)
    requires IsSpace(c)
    ensures TrimLeft(s + [c]) == if TrimLeft(s) == "" then "" else TrimLeft(s) + [c]
  {
    if s == "" {
      assert "" + [c] == [c] && [c][1..] == "";
    } else if IsSpace(s[0]) {
      assert (s + [c])[1..] == s[1..] + [c];
      TrimLeftSnoc(s[1..], c);
    }
  }

  // A right end that is trimmed first makes no difference.
  lemma {:induction false} TrimRightFirst(s: string)
    ensures TrimSpace(TrimRight(s)) == TrimSpace(s)
  {
    if s != "" && IsSpace(s[|s| - 1]) {
      var t, c := s[..|s| - 1], s[|s| - 1];
      assert s == t + [c];
      TrimRightFirst(t);
      TrimLeftSnoc(t, c);
      if TrimLeft(t) != "" {
        assert (TrimLeft(t) + [c])[..|TrimLeft(t)|] == TrimLeft(t);
      }
    }
  }

  lemma SpaceInFront(c: char, s: string)
    requires IsSpace(c)
    ensures TrimSpace([c] + s) == TrimSpace(s)
  {
    assert ([c] + s)[1..] == s;
  }

  // strings.TrimPrefix
  function TrimPrefix(s: string, p: string): string {
    if p <= s then s[|p|..] else s
  }

  // n copies of one element, as in strings.Repeat
  function Repeat<T>(x: T, n: nat): (s: seq<T>)
    ensures |s| == n && forall i :: 0 <= i < n ==> s[i] == x
  {
    seq(n, _ => x)
  }
}
