/**
 The directive parser of errxgen: an index-driven scanner of key=value pairs, the printer it
 inverts, and the specification a directive stands for. A character stands for a code point.
 */
module Directive {
  import opened Common
  import opened Text

  datatype Pair = Pair(key: string, val: string)

  function SkipSpaces(s: string): (t: string)
    ensures |t| <= |s|
  {
    if s != "" && s[0] == ' ' then SkipSpaces(s[1..]) else s
  }

  // The value at the start of s, and what follows it.
  function TakeValue(s: string): (r: (string, string))
    ensures |r.1| <= |s|
  {
    if s != "" && s[0] == '"' then
      var t := s[1..];
      var q := IndexOf(t, '"');
      if q < 0 then (t, "") else (t[..q], t[q + 1..])
    else
      var sp := IndexOf(s, ' ');
      if sp < 0 then (s, "") else (s[..sp], s[sp..])
  }

  // The first pair of s and what follows it.
  function FirstPair(s: string): (r: Option<(Pair, string)>)
    ensures r.Some? ==> |r.value.1| < |s|
  {
    var t := SkipSpaces(s);
    var eq := IndexOf(t, '=');
    if eq < 0 then None
    else
      var (val, after) := TakeValue(t[eq + 1..]);
      Some((Pair(TrimSpace(t[..eq]), val), after))
  }

  // The pairs of s in the order they stand.
  function ParsePairs(s: string): seq<Pair>
    decreases |s|
  {
    var first := FirstPair(s);
    if first.None? then [] else [first.value.0] + ParsePairs(first.value.1)
  }

  // Store pairs one after the other.
  function Store(m: map<string, string>, ps: seq<Pair>): map<string, string>
    decreases |ps|
  {
    if ps == [] then m else Store(m[ps[0].key := ps[0].val], ps[1..])
  }

  /** Of several pairs with one key the last one stays. */
  lemma {:induction false} LastPairWins(m: map<string, string>, ps: seq<Pair>, k: string)
    ensures k in Store(m, ps) <==> k in m || exists i :: 0 <= i < |ps| && ps[i].key == k
    ensures forall i :: 0 <= i < |ps| && ps[i].key == k && (forall j :: i < j < |ps| ==> ps[j].key != k)
              ==> k in Store(m, ps) && Store(m, ps)[k] == ps[i].val
    ensures k in m && (forall i :: 0 <= i < |ps| ==> ps[i].key != k) ==> k in Store(m, ps) && Store(m, ps)[k] == m[k]
    decreases |ps|
  {
    if ps != [] {
      var m' := m[ps[0].key := ps[0].val];
      LastPairWins(m', ps[1..], k);
      assert forall i :: 0 < i < |ps| ==> ps[i] == ps[1..][i - 1];
      assert forall i :: 0 <= i < |ps| - 1 ==> ps[1..][i] == ps[i + 1];
    }
  }

  // parseKV
  method ParseKV(s: string) returns (m: map<string, string>)
    ensures m == Store(map[], ParsePairs(s))
  {
    m := map[];
    var i := 0;
    assert s[0..] == s;
    while i < |s|
      invariant i <= |s|
      invariant Store(m, ParsePairs(s[i..])) == Store(map[], ParsePairs(s))
    {
      var next, after := ScanPair(s, i);
      if next.None? {
        return;
      }
      assert ParsePairs(s[i..])[1..] == ParsePairs(s[after..]);
      m := m[next.value.key := next.value.val];
      i := after;
    }
    assert s[i..] == "";
  }

  // One turn of the scanner's loop.
  method ScanPair(s: string, from: nat) returns (next: Option<Pair>, i: nat)
    requires from < |s|
    ensures FirstPair(s[from..]).None? <==> next.None?
    ensures next.Some? ==> from < i <= |s| && FirstPair(s[from..]) == Some((next.value, s[i..]))
  {
    i := ScanSpaces(s, from);
    var t := s[i..];
    var eq := IndexOf(t, '=');
    if eq < 0 {
      return None, i;
    }
    var key := TrimSpace(t[..eq]);
    i := i + eq + 1;
    assert s[i..] == t[eq + 1..];
    var val;
    val, i := ScanValue(s, i);
    next := Some(Pair(key, val));
  }

  method ScanSpaces(s: string, start: nat) returns (i: nat)
    requires start <= |s|
    ensures start <= i <= |s| && s[i..] == SkipSpaces(s[start..])
  {
    i := start;
    while i < |s| && s[i] == ' '
      invariant start <= i <= |s| && SkipSpaces(s[i..]) == SkipSpaces(s[start..])
    {
      assert s[i..][1..] == s[i + 1..];
      i := i + 1;
    }
  }

  // The two value loops of the scanner.
  method ScanValue(s: string, from: nat) returns (val: string, i: nat)
    requires from <= |s|
    ensures from <= i <= |s| && (val, s[i..]) == TakeValue(s[from..])
  {
    i := from;
    if i < |s| && s[i] == '"' {
      i := i + 1;
      var start := i;
      i := ScanTo(s, start, '"');
      val := s[start..i];
      assert s[from..][1..] == s[start..];
      if i < |s| {
        assert s[start..][i - start + 1..] == s[i + 1..];
        i := i + 1;
      } else {
        assert s[start..i] == s[start..] && s[i..] == "";
      }
    } else {
      i := ScanTo(s, from, ' ');
      val := s[from..i];
      if i < |s| {
        assert s[from..][i - from..] == s[i..];
      } else {
        assert s[from..i] == s[from..] && s[i..] == "";
      }
    }
  }

  method ScanTo(s: string, start: nat, c: char) returns (i: nat)
    requires start <= |s|
    ensures start <= i <= |s|
    ensures i == (if IndexOf(s[start..], c) < 0 then |s| else start + IndexOf(s[start..], c))
    ensures s[start..i] == s[start..][..i - start]
  {
    i := start;
    while i < |s| && s[i] != c
      invariant start <= i <= |s| && c !in s[start..i]
    {
      i := i + 1;
    }
    var t := s[start..];
    assert s[start..i] == t[..i - start];
    if i < |s| {
      assert t[i - start] == c;
    }
    IndexOfIs(t, c, i - start);
  }

  // ---- the printer ---------------------------------------------------------------------

  datatype Entry = Entry(pair: Pair, quoted: bool)

  // A pair that can be written in the chosen style.
  predicate Printable(e: Entry) {
    '=' !in e.pair.key && Trimmed(e.pair.key)
    && (if e.quoted then '"' !in e.pair.val
        else ' ' !in e.pair.val && (e.pair.val == "" || e.pair.val[0] != '"'))
  }

  function PrintEntry(e: Entry): string {
    e.pair.key + "=" + (if e.quoted then "\"" + e.pair.val + "\"" else e.pair.val)
  }

  function Print(es: seq<Entry>): string {
    if es == [] then ""
    else if |es| == 1 then PrintEntry(es[0])
    else PrintEntry(es[0]) + " " + Print(es[1..])
  }

  function Pairs(es: seq<Entry>): (ps: seq<Pair>)
    ensures |ps| == |es|
  {
    if es == [] then [] else [es[0].pair] + Pairs(es[1..])
  }

  lemma TakePrinted(val: string, quoted: bool, tail: string)
    requires Printable(Entry(Pair("", val), quoted)) && (tail == "" || tail[0] == ' ')
    ensures TakeValue((if quoted then "\"" + val + "\"" else val) + tail) == (val, tail)
  {
    if quoted {
      var s := "\"" + val + "\"" + tail;
      var t := s[1..];
      assert t == val + "\"" + tail && t[|val|] == '"' && t[..|val|] == val && t[|val| + 1..] == tail;
      IndexOfIs(t, '"', |val|);
    } else {
      var s := val + tail;
      assert s != "" && val == "" ==> s[0] == tail[0];
      assert val != "" ==> s[0] == val[0];
      assert s[..|val|] == val && s[|val|..] == tail;
      assert tail == "" ==> s == val;
      IndexOfIs(s, ' ', |val|);
    }
  }

  lemma FirstPrinted(e: Entry, tail: string)
    requires Printable(e) && (tail == "" || tail[0] == ' ')
    ensures FirstPair(PrintEntry(e) + tail) == Some((e.pair, tail))
  {
    var key, v := e.pair.key, if e.quoted then "\"" + e.pair.val + "\"" else e.pair.val;
    var s := PrintEntry(e) + tail;
    assert s == key + "=" + (v + tail);
    assert s[|key|] == '=' && s[..|key|] == key && s[|key| + 1..] == v + tail;
    assert s[0] == (if key == "" then '=' else key[0]);
    IndexOfIs(s, '=', |key|);
    TrimSpaceTrims(key);
    TakePrinted(e.pair.val, e.quoted, tail);
  }

  lemma {:induction false} SkipBefore(key: string, rest: string)
    requires '=' !in key
    ensures SkipSpaces(key + "=" + rest) == SkipSpaces(key) + "=" + rest && '=' !in SkipSpaces(key)
    ensures TrimSpace(SkipSpaces(key)) == TrimSpace(key)
  {
    if key != "" && key[0] == ' ' {
      assert (key + "=" + rest)[1..] == key[1..] + "=" + rest;
      SkipBefore(key[1..], rest);
    } else {
      assert (key + "=" + rest)[0] == if key == "" then '=' else key[0];
    }
  }

  /** What stands before the first = is the key, without white space around it. A value in quotes
      ends at the next quote, or with the text if there is none; a bare value ends at the next
      space. Without a = nothing is read. */
  lemma PairReads(key: string, val: string, after: string)
    requires '=' !in key
    ensures FirstPair(key) == None
    ensures '"' !in val ==>
      FirstPair(key + "=" + ("\"" + val + "\"" + after)) == Some((Pair(TrimSpace(key), val), after))
    ensures '"' !in val ==> FirstPair(key + "=" + ("\"" + val)) == Some((Pair(TrimSpace(key), val), ""))
    ensures ' ' !in val && (val == "" || val[0] != '"') && (after == "" || after[0] == ' ') ==>
      FirstPair(key + "=" + (val + after)) == Some((Pair(TrimSpace(key), val), after))
  {
    SkipBefore(key, "");
    var t := SkipSpaces(key);
    IndexOfIs(t, '=', |t|);
    assert t[..|t|] == t;
    if '"' !in val {
      QuotedReads(val, after);
      FirstPairIs(key, "\"" + val + "\"" + after);
      FirstPairIs(key, "\"" + val);
    }
    if ' ' !in val && (val == "" || val[0] != '"') && (after == "" || after[0] == ' ') {
      TakePrinted(val, false, after);
      FirstPairIs(key, val + after);
    }
  }

  lemma FirstPairIs(key: string, rest: string)
    requires '=' !in key
    ensures FirstPair(key + "=" + rest) == Some((Pair(TrimSpace(key), TakeValue(rest).0), TakeValue(rest).1))
  {
    SkipBefore(key, rest);
    var k := SkipSpaces(key);
    var t := k + "=" + rest;
    assert t[|k|] == '=' && t[..|k|] == k && t[|k| + 1..] == rest;
    IndexOfIs(t, '=', |k|);
  }

  lemma QuotedReads(val: string, after: string)
    requires '"' !in val
    ensures TakeValue("\"" + val + "\"" + after) == (val, after) && TakeValue("\"" + val) == (val, "")
  {
    var closed, open := "\"" + val + "\"" + after, "\"" + val;
    var t := closed[1..];
    assert t == val + "\"" + after && t[|val|] == '"' && t[..|val|] == val && t[|val| + 1..] == after;
    IndexOfIs(t, '"', |val|);
    assert open[1..] == val && val[..|val|] == val;
    IndexOfIs(val, '"', |val|);
  }

  // A separating space does not matter.
  lemma SpaceIsSkipped(s: string)
    ensures ParsePairs(" " + s) == ParsePairs(s)
  {
    assert (" " + s)[1..] == s;
    assert SkipSpaces(" " + s) == SkipSpaces(s);
    assert FirstPair(" " + s) == FirstPair(s);
  }

  lemma ParsePrinted(e: Entry, tail: string)
    requires Printable(e) && (tail == "" || tail[0] == ' ')
    ensures ParsePairs(PrintEntry(e) + tail) == [e.pair] + ParsePairs(tail)
  {
    FirstPrinted(e, tail);
  }

  predicate AllPrintable(es: seq<Entry>) {
    es == [] || (Printable(es[0]) && AllPrintable(es[1..]))
  }

  function Tail(es: seq<Entry>): string {
    if es == [] then "" else " " + Print(es)
  }

  lemma PrintCons(e: Entry, es: seq<Entry>)
    ensures Print([e] + es) == PrintEntry(e) + Tail(es)
  {
    assert ([e] + es)[1..] == es;
    if es == [] {
      assert [e] + es == [e];
    }
  }

  /** Reading what was printed gives back the pairs, whichever way each value was written. */
  lemma {:induction false} ParsePrint(es: seq<Entry>)
    requires AllPrintable(es)
    ensures ParsePairs(Print(es)) == Pairs(es)
  {
    if es != [] {
      var e, rest := es[0], es[1..];
      assert es == [e] + rest;
      ParsePrint(rest);
      PrintCons(e, rest);
      ParsePrinted(e, Tail(rest));
      SpaceIsSkipped(Print(rest));
    }
  }

  // The style a pair can always be written in: quoted, unless it holds a quote itself.
  function Style(p: Pair): Entry {
    Entry(p, '"' !in p.val)
  }

  function Styled(ps: seq<Pair>): (es: seq<Entry>)
    ensures |es| == |ps|
  {
    if ps == [] then [] else [Style(ps[0])] + Styled(ps[1..])
  }

  lemma {:induction false} PairsOfStyled(ps: seq<Pair>)
    ensures Pairs(Styled(ps)) == ps
  {
    if ps != [] {
      PairsOfStyled(ps[1..]);
    }
  }

  lemma TakenIsPrintable(s: string)
    ensures var v := TakeValue(s).0; '"' !in v || (' ' !in v && v[0] != '"')
  {
    if s != "" && s[0] == '"' {
      IndexOfFirst(s[1..], '"');
    } else {
      IndexOfFirst(s, ' ');
    }
  }

  lemma FirstIsPrintable(s: string)
    requires FirstPair(s).Some?
    ensures Printable(Style(FirstPair(s).value.0))
  {
    var t := SkipSpaces(s);
    var eq := IndexOf(t, '=');
    IndexOfFirst(t, '=');
    TrimSpaceTrims(t[..eq]);
    TakenIsPrintable(t[eq + 1..]);
  }

  lemma {:induction false} ParsedIsPrintable(s: string)
    ensures AllPrintable(Styled(ParsePairs(s)))
    decreases |s|
  {
    if FirstPair(s).Some? {
      var (p, after) := FirstPair(s).value;
      FirstIsPrintable(s);
      ParsedIsPrintable(after);
      assert ParsePairs(s)[0] == p && ParsePairs(s)[1..] == ParsePairs(after);
      StyledCons(p, ParsePairs(after));
    }
  }

  lemma StyledCons(p: Pair, ps: seq<Pair>)
    ensures Styled([p] + ps) == [Style(p)] + Styled(ps)
    ensures AllPrintable(Styled([p] + ps)) <==> Printable(Style(p)) && AllPrintable(Styled(ps))
  {
    assert ([p] + ps)[1..] == ps;
    assert ([Style(p)] + Styled(ps))[1..] == Styled(ps);
  }

  /** A list of pairs is the reading of some text exactly if each pair can be printed: so whatever
      text the scanner is given, printing what it read and reading again changes nothing. */
  lemma ParsedListsArePrintable(ps: seq<Pair>)
    ensures (exists s :: ParsePairs(s) == ps) <==> AllPrintable(Styled(ps))
    ensures AllPrintable(Styled(ps)) ==> ParsePairs(Print(Styled(ps))) == ps
  {
    forall s | ParsePairs(s) == ps ensures AllPrintable(Styled(ps)) {
      ParsedIsPrintable(s);
    }
    if AllPrintable(Styled(ps)) {
      ParsePrint(Styled(ps));
      PairsOfStyled(ps);
    }
  }

  // ---- the directive ---------------------------------------------------------------------

  datatype Spec = Spec(typeName: string, message: string, args: seq<string>, code: string, unwrap: string)

  const DIRECTIVE := "errxgen:"

  function Value(m: map<string, string>, k: string): string {
    if k in m then m[k] else ""
  }

  function SpecOf(m: map<string, string>, typeName: string): Spec {
    Spec(typeName, if Value(m, "message") == "" then typeName else Value(m, "message"),
         if Value(m, "args") == "" then [] else Split(Value(m, "args"), ','),
         Value(m, "code"), Value(m, "unwrap"))
  }

  function LineOf(comment: string): string {
    TrimSpace(TrimPrefix(comment, "//"))
  }

  // The first comment line with the directive decides.
  function DirectiveOf(doc: seq<string>, typeName: string): Option<Spec> {
    if doc == [] then None
    else if DIRECTIVE <= LineOf(doc[0]) then
      Some(SpecOf(Store(map[], ParsePairs(TrimSpace(LineOf(doc[0])[|DIRECTIVE|..]))), typeName))
    else DirectiveOf(doc[1..], typeName)
  }

  // The map is visited in an arbitrary order; the result does not depend on it.
  method ParseDirective(doc: seq<string>, typeName: string) returns (spec: Option<Spec>)
    ensures spec == DirectiveOf(doc, typeName)
  {
    assert doc[0..] == doc;
    for i := 0 to |doc|
      invariant DirectiveOf(doc[i..], typeName) == DirectiveOf(doc, typeName)
    {
      assert doc[i..][1..] == doc[i + 1..];
      var line := LineOf(doc[i]);
      if DIRECTIVE <= line {
        var m := ParseKV(TrimSpace(line[|DIRECTIVE|..]));
        var s := FillSpec(m, typeName);
        return Some(s);
      }
    }
    spec := None;
  }

  // The arguments are the parts between the commas of the value; an empty value has none.
  lemma ArgsRead(m: map<string, string>, typeName: string)
    ensures var args := SpecOf(m, typeName).args;
            (args == [] <==> !("args" in m && m["args"] != "")) && (args != [] ==> Join(args, ",") == m["args"])
            && forall i :: 0 <= i < |args| ==> ',' !in args[i]
  {
    JoinSplit(Value(m, "args"), ',');
  }

  method FillSpec(m: map<string, string>, typeName: string) returns (s: Spec)
    ensures s == SpecOf(m, typeName)
    ensures s.typeName == typeName
    ensures s.message == if "message" in m && m["message"] != "" then m["message"] else typeName
    ensures s.code == if "code" in m then m["code"] else ""
    ensures s.unwrap == if "unwrap" in m then m["unwrap"] else ""
    ensures s.args == [] <==> !("args" in m && m["args"] != "")
    ensures s.args != [] ==> Join(s.args, ",") == m["args"]
    ensures forall i :: 0 <= i < |s.args| ==> ',' !in s.args[i]
  {
    ArgsRead(m, typeName);
    s := FillKeys(m, typeName);
    if s.message == "" {
      s := s.(message := typeName);
    }
  }

  // What the keys met so far have filled in.
  function Filled(m: map<string, string>, typeName: string, todo: set<string>): Spec {
    Spec(typeName, if "message" in todo then "" else Value(m, "message"),
         if "args" in todo || Value(m, "args") == "" then [] else Split(Value(m, "args"), ','),
         if "code" in todo then "" else Value(m, "code"),
         if "unwrap" in todo then "" else Value(m, "unwrap"))
  }

  // The switch over one key.
  method FillKey(s: Spec, k: string, v: string) returns (t: Spec)
    ensures t == if k == "message" then s.(message := v)
                 else if k == "args" then (if v != "" then s.(args := Split(v, ',')) else s)
                 else if k == "code" then s.(code := v)
                 else if k == "unwrap" then s.(unwrap := v) else s
  {
    t := s;
    if k == "message" {
      t := t.(message := v);
    } else if k == "args" {
      if v != "" {
        t := t.(args := Split(v, ','));
      }
    } else if k == "code" {
      t := t.(code := v);
    } else if k == "unwrap" {
      t := t.(unwrap := v);
    }
  }

  method FillKeys(m: map<string, string>, typeName: string) returns (s: Spec)
    ensures s == Filled(m, typeName, {})
  {
    s := Spec(typeName, "", [], "", "");
    var todo := m.Keys;
    while todo != {}
      invariant todo <= m.Keys
      invariant s == Filled(m, typeName, todo)
      decreases todo
    {
      var k :| k in todo;
      s := FillKey(s, k, m[k]);
      todo := todo - {k};
    }
  }

  // The comment, without its marker, starts with the directive after any white space.
  ghost predicate HasDirective(comment: string) {
    var text := if "//" <= comment then comment[2..] else comment;
    exists left, body :: StartsAfter(text, left, body)
  }

  ghost predicate StartsAfter(text: string, left: string, body: string) {
    Blank(left) && text == left + (DIRECTIVE + body)
  }

  lemma {:induction false} BlankGoes(left: string, s: string)
    requires Blank(left)
    ensures TrimLeft(left + s) == TrimLeft(s)
  {
    if left == "" {
      assert left + s == s;
    } else {
      assert (left + s)[1..] == left[1..] + s;
      BlankGoes(left[1..], s);
    }
  }

  lemma DirectiveAfterBlank(left: string, body: string)
    requires Blank(left)
    ensures DIRECTIVE <= TrimSpace(left + (DIRECTIVE + body))
  {
    assert DIRECTIVE + body == "errxgen" + [':'] + body;
    BlankGoes(left, DIRECTIVE + body);
    DirectiveStays(body);
    BlankGoes("", DIRECTIVE + body);
  }

  lemma BlankBeforeDirective(text: string) returns (left: string, body: string)
    requires DIRECTIVE <= TrimSpace(text)
    ensures StartsAfter(text, left, body)
  {
    var right;
    left, right := TrimSpaceCuts(text);
    var t := TrimSpace(text);
    body := t[|DIRECTIVE|..] + right;
    assert t == DIRECTIVE + t[|DIRECTIVE|..];
    assert text == left + (DIRECTIVE + t[|DIRECTIVE|..]) + right;
  }

  lemma DirectiveIsSeen(comment: string)
    ensures HasDirective(comment) <==> DIRECTIVE <= LineOf(comment)
  {
    var text := if "//" <= comment then comment[2..] else comment;
    assert LineOf(comment) == TrimSpace(text);
    if HasDirective(comment) {
      var left, body :| StartsAfter(text, left, body);
      DirectiveAfterBlank(left, body);
    }
    if DIRECTIVE <= LineOf(comment) {
      var left, body := BlankBeforeDirective(text);
    }
  }

  /** Comment lines without the directive are passed over, the first one with it decides alone, and
      there is no specification exactly if no line has it. */
  lemma {:induction false} FirstDirectiveDecides(before: seq<string>, comment: string, after: seq<string>,
                                                 typeName: string)
    requires forall i :: 0 <= i < |before| ==> !HasDirective(before[i])
    ensures DirectiveOf(before, typeName) == None
    ensures HasDirective(comment) ==>
      DirectiveOf(before + [comment] + after, typeName) == DirectiveOf([comment], typeName) != None
    decreases |before|
  {
    var doc := before + [comment] + after;
    if before == [] {
      assert doc[0] == comment;
      DirectiveIsSeen(comment);
    } else {
      DirectiveIsSeen(before[0]);
      assert doc[0] == before[0] && doc[1..] == before[1..] + [comment] + after;
      FirstDirectiveDecides(before[1..], comment, after, typeName);
    }
  }

  // Whatever follows the directive on its line is read without the white space around it.
  lemma DirectiveReads(body: string, rest: seq<string>, typeName: string)
    ensures DirectiveOf(["//" + DIRECTIVE + " " + body] + rest, typeName)
         == Some(SpecOf(Store(map[], ParsePairs(TrimSpace(body))), typeName))
  {
    var comment := "//" + DIRECTIVE + " " + body;
    LineReads(body);
    assert ([comment] + rest)[0] == comment;
  }

  lemma LineReads(body: string)
    ensures var line := LineOf("//" + DIRECTIVE + " " + body);
            DIRECTIVE <= line && TrimSpace(line[|DIRECTIVE|..]) == TrimSpace(body)
  {
    var after := " " + body;
    assert ("//" + DIRECTIVE + " " + body)[2..] == "errxgen" + [':'] + after;
    DirectiveStays(after);
    assert (DIRECTIVE + TrimRight(after))[|DIRECTIVE|..] == TrimRight(after);
    TrimRightFirst(after);
    SpaceInFront(' ', body);
  }

  lemma DirectiveStays(after: string)
    ensures TrimSpace("errxgen" + [':'] + after) == DIRECTIVE + TrimRight(after)
  {
    assert TrimLeft("errxgen" + [':'] + after) == "errxgen" + [':'] + after by {
      NoSpaces();
    }
    AfterColon("errxgen", after);
    assert "errxgen" + [':'] == DIRECTIVE;
  }

  lemma NoSpaces()
    ensures !IsSpace('e') && !IsSpace(':') && !IsSpace('=') && !IsSpace('"')
  {
  }

  lemma AfterColon(a: string, b: string)
    ensures TrimRight(a + [':'] + b) == a + [':'] + TrimRight(b)
  {
    NoSpaces();
    TrimRightAfter(a, ':', b);
  }

  lemma AfterEquals(a: string, b: string)
    ensures TrimRight(a + ['='] + b) == a + ['='] + TrimRight(b)
  {
    NoSpaces();
    TrimRightAfter(a, '=', b);
  }

  lemma AfterQuote(a: string)
    ensures TrimRight(a + ['"']) == a + ['"']
  {
    NoSpaces();
    TrimRightAfter(a, '"', "");
    assert a + ['"'] + "" == a + ['"'];
  }

  // What is left of an entry at the end of the line.
  function ShownEntry(e: Entry): Entry {
    if e.quoted then e else Entry(Pair(e.pair.key, TrimRight(e.pair.val)), false)
  }

  function Shown(es: seq<Entry>): seq<Entry> {
    if es == [] then [] else es[..|es| - 1] + [ShownEntry(es[|es| - 1])]
  }

  // What precedes the last entry.
  function Front(es: seq<Entry>): string {
    if es == [] then "" else Print(es) + " "
  }

  lemma {:induction false} PrintSnoc(es: seq<Entry>, e: Entry)
    ensures Print(es + [e]) == Front(es) + PrintEntry(e)
  {
    if es == [] {
      assert es + [e] == [e];
    } else {
      var rest := es[1..];
      assert es + [e] == [es[0]] + (rest + [e]) && es == [es[0]] + rest;
      PrintSnoc(rest, e);
      PrintCons(es[0], rest + [e]);
      PrintCons(es[0], rest);
      FrontCons(es[0], rest, PrintEntry(e));
    }
  }

  lemma FrontCons(e: Entry, rest: seq<Entry>, last: string)
    ensures PrintEntry(e) + (" " + (Front(rest) + last)) == PrintEntry(e) + Tail(rest) + " " + last
  {
  }

  lemma PrintStartsTight(es: seq<Entry>)
    requires AllPrintable(es)
    ensures TrimLeft(Print(es)) == Print(es)
  {
    if es != [] {
      var key := es[0].pair.key;
      assert Print(es)[0] == if key == "" then '=' else key[0];
      NoSpaces();
    }
  }

  lemma TrimmedEntry(front: string, e: Entry)
    ensures TrimRight(front + PrintEntry(e)) == front + PrintEntry(ShownEntry(e))
  {
    if e.quoted {
      var head := front + (e.pair.key + "=" + ("\"" + e.pair.val));
      assert front + PrintEntry(e) == head + ['"'];
      AfterQuote(head);
    } else {
      var head := front + e.pair.key;
      BareAfter(front, e.pair.key, e.pair.val);
      BareAfter(front, e.pair.key, TrimRight(e.pair.val));
      AfterEquals(head, e.pair.val);
    }
  }

  lemma BareAfter(front: string, key: string, val: string)
    ensures front + (key + "=" + val) == front + key + ['='] + val
  {
  }

  lemma TrimmedPrint(es: seq<Entry>)
    requires AllPrintable(es)
    ensures TrimSpace(Print(es)) == Print(Shown(es))
  {
    PrintStartsTight(es);
    if es != [] {
      var n := |es| - 1;
      assert es == es[..n] + [es[n]];
      PrintSnoc(es[..n], es[n]);
      PrintSnoc(es[..n], ShownEntry(es[n]));
      TrimmedEntry(Front(es[..n]), es[n]);
    }
  }

  lemma {:induction false} ShownIsPrintable(es: seq<Entry>)
    requires AllPrintable(es)
    ensures AllPrintable(Shown(es))
  {
    if |es| == 1 {
      TrimRightTrims(es[0].pair.val);
    } else if |es| > 1 {
      ShownIsPrintable(es[1..]);
      assert es[1..][|es| - 2] == es[|es| - 1];
      assert Shown(es)[0] == es[0] && Shown(es)[1..] == Shown(es[1..]);
    }
  }

  /** A printed directive is understood, with any list of pairs: the first comment line that
      carries one gives the specification of the pairs printed, a bare value at the end of the
      line without the white space it ends in. So all pairs are read as they are if and only if
      the printed text does not end in white space. */
  lemma PrintedDirective(es: seq<Entry>, rest: seq<string>, typeName: string)
    requires AllPrintable(es)
    ensures DirectiveOf(["//" + DIRECTIVE + " " + Print(es)] + rest, typeName)
         == Some(SpecOf(Store(map[], Pairs(Shown(es))), typeName))
    ensures Pairs(Shown(es)) == Pairs(es) <==> Trimmed(Print(es))
  {
    DirectiveReads(Print(es), rest, typeName);
    TrimmedPrint(es);
    ShownIsPrintable(es);
    ParsePrint(Shown(es));
    ShownAsTheyAre(es);
  }

  lemma ShownAsTheyAre(es: seq<Entry>)
    requires AllPrintable(es)
    ensures Pairs(Shown(es)) == Pairs(es) <==> Trimmed(Print(es))
  {
    TrimmedPrint(es);
    TrimSpaceTrims(Print(es));
    if Trimmed(Print(es)) {
      ParsePrint(es);
      ShownIsPrintable(es);
      ParsePrint(Shown(es));
    } else if Pairs(Shown(es)) == Pairs(es) {
      SamePairsSameShown(es);
    }
  }

  lemma SamePairsSameShown(es: seq<Entry>)
    requires Pairs(Shown(es)) == Pairs(es)
    ensures Shown(es) == es
  {
    if es != [] {
      var n := |es| - 1;
      PairsAt(es, n);
      PairsAt(Shown(es), n);
      assert ShownEntry(es[n]) == es[n];
      assert es == es[..n] + [es[n]];
    }
  }

  lemma {:induction false} PairsAt(es: seq<Entry>, i: nat)
    requires i < |es|
    ensures Pairs(es)[i] == es[i].pair
  {
    if i > 0 {
      PairsAt(es[1..], i - 1);
    }
  }

  /** A list of arguments comes back from the one string it is written as if and only if no
      argument holds a comma and the list is not a single empty argument. */
  lemma ArgsComeBack(m: map<string, string>, typeName: string, args: seq<string>)
    ensures SpecOf(m["args" := Join(args, ",")], typeName).args == args
       <==> args != [""] && forall i :: 0 <= i < |args| ==> ',' !in args[i]
  {
    var v := Join(args, ",");
    JoinIsEmpty(args);
    if v != "" {
      JoinSplit(v, ',');
      if forall i :: 0 <= i < |args| ==> ',' !in args[i] {
        SplitJoin(args, ',');
      }
    }
  }

  lemma JoinIsEmpty(args: seq<string>)
    ensures Join(args, ",") == "" <==> args == [] || args == [""]
  {
    if |args| > 1 {
      assert |Join(args, ",")| == |args[0]| + 1 + |Join(args[1..], ",")|;
    }
  }
}
