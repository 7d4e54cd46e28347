/** The message of an error: Error() of errx.go and of the bundle in construct.go. */
module Messages {
  import opened Decimal
  import opened Errors
  import opened Tree
  import opened Inspect
  import opened Text

  // Error() of a nil interface panics in the source; no caller gets there.
  ghost function TextBy(x: Err, g: Graph, r: Ranking): string
    requires Ranks(g, r)
    decreases Height(x, r), x, 1
  {
    match x
    case Nil => ""
    case Structured(e) =>
      if e !in g then ""
      else if g[e].cause != Nil && !g[e].barrier then
        HeightMember(g[e].Unwrap(), g[e].cause, r);
        if g[e].texts.msg == "" then TextBy(g[e].cause, g, r)
        else g[e].texts.msg + ": " + TextBy(g[e].cause, g, r)
      else g[e].texts.msg
    case Multi(errs) =>
      if |errs| == 1 then
        HeightMember(errs, errs[0], r);
        TextBy(errs[0], g, r)
      else Itoa(|errs|) + " errors:" + ListBy(errs, g, r)
    case Foreign(text, _, _, _) => text
  }

  // One line per bundled error.
  ghost function ListBy(xs: seq<Err>, g: Graph, r: Ranking): string
    requires Ranks(g, r)
    decreases HeightAll(xs, r), xs, 0
  {
    if xs == [] then "" else "\n\t- " + TextBy(xs[0], g, r) + ListBy(xs[1..], g, r)
  }

  ghost function ErrorText(x: Err, g: Graph): string
    requires Acyclic(g)
  {
    TextBy(x, g, RankOf(g))
  }

  ghost function ErrorTexts(xs: seq<Err>, g: Graph): string
    requires Acyclic(g)
  {
    ListBy(xs, g, RankOf(g))
  }

  // A list of errors as messages.
  ghost function TextsOf(xs: seq<Err>, g: Graph): seq<string>
    requires Acyclic(g)
  {
    if xs == [] then [] else TextsOf(xs[..|xs| - 1], g) + [ErrorText(xs[|xs| - 1], g)]
  }

  // Each in its place.
  lemma {:induction false} TextsOfAt(xs: seq<Err>, g: Graph)
    requires Acyclic(g)
    ensures |TextsOf(xs, g)| == |xs|
    ensures forall i :: 0 <= i < |xs| ==> TextsOf(xs, g)[i] == ErrorText(xs[i], g)
  {
    if xs != [] {
      TextsOfAt(xs[..|xs| - 1], g);
    }
  }

  lemma TextsOfCons(xs: seq<Err>, g: Graph)
    requires Acyclic(g) && xs != []
    ensures TextsOf(xs, g) == [ErrorText(xs[0], g)] + TextsOf(xs[1..], g)
  {
    TextsOfAt(xs, g);
    TextsOfAt(xs[1..], g);
  }

  const BULLET: string := "\n\t- "

  lemma {:induction false} JoinedTexts(head: string, xs: seq<Err>, g: Graph)
    requires Acyclic(g)
    ensures Join([head] + TextsOf(xs, g), BULLET) == head + ErrorTexts(xs, g)
    decreases |xs|
  {
    if xs == [] {
      assert [head] + TextsOf(xs, g) == [head];
    } else {
      var first, rest := ErrorText(xs[0], g), TextsOf(xs[1..], g);
      TextsOfCons(xs, g);
      JoinedTexts(first, xs[1..], g);
      JoinCons(head, [first] + rest, BULLET);
      Assoc(head, BULLET, first + ErrorTexts(xs[1..], g));
      Assoc(BULLET, first, ErrorTexts(xs[1..], g));
    }
  }

  /** The text of a bundle: that of its only error, else a count and the texts, joined. */
  lemma BundleText(errs: seq<Err>, g: Graph)
    requires Acyclic(g)
    ensures |errs| == 1 ==> ErrorText(Multi(errs), g) == ErrorText(errs[0], g)
    ensures |errs| != 1 ==>
      ErrorText(Multi(errs), g) == Join([Itoa(|errs|) + " errors:"] + TextsOf(errs, g), BULLET)
  {
    JoinedTexts(Itoa(|errs|) + " errors:", errs, g);
  }

  lemma CauseIsLower(e: Error, g: Graph)
    requires Acyclic(g) && Closed(g) && e in g && g[e].cause != Nil && !g[e].barrier
    ensures Known(g[e].cause, g.Keys) && Level(g[e].cause, g) < Level(Structured(e), g)
  {
    HeightMember(g[e].Unwrap(), g[e].cause, RankOf(g));
  }

  // x.Error()
  method ErrorString(x: Err, ghost g: Graph) returns (s: string)
    requires Mirrors(g) && Sound(g) && Known(x, g.Keys)
    ensures s == ErrorText(x, g)
    decreases Level(x, g), Size(x)
  {
    match x
    case Nil => s := "";
    case Foreign(text, _, _, _) => s := text;
    case Multi(errs) => s := BundleString(errs, g);
    case Structured(e) =>
      if e.cause != Nil && !e.barrier {
        CauseIsLower(e, g);
        s := ErrorString(e.cause, g);
        if e.msg != "" {
          s := e.msg + ": " + s;
        }
      } else {
        s := e.msg;
      }
  }

  // (*multiError).Error
  method BundleString(errs: seq<Err>, ghost g: Graph) returns (s: string)
    requires Mirrors(g) && Sound(g) && AllKnown(errs, g.Keys)
    ensures s == ErrorText(Multi(errs), g)
    decreases LevelAll(errs, g), SizeAll(errs), 1
  {
    if |errs| == 1 {
      NextChild(errs, 0, g);
      s := ErrorString(errs[0], g);
      return;
    }
    s := AppendList(Itoa(|errs|) + " errors:", errs, g);
  }

  // The loop over the bundled errors, into a buffer that starts with `head`.
  method AppendList(head: string, errs: seq<Err>, ghost g: Graph) returns (s: string)
    requires Mirrors(g) && Sound(g) && AllKnown(errs, g.Keys)
    ensures s == head + ErrorTexts(errs, g)
    decreases LevelAll(errs, g), SizeAll(errs), 0
  {
    s := head;
    for i := 0 to |errs|
      invariant s + ErrorTexts(errs[i..], g) == head + ErrorTexts(errs, g)
    {
      NextChild(errs, i, g);
      assert errs[i..][1..] == errs[i + 1..];
      var text := ErrorString(errs[i], g);
      Assoc(s, "\n\t- " + text, ErrorTexts(errs[i + 1..], g));
      Assoc(s, "\n\t- ", text);
      s := s + "\n\t- ";
      s := s + text;
    }
    assert errs[|errs|..] == [];
  }
}
