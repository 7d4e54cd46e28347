/**
 Redaction as a two-run property: two error graphs that differ only in the values of fields
 not marked safe, anywhere in them, look the same through every projection.
 */
module NonInterference {
  import opened Values
  import opened Errors
  import opened Tree
  import opened Messages
  import opened Migration
  import opened Projection
  import opened Codec

  // Same keys, same flags, and same values where safe.
  ghost predicate SameShown(fs: seq<Field>, gs: seq<Field>) {
    |fs| == |gs| && forall i :: 0 <= i < |fs| ==>
      fs[i].key == gs[i].key && fs[i].safe == gs[i].safe && (fs[i].safe ==> fs[i].value == gs[i].value)
  }

  // Nothing but unsafe field values differs.
  ghost predicate Alike(g: Graph, h: Graph) {
    g.Keys == h.Keys && forall e :: e in g ==>
      SameShown(g[e].fields, h[e].fields) && h[e] == g[e].(fields := h[e].fields)
  }

  // Nothing but fields differs, and the safe ones are the same: unsafe fields may even be absent.
  ghost predicate AlikeOnWire(g: Graph, h: Graph) {
    g.Keys == h.Keys && forall e :: e in g ==>
      SafeOnly(g[e].fields) == SafeOnly(h[e].fields) && h[e] == g[e].(fields := h[e].fields)
  }

  // Nothing but fields differs.
  ghost predicate SameButFields(g: Graph, h: Graph) {
    g.Keys == h.Keys && forall e :: e in g ==> h[e] == g[e].(fields := h[e].fields)
  }

  lemma {:induction false} TextIgnoresFields(x: Err, g: Graph, h: Graph, r: Ranking, q: Ranking)
    requires SameButFields(g, h) && Ranks(g, r) && Ranks(h, q)
    ensures TextBy(x, h, q) == TextBy(x, g, r)
    decreases Height(x, r), x, 1
  {
    match x
    case Structured(e) =>
      if e in g && g[e].cause != Nil && !g[e].barrier {
        HeightMember(g[e].Unwrap(), g[e].cause, r);
        TextIgnoresFields(g[e].cause, g, h, r, q);
      }
    case Multi(errs) =>
      if |errs| == 1 {
        HeightMember(errs, errs[0], r);
        TextIgnoresFields(errs[0], g, h, r, q);
      } else {
        ListIgnoresFields(errs, g, h, r, q);
      }
    case _ =>
  }

  lemma {:induction false} ListIgnoresFields(xs: seq<Err>, g: Graph, h: Graph, r: Ranking, q: Ranking)
    requires SameButFields(g, h) && Ranks(g, r) && Ranks(h, q)
    ensures ListBy(xs, h, q) == ListBy(xs, g, r)
    decreases HeightAll(xs, r), xs, 0
  {
    if xs != [] {
      TextIgnoresFields(xs[0], g, h, r, q);
      ListIgnoresFields(xs[1..], g, h, r, q);
    }
  }

  lemma {:induction false} ListingIgnoresFields(x: Err, g: Graph, h: Graph, r: Ranking, q: Ranking)
    requires SameButFields(g, h) && Ranks(g, r) && Ranks(h, q)
    ensures PreBy(x, h, q) == PreBy(x, g, r)
    decreases Height(x, r), x, 1
  {
    match x
    case Nil =>
    case Structured(e) => if e in g { ListingsIgnoreFields(g[e].Unwrap(), g, h, r, q); }
    case Multi(errs) => ListingsIgnoreFields(errs, g, h, r, q);
    case Foreign(_, _, Leaf, _) =>
    case Foreign(_, _, One(c), _) => ListingIgnoresFields(c, g, h, r, q);
    case Foreign(_, _, Many(cs), _) => ListingsIgnoreFields(cs, g, h, r, q);
  }

  lemma {:induction false} ListingsIgnoreFields(xs: seq<Err>, g: Graph, h: Graph, r: Ranking, q: Ranking)
    requires SameButFields(g, h) && Ranks(g, r) && Ranks(h, q)
    ensures PreAllBy(xs, h, q) == PreAllBy(xs, g, r)
    decreases HeightAll(xs, r), xs, 0
  {
    if xs != [] {
      ListingIgnoresFields(xs[0], g, h, r, q);
      ListingsIgnoreFields(xs[1..], g, h, r, q);
    }
  }

  lemma AcyclicIgnoresFields(g: Graph, h: Graph)
    requires SameButFields(g, h) && Acyclic(g)
    ensures Acyclic(h)
  {
    assert forall e :: e in g ==> h[e].Unwrap() == g[e].Unwrap();
    assert Ranks(h, RankOf(g));
  }

  lemma {:induction false} TextsIgnoreFields(xs: seq<Err>, g: Graph, h: Graph)
    requires SameButFields(g, h) && Acyclic(g) && Acyclic(h)
    ensures TextsOf(xs, h) == TextsOf(xs, g)
  {
    if xs != [] {
      TextsIgnoreFields(xs[..|xs| - 1], g, h);
      TextIgnoresFields(xs[|xs| - 1], g, h, RankOf(g), RankOf(h));
    }
  }

  lemma {:induction false} TraceIgnoresFields(e: Error, g: Graph, h: Graph, age: Ranking)
    requires SameButFields(g, h) && CausesDescend(g, age) && CausesDescend(h, age) && e in g
    ensures Trace(e, h, age) == Trace(e, g, age)
    decreases age[e]
  {
    if g[e].cause.Structured? {
      TraceIgnoresFields(g[e].cause.e, g, h, age);
    }
  }

  lemma {:induction false} RedactionHides(fs: seq<Field>, gs: seq<Field>)
    requires SameShown(fs, gs)
    ensures Redact(fs) == Redact(gs) && FieldAttrs(fs) == FieldAttrs(gs) && SafeOnly(fs) == SafeOnly(gs)
  {
    if fs != [] {
      RedactionHides(fs[..|fs| - 1], gs[..|gs| - 1]);
    }
  }

  /** The same errors are visible, the nearest *Error is the same one, and every message and
      fingerprint is the same. */
  lemma SearchesIgnoreUnsafeValues(x: Err, e: Error, g: Graph, h: Graph)
    requires Alike(g, h) && Acyclic(g) && e in g
    ensures Acyclic(h) && Pre(x, h) == Pre(x, g) && ErrorText(x, h) == ErrorText(x, g)
    ensures h[e].Fingerprint() == g[e].Fingerprint()
  {
    AcyclicIgnoresFields(g, h);
    ListingIgnoresFields(x, g, h, RankOf(g), RankOf(h));
    TextIgnoresFields(x, g, h, RankOf(g), RankOf(h));
  }

  lemma RecordsLookAlike(r: Record, s: Record, docs: Docs, message: string, trace: seq<Frame>,
                         suppressed: seq<string>, cause: string)
    requires SameShown(r.fields, s.fields) && s == r.(fields := s.fields)
    ensures ReportOf(s, docs, message, trace, suppressed, cause) == ReportOf(r, docs, message, trace, suppressed, cause)
    ensures LogAttrs(s, message) == LogAttrs(r, message)
  {
    RedactionHides(r.fields, s.fields);
  }

  lemma TextsOfObjectAgree(e: Error, g: Graph, h: Graph)
    requires SameButFields(g, h) && Acyclic(g) && Acyclic(h) && e in g
    ensures ErrorText(Structured(e), h) == ErrorText(Structured(e), g)
    ensures ErrorText(h[e].cause, h) == ErrorText(g[e].cause, g)
    ensures TextsOf(h[e].suppressed, h) == TextsOf(g[e].suppressed, g)
  {
    TextIgnoresFields(Structured(e), g, h, RankOf(g), RankOf(h));
    TextIgnoresFields(g[e].cause, g, h, RankOf(g), RankOf(h));
    TextsIgnoreFields(g[e].suppressed, g, h);
  }

  lemma AgesIgnoreFields(g: Graph, h: Graph, age: Ranking)
    requires SameButFields(g, h) && CausesDescend(g, age)
    ensures CausesDescend(h, age)
  {
    assert forall e :: e in g ==> h[e].cause == g[e].cause;
    SameCausesDescend(g, h, age);
  }

  /** Snapshot does not depend on the value of any field not marked safe. */
  lemma SnapshotIgnoresUnsafeValues(e: Error, g: Graph, h: Graph, age: Ranking, docs: Docs)
    requires Alike(g, h) && Acyclic(g) && CausesDescend(g, age) && e in g
    ensures Acyclic(h) && CausesDescend(h, age)
    ensures SnapshotOf(e, h, age, docs) == SnapshotOf(e, g, age, docs)
  {
    AcyclicIgnoresFields(g, h);
    AgesIgnoreFields(g, h, age);
    TextsOfObjectAgree(e, g, h);
    TraceIgnoresFields(e, g, h, age);
    RecordsLookAlike(g[e], h[e], docs, ErrorText(Structured(e), g), Trace(e, g, age),
                     TextsOf(g[e].suppressed, g), ErrorText(g[e].cause, g));
  }

  /** Neither does LogValue. */
  lemma LogIgnoresUnsafeValues(e: Error, g: Graph, h: Graph)
    requires Alike(g, h) && Acyclic(g) && e in g
    ensures Acyclic(h) && LogOf(e, h) == LogOf(e, g)
  {
    AcyclicIgnoresFields(g, h);
    TextsOfObjectAgree(e, g, h);
    RecordsLookAlike(g[e], h[e], map[], ErrorText(Structured(e), g), [], [], "");
  }

  lemma WiresLookAlike(r: Record, s: Record, g: Graph, h: Graph)
    requires Acyclic(g) && Acyclic(h) && s == r.(fields := s.fields) && SafeOnly(s.fields) == SafeOnly(r.fields)
    requires TextsOf(r.suppressed, h) == TextsOf(r.suppressed, g) && ErrorText(r.cause, h) == ErrorText(r.cause, g)
    ensures WireOf(s, h) == WireOf(r, g)
  {
  }

  /** The wire form does not even tell whether unsafe fields are there. */
  lemma WireIgnoresUnsafeFields(e: Error, g: Graph, h: Graph)
    requires AlikeOnWire(g, h) && Acyclic(g) && e in g
    ensures Acyclic(h) && WireOf(h[e], h) == WireOf(g[e], g)
  {
    AcyclicIgnoresFields(g, h);
    TextsOfObjectAgree(e, g, h);
    WiresLookAlike(g[e], h[e], g, h);
  }

  lemma AlikeIsAlikeOnWire(g: Graph, h: Graph)
    requires Alike(g, h)
    ensures AlikeOnWire(g, h)
  {
    forall e | e in g ensures SafeOnly(g[e].fields) == SafeOnly(h[e].fields) {
      RedactionHides(g[e].fields, h[e].fields);
    }
  }

  /** So graphs that differ in unsafe values only are sent as the same wire value, and come back as
      the same record. */
  lemma WireIgnoresUnsafeValues(e: Error, g: Graph, h: Graph, m: Migrations)
    requires Alike(g, h) && Acyclic(g) && e in g
    ensures Acyclic(h) && WireOf(h[e], h) == WireOf(g[e], g)
    ensures Decoded(WireOf(h[e], h), m) == Decoded(WireOf(g[e], g), m)
  {
    AlikeIsAlikeOnWire(g, h);
    WireIgnoresUnsafeFields(e, g, h);
  }
}
