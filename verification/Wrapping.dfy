/** Wrap and Note of construct.go, and what any number of nested wraps preserves. */
module Wrapping {
  import opened Common
  import opened Values
  import opened Text
  import opened Errors
  import opened Tree
  import opened Inspect
  import opened Messages
  import opened Projection
  import Edits

  // The object Wrap builds around err.
  ghost function WrapRecord(g: Graph, err: Err, msg: string, site: Option<Frame>, captured: seq<Frame>): Record
    requires Acyclic(g)
  {
    Fresh(msg, err, site, captured).(id := IdentityOf(Pre(err, g), g))
  }

  method Wrap(err: Err, msg: string, site: Option<Frame>, captured: seq<Frame>, ghost g: Graph) returns (w: Error?)
    requires Mirrors(g) && Sound(g) && Known(err, g.Keys)
    ensures w == null <==> err == Nil
    ensures w != null ==> fresh(w) && w.Value() == WrapRecord(g, err, msg, site, captured)
    ensures w != null ==> w.cause == err && w.suppressed == [] && !w.barrier && w.fields == []
    ensures w != null ==> w.Text() == Texts(msg, "", "", "", "", map[]) && w.traceID == w.spanID == w.fp == ""
    ensures w != null ==> w.origin == Origin(site, captured, []) && w.Value().Frames() == captured
    ensures w != null ==>
      match FirstError(Pre(err, g))
      case Some(e) => e in g && w.Id() == g[e].id
      case None => w.Id() == Identity("", "", EXPECTED, SEV_ERROR, false, 0)
    ensures Mirrors(g)
  {
    if err == Nil {
      return null;
    }
    NearestIsKnown(err, g);
    var inner := Get(err, g);
    w := NewWrapper(err, msg, site, captured, inner);
  }

  // The annotated object, with the identity of the inner error if there is one.
  method NewWrapper(err: Err, msg: string, site: Option<Frame>, captured: seq<Frame>, inner: Option<Error>)
    returns (w: Error)
    ensures fresh(w)
    ensures w.Value() == if inner.None? then Fresh(msg, err, site, captured)
                         else Fresh(msg, err, site, captured).(id := inner.value.Id())
  {
    w := new Error(Fresh(msg, err, site, captured));
    if inner.Some? {
      w.domain, w.code, w.class_ := inner.value.domain, inner.value.code, inner.value.class_;
      w.severity, w.retryable, w.retryAfter := inner.value.severity, inner.value.retryable, inner.value.retryAfter;
    }
  }

  // Note: a breadcrumb on the nearest *Error in place, or on a thin wrapper.
  method Note(err: Err, key: string, value: Value, site: Option<Frame>, captured: seq<Frame>, ghost g: Graph)
    returns (out: Err)
    requires Mirrors(g) && Sound(g) && Known(err, g.Keys)
    modifies g.Keys`fields, g.Keys`fp
    ensures var e := FirstError(Pre(err, g));
            if err == Nil then out == Nil && Mirrors(g)
            else if e.Some? then
              e.value in g && out == err
              && Mirrors(g[e.value := g[e.value].(fields := g[e.value].fields + [Field(key, value, false)], fp := "")])
            else
              out.Structured? && fresh(out.e) && Mirrors(g)
              && out.e.Value() == Record(
                   Identity("", "", EXPECTED, SEV_ERROR, false, 0), Texts("", "", "", "", "", map[]), "", "",
                   [Field(key, value, false)], err, [], false, Origin(site, captured, []), "")
  {
    if err == Nil {
      return Nil;
    }
    NearestIsKnown(err, g);
    var e := Get(err, g);
    if e.Some? {
      NoteOn(e.value, key, value, g);
      return err;
    }
    var thin := new Error(Fresh("", err, site, captured).(fields := [Field(key, value, false)]));
    out := Structured(thin);
  }

  method NoteOn(e: Error, key: string, value: Value, ghost g: Graph)
    requires Mirrors(g) && e in g
    modifies e`fields, e`fp
    ensures Mirrors(g[e := g[e].(fields := g[e].fields + [Field(key, value, false)], fp := "")])
  {
    e.Annotate(key, value);
  }

  // ---- nested wraps ------------------------------------------------------------------

  // What ws[..n] are wrapped around: the last of them, or the innermost error.
  function Outermost(inner: Err, ws: seq<Error>): Err {
    if ws == [] then inner else Structured(ws[|ws| - 1])
  }

  // The arguments of one Wrap call that its object keeps for good.
  datatype Layer = Layer(msg: string, site: Option<Frame>)

  // rec still wraps err as Wrap left it. Fields, ids, texts other than the message, and the
  // cached fingerprint may have been set since.
  ghost predicate IsWrap(g: Graph, rec: Record, err: Err, layer: Layer)
    requires Acyclic(g)
  {
    rec.cause == err && rec.suppressed == [] && !rec.barrier
    && rec.texts.msg == layer.msg && rec.origin.wrapSite == layer.site && rec.id == IdentityOf(Pre(err, g), g)
  }

  // ws are wrappers around inner, innermost first.
  ghost predicate WrapChain(g: Graph, inner: Err, ws: seq<Error>, layers: seq<Layer>)
    requires Acyclic(g)
    decreases |ws|
  {
    |ws| == |layers| && inner != Nil &&
    (ws == [] ||
     (var n := |ws| - 1;
      ws[n] in g && IsWrap(g, g[ws[n]], Outermost(inner, ws[..n]), layers[n])
      && WrapChain(g, inner, ws[..n], layers[..n])))
  }

  // h has every object of g, and what the searches read off them has not changed.
  ghost predicate Keeps(g: Graph, h: Graph) {
    forall x :: x in g ==> x in h && SameShape(g[x], h[x])
  }

  predicate SameShape(r: Record, s: Record) {
    s.id == r.id && s.texts.msg == r.texts.msg && s.cause == r.cause && s.suppressed == r.suppressed
    && s.barrier == r.barrier && s.origin == r.origin
  }

  lemma KeptShape(r: Record, s: Record)
    requires SameShape(r, s)
    ensures s.Unwrap() == r.Unwrap()
  {
  }

  ghost predicate SameEdges(g: Graph, h: Graph) {
    forall x :: x in g ==> x in h && h[x].Unwrap() == g[x].Unwrap()
  }

  lemma KeptEdges(g: Graph, h: Graph)
    requires Keeps(g, h)
    ensures SameEdges(g, h)
  {
    forall x | x in g ensures x in h && h[x].Unwrap() == g[x].Unwrap() {
      KeptShape(g[x], h[x]);
    }
  }

  lemma {:induction false} ExtensionUnchanged(y: Err, g: Graph, h: Graph, r: Ranking, q: Ranking)
    requires Ranks(g, r) && Ranks(h, q) && Closed(g) && Known(y, g.Keys)
    requires SameEdges(g, h)
    ensures PreBy(y, h, q) == PreBy(y, g, r)
    decreases Height(y, r), y, 1
  {
    match y
    case Nil =>
    case Structured(z) => ExtensionsUnchanged(g[z].Unwrap(), g, h, r, q);
    case Multi(errs) => ExtensionsUnchanged(errs, g, h, r, q);
    case Foreign(_, _, Leaf, _) =>
    case Foreign(_, _, One(c), _) => ExtensionUnchanged(c, g, h, r, q);
    case Foreign(_, _, Many(cs), _) => ExtensionsUnchanged(cs, g, h, r, q);
  }

  lemma {:induction false} ExtensionsUnchanged(ys: seq<Err>, g: Graph, h: Graph, r: Ranking, q: Ranking)
    requires Ranks(g, r) && Ranks(h, q) && Closed(g) && AllKnown(ys, g.Keys)
    requires SameEdges(g, h)
    ensures PreAllBy(ys, h, q) == PreAllBy(ys, g, r)
    decreases HeightAll(ys, r), ys, 0
  {
    if ys != [] {
      ExtensionUnchanged(ys[0], g, h, r, q);
      ExtensionsUnchanged(ys[1..], g, h, r, q);
    }
  }

  // The wrappers, outermost first.
  function Layers(ws: seq<Error>): seq<Err> {
    if ws == [] then [] else [Structured(ws[|ws| - 1])] + Layers(ws[..|ws| - 1])
  }

  lemma PrefixChain(g: Graph, inner: Err, ws: seq<Error>, layers: seq<Layer>)
    requires Acyclic(g) && WrapChain(g, inner, ws, layers) && ws != []
    ensures var n := |ws| - 1; var w, below := ws[n], Outermost(inner, ws[..n]);
            w in g && g[w].cause == below && below != Nil && !g[w].barrier && g[w].texts.msg == layers[n].msg
            && g[w].origin.wrapSite == layers[n].site && g[w].Unwrap() == [below]
            && g[w].id == IdentityOf(Pre(below, g), g)
  {
    var rec, below := g[ws[|ws| - 1]], Outermost(inner, ws[..|ws| - 1]);
    assert rec.Unwrap() == [below];
  }

  /** A wrapper sees itself, the wrappers inside it, then all that the innermost error sees;
      its identity is that of the innermost error's nearest *Error. */
  lemma {:induction false} ChainList(g: Graph, inner: Err, ws: seq<Error>, layers: seq<Layer>)
    requires Acyclic(g) && WrapChain(g, inner, ws, layers)
    ensures Pre(Outermost(inner, ws), g) == Layers(ws) + Pre(inner, g)
    ensures IdentityOf(Pre(Outermost(inner, ws), g), g) == IdentityOf(Pre(inner, g), g)
    ensures forall x :: x in Layers(ws) ==>
      x.Structured? && x.e in g && g[x.e].id == IdentityOf(Pre(inner, g), g)
    ensures ws != [] ==> FirstError(Pre(Outermost(inner, ws), g)) == Some(ws[|ws| - 1]) && ws[|ws| - 1] in g
    decreases |ws|
  {
    if ws != [] {
      PrefixChain(g, inner, ws, layers);
      var n := |ws| - 1;
      var top, below := Structured(ws[n]), Outermost(inner, ws[..n]);
      ChainList(g, inner, ws[..n], layers[..n]);
      PreUnfold(top, g);
      PreOne(below, g);
      Assoc([top], Layers(ws[..n]), Pre(inner, g));
    }
  }

  /** HasCode for every non-empty code, and the retry data, are those of the innermost error
      however often it is wrapped. */
  lemma WrapsPreserveCodes(g: Graph, inner: Err, ws: seq<Error>, layers: seq<Layer>, code: string)
    requires Acyclic(g) && Closed(g) && Known(inner, g.Keys) && WrapChain(g, inner, ws, layers) && code != ""
    ensures Carries(Pre(Outermost(inner, ws), g), g, code) <==> Carries(Pre(inner, g), g, code)
    ensures IdentityOf(Pre(Outermost(inner, ws), g), g) == IdentityOf(Pre(inner, g), g)
  {
    ChainList(g, inner, ws, layers);
    CarriesAppend(Layers(ws), Pre(inner, g), g, code);
    if Carries(Layers(ws), g, code) {
      var x :| x in Layers(ws) && CodeOf(x, g) == Some(code);
      IdentityIsCarried(inner, g);
    }
  }

  lemma IdentityIsCarried(x: Err, g: Graph)
    requires Acyclic(g) && Closed(g) && Known(x, g.Keys)
    ensures IdentityOf(Pre(x, g), g).code != "" ==> Carries(Pre(x, g), g, IdentityOf(Pre(x, g), g).code)
  {
    NearestIsKnown(x, g);
    var e := FirstError(Pre(x, g));
    if e.Some? {
      FirstErrorIsListed(Pre(x, g));
      assert CodeOf(Structured(e.value), g) == Some(g[e.value].id.code);
    }
  }

  /** ClassOf survives wrapping if and only if the innermost error holds an *Error or no context
      sentinel: a wrapped bare cancellation reads as expected. */
  lemma WrapsPreserveClass(g: Graph, inner: Err, ws: seq<Error>, layers: seq<Layer>)
    requires Acyclic(g) && Closed(g) && Known(inner, g.Keys) && WrapChain(g, inner, ws, layers) && ws != []
    ensures var l := Pre(inner, g);
            Class_(Pre(Outermost(inner, ws), g), g) == Class_(l, g) <==>
              FirstError(l).Some? || !(HasSentinel(l, Canceled) || HasSentinel(l, DeadlineExceeded))
  {
    ChainList(g, inner, ws, layers);
    NearestIsKnown(inner, g);
  }

  /** Code of a wrapped error: the inherited code if there is one, else what the innermost error
      resolved. Wrapping again changes nothing more. */
  lemma CodeOfWraps(g: Graph, inner: Err, ws: seq<Error>, layers: seq<Layer>)
    requires Acyclic(g) && WrapChain(g, inner, ws, layers) && ws != []
    ensures var own := IdentityOf(Pre(inner, g), g).code;
            FirstCode(Pre(Outermost(inner, ws), g), g) == if own != "" then own else FirstCode(Pre(inner, g), g)
  {
    ChainList(g, inner, ws, layers);
    FirstCodeAppend(Layers(ws), Pre(inner, g), g);
    CodeOfLayers(Layers(ws), g, IdentityOf(Pre(inner, g), g).code);
  }

  lemma {:induction false} CodeOfLayers(l: seq<Err>, g: Graph, code: string)
    requires l != [] && forall x :: x in l ==> CodeOf(x, g) == Some(code)
    ensures FirstCode(l, g) == code
  {
    assert l[0] in l;
    if |l| > 1 {
      CodeOfLayers(l[1..], g, code);
    } else {
      assert l[1..] == [];
    }
  }

  // The non-empty messages, outermost first.
  function Spoken(layers: seq<Layer>): seq<string> {
    if layers == [] then []
    else
      var last, rest := layers[|layers| - 1].msg, Spoken(layers[..|layers| - 1]);
      if last == "" then rest else [last] + rest
  }

  /** Error() of nested wraps is the non-empty messages, outermost first, then the text of the
      innermost error, joined by ": ". */
  lemma {:induction false} TextOfWraps(g: Graph, inner: Err, ws: seq<Error>, layers: seq<Layer>)
    requires Acyclic(g) && WrapChain(g, inner, ws, layers)
    ensures ErrorText(Outermost(inner, ws), g) == Join(Spoken(layers) + [ErrorText(inner, g)], ": ")
    decreases |ws|
  {
    if ws == [] {
      assert layers == [] && Spoken(layers) + [ErrorText(inner, g)] == [ErrorText(inner, g)];
    } else {
      PrefixChain(g, inner, ws, layers);
      var n := |ws| - 1;
      TextOfWraps(g, inner, ws[..n], layers[..n]);
      SpokenStep(layers, ErrorText(inner, g));
    }
  }

  lemma SpokenStep(layers: seq<Layer>, text: string)
    requires layers != []
    ensures var n := |layers| - 1; var rest := Join(Spoken(layers[..n]) + [text], ": ");
            Join(Spoken(layers) + [text], ": ") == if layers[n].msg == "" then rest else layers[n].msg + ": " + rest
  {
    var last, rest := layers[|layers| - 1].msg, Spoken(layers[..|layers| - 1]) + [text];
    if last != "" {
      assert Spoken(layers) + [text] == [last] + rest;
      JoinCons(last, rest, ": ");
    }
  }

  // The sites handed to the Wrap calls, the last call first.
  function Sites(layers: seq<Layer>): seq<Frame> {
    if layers == [] then []
    else
      var site := layers[|layers| - 1].site;
      (if site.Some? then [site.value] else []) + Sites(layers[..|layers| - 1])
  }

  ghost function TraceUnder(x: Err, g: Graph, age: Ranking): seq<Frame>
    requires CausesDescend(g, age)
  {
    if x.Structured? && x.e in g then Trace(x.e, g, age) else []
  }

  /** The return trace of nested wraps: the sites handed to the Wrap calls, the last call first,
      then the trace of the innermost error. */
  lemma {:induction false} TraceOfWraps(g: Graph, age: Ranking, inner: Err, ws: seq<Error>, layers: seq<Layer>)
    requires Acyclic(g) && CausesDescend(g, age) && WrapChain(g, inner, ws, layers)
    ensures TraceUnder(Outermost(inner, ws), g, age) == Sites(layers) + TraceUnder(inner, g, age)
    decreases |ws|
  {
    if ws != [] {
      var n := |ws| - 1;
      PrefixChain(g, inner, ws, layers);
      TraceOfWraps(g, age, inner, ws[..n], layers[..n]);
      Assoc(SiteOf(g[ws[n]]), Sites(layers[..n]), TraceUnder(inner, g, age));
    }
  }

  // A younger object changes no older trace.
  lemma {:induction false} TraceExtended(e: Error, g: Graph, age: Ranking, w: Error, rec: Record, younger: Ranking)
    requires CausesDescend(g, age) && e in g && w !in g
    requires CausesDescend(g[w := rec], younger)
    ensures Trace(e, g[w := rec], younger) == Trace(e, g, age)
    decreases age[e]
  {
    if g[e].cause.Structured? {
      TraceExtended(g[e].cause.e, g, age, w, rec, younger);
    }
  }

  /** What Wrap returns has the stack handed to it, and its trace is the site handed to it
      followed by the trace its cause had before. */
  lemma TraceAfterWrap(g: Graph, age: Ranking, err: Err, w: Error, msg: string, site: Frame, captured: seq<Frame>)
    requires Sound(g) && CausesDescend(g, age) && Known(err, g.Keys) && w !in g
    ensures var h := g[w := WrapRecord(g, err, msg, Some(site), captured)];
            var younger := age[w := AgeOver(err, age)];
            h[w].Frames() == captured && CausesDescend(h, younger)
            && Trace(w, h, younger) == [site] + TraceUnder(err, g, age)
  {
    var rec, younger := WrapRecord(g, err, msg, Some(site), captured), age[w := AgeOver(err, age)];
    FreshIsYounger(g, age, w, rec);
    if err.Structured? {
      TraceExtended(err.e, g, age, w, rec, younger);
    }
  }

  /** Each Wrap of the outermost error, in the graph as it then is, extends the chain: the
      lemmas above hold of every error built by nested calls. */
  lemma WrapExtendsChain(g: Graph, inner: Err, ws: seq<Error>, layers: seq<Layer>, w: Error, msg: string,
                         site: Option<Frame>, captured: seq<Frame>)
    requires Sound(g) && WrapChain(g, inner, ws, layers) && Known(inner, g.Keys) && w !in g
    ensures var h := g[w := WrapRecord(g, Outermost(inner, ws), msg, site, captured)];
            Sound(h) && WrapChain(h, inner, ws + [w], layers + [Layer(msg, site)]) && Known(inner, h.Keys)
  {
    OutermostIsKnown(g, inner, ws, layers);
    WrapIsSound(g, Outermost(inner, ws), w, msg, site, captured);
    ChainExtended(g, inner, ws, layers, w, WrapRecord(g, Outermost(inner, ws), msg, site, captured), Layer(msg, site));
  }

  lemma ChainExtended(g: Graph, inner: Err, ws: seq<Error>, layers: seq<Layer>, w: Error, rec: Record,
                      layer: Layer)
    requires Sound(g) && WrapChain(g, inner, ws, layers) && Known(inner, g.Keys) && w !in g
    requires Sound(g[w := rec]) && IsWrap(g[w := rec], rec, Outermost(inner, ws), layer)
    ensures WrapChain(g[w := rec], inner, ws + [w], layers + [layer]) && Known(inner, g[w := rec].Keys)
  {
    ExtensionKeeps(g, w, rec);
    ChainUnchanged(g, g[w := rec], inner, ws, layers);
    KnownMore(inner, g.Keys, g[w := rec].Keys);
    ChainSnoc(g[w := rec], inner, ws, layers, w, layer);
  }

  lemma ExtensionKeeps(g: Graph, w: Error, rec: Record)
    requires w !in g
    ensures Keeps(g, g[w := rec])
  {
  }

  lemma ChainSnoc(h: Graph, inner: Err, ws: seq<Error>, layers: seq<Layer>, w: Error, layer: Layer)
    requires Acyclic(h) && WrapChain(h, inner, ws, layers)
    requires w in h && IsWrap(h, h[w], Outermost(inner, ws), layer)
    ensures WrapChain(h, inner, ws + [w], layers + [layer])
  {
    assert (ws + [w])[..|ws|] == ws && (layers + [layer])[..|ws|] == layers;
  }

  lemma OutermostIsKnown(g: Graph, inner: Err, ws: seq<Error>, layers: seq<Layer>)
    requires Acyclic(g) && WrapChain(g, inner, ws, layers) && Known(inner, g.Keys)
    ensures Known(Outermost(inner, ws), g.Keys)
  {
  }

  lemma WrapIsSound(g: Graph, err: Err, w: Error, msg: string, site: Option<Frame>, captured: seq<Frame>)
    requires Sound(g) && Known(err, g.Keys) && w !in g
    ensures var h := g[w := WrapRecord(g, err, msg, site, captured)]; Sound(h) && IsWrap(h, h[w], err, Layer(msg, site))
  {
    var rec := WrapRecord(g, err, msg, site, captured);
    var h := g[w := rec];
    ExtensionIsSound(g, w, rec);
    ExtensionKeeps(g, w, rec);
    WrapIsWrap(g, h, err, msg, site, captured);
  }

  lemma WrapIsWrap(g: Graph, h: Graph, err: Err, msg: string, site: Option<Frame>, captured: seq<Frame>)
    requires Sound(g) && Acyclic(h) && Known(err, g.Keys) && Keeps(g, h)
    ensures IsWrap(h, WrapRecord(g, err, msg, site, captured), err, Layer(msg, site))
  {
    IdentityUnchanged(err, g, h);
  }

  // An edit that only decorates: it leaves identity, message, suppressed errors and visibility.
  predicate Decorates(op: Edits.Edit) {
    op.Public? || op.Hint? || op.Owner? || op.Trace? || op.Unsafe? || op.Safe? || op.Note? || op.URL?
    || op.Localized? || op.Context? || op.Fingerprint?
  }

  lemma DecoratedShape(op: Edits.Edit, r: Record)
    requires Decorates(op)
    ensures SameShape(r, Edits.Apply(op, r))
  {
  }

  lemma SameShapeIsSound(g: Graph, h: Graph)
    requires Sound(g) && Keeps(g, h) && h.Keys == g.Keys
    ensures Sound(h)
  {
    KeptEdges(g, h);
    SameEdgesAcyclic(g, h);
    KeptClosed(g, h);
  }

  lemma SameEdgesAcyclic(g: Graph, h: Graph)
    requires Acyclic(g) && SameEdges(g, h) && h.Keys == g.Keys
    ensures Acyclic(h)
  {
    assert Ranks(h, RankOf(g));
  }

  lemma KeptClosed(g: Graph, h: Graph)
    requires Closed(g) && Keeps(g, h) && h.Keys == g.Keys
    ensures Closed(h)
  {
    assert forall x :: x in h ==> SameShape(g[x], h[x]);
  }

  /** The chain outlives what is done to its objects afterwards: fields, breadcrumbs, hints, ids,
      context data and cached fingerprints, on any object of the graph. */
  lemma EditsKeepChain(g: Graph, inner: Err, ws: seq<Error>, layers: seq<Layer>, x: Error, op: Edits.Edit)
    requires Sound(g) && WrapChain(g, inner, ws, layers) && Known(inner, g.Keys) && x in g && Decorates(op)
    ensures var h := g[x := Edits.Apply(op, g[x])]; Sound(h) && WrapChain(h, inner, ws, layers)
  {
    var h := g[x := Edits.Apply(op, g[x])];
    DecoratedShape(op, g[x]);
    SameShapeIsSound(g, h);
    ChainUnchanged(g, h, inner, ws, layers);
  }

  lemma {:induction false} ChainUnchanged(g: Graph, h: Graph, inner: Err, ws: seq<Error>, layers: seq<Layer>)
    requires Sound(g) && Acyclic(h) && WrapChain(g, inner, ws, layers) && Known(inner, g.Keys)
    requires Keeps(g, h)
    ensures WrapChain(h, inner, ws, layers)
    decreases |ws|
  {
    if ws != [] {
      var n := |ws| - 1;
      OutermostIsKnown(g, inner, ws[..n], layers[..n]);
      ChainUnchanged(g, h, inner, ws[..n], layers[..n]);
      var below := Outermost(inner, ws[..n]);
      IdentityUnchanged(below, g, h);
    }
  }

  lemma IdentityUnchanged(x: Err, g: Graph, h: Graph)
    requires Sound(g) && Acyclic(h) && Known(x, g.Keys) && Keeps(g, h)
    ensures Pre(x, h) == Pre(x, g) && IdentityOf(Pre(x, h), h) == IdentityOf(Pre(x, g), g)
  {
    KeptEdges(g, h);
    ExtensionUnchanged(x, g, h, RankOf(g), RankOf(h));
    NearestIsKnown(x, g);
  }

  lemma {:induction false} KnownMore(x: Err, a: set<Error>, b: set<Error>)
    requires Known(x, a) && a <= b
    ensures Known(x, b)
  {
    match x
    case Multi(errs) => forall c | c in errs ensures Known(c, b) { KnownMore(c, a, b); }
    case Foreign(_, _, One(c), _) => KnownMore(c, a, b);
    case Foreign(_, _, Many(cs), _) => forall c | c in cs ensures Known(c, b) { KnownMore(c, a, b); }
    case _ =>
  }

  lemma {:induction false} HeightUnchanged(x: Err, r: Ranking, q: Ranking)
    requires Known(x, r.Keys) && forall y :: y in r ==> y in q && q[y] == r[y]
    ensures Height(x, q) == Height(x, r)
    decreases x, 1
  {
    match x
    case Multi(errs) => HeightsUnchanged(errs, r, q);
    case Foreign(_, _, One(c), _) => HeightUnchanged(c, r, q);
    case Foreign(_, _, Many(cs), _) => HeightsUnchanged(cs, r, q);
    case _ =>
  }

  lemma {:induction false} HeightsUnchanged(xs: seq<Err>, r: Ranking, q: Ranking)
    requires AllKnown(xs, r.Keys) && forall y :: y in r ==> y in q && q[y] == r[y]
    ensures HeightAll(xs, q) == HeightAll(xs, r)
    decreases xs, 0
  {
    if xs != [] {
      HeightUnchanged(xs[0], r, q);
      HeightsUnchanged(xs[1..], r, q);
    }
  }

  // A fresh object whose record mentions only old objects keeps the graph sound.
  lemma ExtensionIsSound(g: Graph, w: Error, rec: Record)
    requires Sound(g) && w !in g && Known(rec.cause, g.Keys) && AllKnown(rec.suppressed, g.Keys)
    ensures Sound(g[w := rec])
  {
    ExtensionIsAcyclic(g, w, rec);
    ExtensionIsClosed(g, w, rec);
  }

  lemma ExtensionIsAcyclic(g: Graph, w: Error, rec: Record)
    requires Sound(g) && w !in g && Known(rec.cause, g.Keys) && AllKnown(rec.suppressed, g.Keys)
    ensures Acyclic(g[w := rec])
  {
    var h, r := g[w := rec], RankOf(g);
    var q := r[w := HeightAll(rec.Unwrap(), r)];
    forall x | x in h ensures HeightAll(h[x].Unwrap(), q) <= q[x] {
      HeightsUnchanged(h[x].Unwrap(), r, q);
    }
    assert Ranks(h, q);
  }

  lemma ExtensionIsClosed(g: Graph, w: Error, rec: Record)
    requires Closed(g) && w !in g && Known(rec.cause, g.Keys) && AllKnown(rec.suppressed, g.Keys)
    ensures Closed(g[w := rec])
  {
    var h := g[w := rec];
    forall x | x in h ensures Known(h[x].cause, h.Keys) && AllKnown(h[x].suppressed, h.Keys) {
      KnownMore(h[x].cause, g.Keys, h.Keys);
      AllKnownMore(h[x].suppressed, g.Keys, h.Keys);
    }
  }

  lemma AllKnownMore(xs: seq<Err>, a: set<Error>, b: set<Error>)
    requires AllKnown(xs, a) && a <= b
    ensures AllKnown(xs, b)
  {
    forall c | c in xs ensures Known(c, b) {
      KnownMore(c, a, b);
    }
  }
}
