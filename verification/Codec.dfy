/**
 The wire form of codec.go, at the level of its struct: encoding keeps safe fields only,
 decoding rebuilds a typed error and rewrites retired codes. JSON text is left out: a wire
 value is assumed to come back as it was sent.
 */
module Codec {
  import opened Common
  import opened Values
  import opened Hashing
  import opened Errors
  import Edits
  import opened Tree
  import opened Inspect
  import opened Messages
  import opened Migration
  import opened Projection
  import opened Suppression

  // ---- the wire form -----------------------------------------------------------------

  datatype Wire = Wire(
    domain: string, code: string, class_: Class, severity: Severity,
    msg: string, public: string, hint: string, owner: string,
    retryable: bool, retryAfter: Duration, traceID: string, spanID: string,
    fields: seq<Field>, stack: seq<Frame>, suppressed: seq<string>, cause: string, fp: string)

  // What MarshalJSON projects; g only gives the texts of the cause and the suppressed errors.
  ghost function WireOf(r: Record, g: Graph): Wire
    requires Acyclic(g)
  {
    Wire(r.id.domain, r.id.code, r.id.class_, r.id.severity,
         r.texts.msg, r.texts.public, r.texts.hint, r.texts.owner,
         r.id.retryable, Positive(r.id.retryAfter), r.traceID, r.spanID,
         SafeOnly(r.fields), r.Frames(), TextsOf(r.suppressed, g), ErrorText(r.cause, g), r.Fingerprint())
  }

  function PlainErrors(texts: seq<string>): seq<Err> {
    if texts == [] then [] else PlainErrors(texts[..|texts| - 1]) + [PlainError(texts[|texts| - 1])]
  }

  function PlainCause(text: string): Err {
    if text != "" then PlainError(text) else Nil
  }

  // What Decode builds.
  function Decoded(w: Wire, m: Migrations): Record {
    Record(
      Identity(w.domain, Migrated(m, w.code), w.class_, w.severity, w.retryable,
               if w.retryAfter.Some? then w.retryAfter.value else 0),
      Texts(w.msg, w.public, w.hint, w.owner, "", map[]), w.traceID, w.spanID, w.fields,
      PlainCause(w.cause), PlainErrors(w.suppressed), false,
      Origin(None, [], w.stack), w.fp)
  }

  lemma {:induction false} PlainErrorsAt(texts: seq<string>)
    ensures |PlainErrors(texts)| == |texts|
    ensures forall i :: 0 <= i < |texts| ==> PlainErrors(texts)[i] == Foreign(texts[i], None, Leaf, Ordinary)
  {
    if texts != [] {
      PlainErrorsAt(texts[..|texts| - 1]);
    }
  }

  method MarshalJSON(e: Error, ghost g: Graph) returns (w: Wire)
    requires Mirrors(g) && Sound(g) && e in g
    modifies e`fp
    ensures w == WireOf(g[e], g) && Mirrors(Cached(g, e))
  {
    w := AssembleWire(e, g);
    var _ := CacheKey(e, g);
  }

  method AssembleWire(e: Error, ghost g: Graph) returns (w: Wire)
    requires Mirrors(g) && Sound(g) && e in g
    ensures w == WireOf(g[e], g)
  {
    var r := e.Value();
    var fields := SafeFields(r.fields);
    var cause := ErrorString(r.cause, g);
    var suppressed := ErrorStrings(r.suppressed, g);
    w := Wire(r.id.domain, r.id.code, r.id.class_, r.id.severity,
              r.texts.msg, r.texts.public, r.texts.hint, r.texts.owner,
              r.id.retryable, Positive(r.id.retryAfter), r.traceID, r.spanID,
              fields, r.Frames(), suppressed, cause, r.Fingerprint());
  }

  // The envelope for an error that holds no *Error.
  function Envelope(msg: string): Wire {
    Wire("", "", EXPECTED, SEV_ERROR, msg, "", "", "", false, None, "", "", [], [], [], "", "")
  }

  // None stands for the JSON text null.
  method Encode(err: Err, ghost g: Graph) returns (w: Option<Wire>)
    requires Mirrors(g) && Sound(g) && Known(err, g.Keys)
    modifies g.Keys`fp
    ensures var e := FirstError(Pre(err, g));
            if e.Some? then e.value in g && w == Some(WireOf(g[e.value], g)) && Mirrors(Cached(g, e.value))
            else Mirrors(g) && w == if err == Nil then None else Some(
                   Wire("", "", EXPECTED, SEV_ERROR, ErrorText(err, g), "", "", "", false, None, "", "",
                        [], [], [], "", ""))
  {
    NearestIsKnown(err, g);
    var e := Get(err, g);
    if e.Some? {
      var sent := MarshalJSON(e.value, g);
      return Some(sent);
    }
    if err == Nil {
      return None;
    }
    var msg := ErrorString(err, g);
    w := Some(Envelope(msg));
  }

  method Decode(w: Wire, reg: Registry) returns (e: Error)
    ensures fresh(e) && e.Value() == Decoded(w, reg.codeMig)
    ensures e.docURL == "" && e.localized == map[] && !e.barrier && e.origin == Origin(None, [], w.stack)
    ensures e.fields == w.fields && e.fp == w.fp && e.traceID == w.traceID && e.spanID == w.spanID
    ensures e.cause == if w.cause == "" then Nil else Foreign(w.cause, None, Leaf, Ordinary)
    ensures |e.suppressed| == |w.suppressed|
    ensures forall i :: 0 <= i < |w.suppressed| ==> e.suppressed[i] == Foreign(w.suppressed[i], None, Leaf, Ordinary)
  {
    var code := reg.MigrateCode(w.code);
    var suppressed: seq<Err> := [];
    for i := 0 to |w.suppressed|
      invariant suppressed == PlainErrors(w.suppressed[..i])
    {
      PrefixStep(w.suppressed, i);
      suppressed := suppressed + [PlainError(w.suppressed[i])];
    }
    assert w.suppressed[..|w.suppressed|] == w.suppressed;
    PlainErrorsAt(w.suppressed);
    var after := if w.retryAfter.Some? then w.retryAfter.value else 0;
    var cause := if w.cause != "" then PlainError(w.cause) else Nil;
    e := new Error(Record(
      Identity(w.domain, code, w.class_, w.severity, w.retryable, after),
      Texts(w.msg, w.public, w.hint, w.owner, "", map[]), w.traceID, w.spanID, w.fields,
      cause, suppressed, false, Origin(None, [], w.stack), w.fp));
  }

  // ---- round trips -------------------------------------------------------------------

  // What every projected wire value satisfies.
  ghost predicate Projected(w: Wire) {
    (forall i :: 0 <= i < |w.fields| ==> w.fields[i].safe)
    && (w.retryAfter.Some? ==> w.retryAfter.value > 0) && w.fp != ""
  }

  lemma {:induction false} SafeOnlyIsSafe(fs: seq<Field>)
    ensures forall i :: 0 <= i < |SafeOnly(fs)| ==> SafeOnly(fs)[i].safe
  {
    if fs != [] {
      SafeOnlyIsSafe(fs[..|fs| - 1]);
    }
  }

  lemma {:induction false} SafeOnlyOfSafe(fs: seq<Field>)
    requires forall i :: 0 <= i < |fs| ==> fs[i].safe
    ensures SafeOnly(fs) == fs
  {
    if fs != [] {
      SafeOnlyOfSafe(fs[..|fs| - 1]);
      assert fs == fs[..|fs| - 1] + [fs[|fs| - 1]];
    }
  }

  lemma {:induction false} PlainTexts(texts: seq<string>, g: Graph)
    requires Acyclic(g)
    ensures TextsOf(PlainErrors(texts), g) == texts
  {
    if texts != [] {
      var n := |texts| - 1;
      PlainTexts(texts[..n], g);
      TextsOfSnoc(PlainErrors(texts[..n]), PlainError(texts[n]), g);
      assert texts == texts[..n] + [texts[n]];
    }
  }

  lemma TextsOfSnoc(xs: seq<Err>, x: Err, g: Graph)
    requires Acyclic(g)
    ensures TextsOf(xs + [x], g) == TextsOf(xs, g) + [ErrorText(x, g)]
  {
    assert (xs + [x])[..|xs|] == xs;
  }

  lemma WireIsProjected(r: Record, g: Graph)
    requires Acyclic(g)
    ensures Projected(WireOf(r, g))
  {
    SafeOnlyIsSafe(r.fields);
  }

  /** The safe fields are sent, each as often as it stands there and in order, and no others. */
  lemma SafeFieldsAreSent(r: Record, g: Graph, before: seq<Field>, f: Field, after: seq<Field>)
    requires Acyclic(g)
    ensures multiset(WireOf(r, g).fields)[f] == if f.safe then multiset(r.fields)[f] else 0
    ensures r.fields == before + [f] + after ==>
      WireOf(r, g).fields == SafeOnly(before) + (if f.safe then [f] else []) + SafeOnly(after)
  {
    SafeOnlyCounts(r.fields, f);
    SafeOnlyMiddle(before, f, after);
  }

  lemma {:induction false} SafeOnlyOfRedact(fs: seq<Field>)
    ensures SafeOnly(Redact(fs)) == SafeOnly(fs)
  {
    if fs != [] {
      SafeOnlyOfRedact(fs[..|fs| - 1]);
      assert Redact(fs)[..|Redact(fs)| - 1] == Redact(fs[..|fs| - 1]);
    }
  }

  // The report, the wire value and the record name the same error.
  ghost predicate SameHeading(h: Heading, w: Wire, r: Record) {
    && h.domain == w.domain == r.id.domain && h.code == w.code == r.id.code
    && h.class_ == w.class_ == r.id.class_ && h.severity == w.severity == r.id.severity
    && h.retryable == w.retryable == r.id.retryable && h.public == w.public == r.texts.public
    && h.owner == w.owner == r.texts.owner && h.localized == r.texts.localized
    && h.traceID == w.traceID == r.traceID && h.spanID == w.spanID == r.spanID
    && h.fingerprint == w.fp == r.Fingerprint()
    && h.retryAfter == w.retryAfter == if r.id.retryAfter > 0 then Some(r.id.retryAfter) else None
  }

  /** Snapshot and MarshalJSON tell the same story of one object: the report has the full message
      and every field, the wire value the bare message and the report's safe fields. A missing
      hint or address comes from the documentation of the code, in the report only. */
  lemma ProjectionsAgree(e: Error, g: Graph, age: Ranking, docs: Docs)
    requires Acyclic(g) && CausesDescend(g, age) && e in g
    ensures var rep, w, r := SnapshotOf(e, g, age, docs), WireOf(g[e], g), g[e];
            SameHeading(rep.head, w, r)
            && w.msg == r.texts.msg && w.hint == r.texts.hint && rep.head.message == ErrorText(Structured(e), g)
            && SafeOnly(rep.fields) == w.fields == SafeOnly(r.fields) && |rep.fields| == |r.fields|
            && rep.trail.stack == w.stack == r.Frames() && rep.trail.trace == Trace(e, g, age)
            && rep.trail.suppressed == w.suppressed && |w.suppressed| == |r.suppressed|
            && (forall i :: 0 <= i < |r.suppressed| ==> w.suppressed[i] == ErrorText(r.suppressed[i], g))
            && rep.trail.cause == w.cause == ErrorText(r.cause, g)
    ensures var h, r := SnapshotOf(e, g, age, docs).head, g[e];
            var documented := r.id.code != "" && r.id.code in docs;
            h.hint == (if r.texts.hint != "" then r.texts.hint
                       else if documented then docs[r.id.code].remediation else "")
            && h.docURL == (if r.texts.docURL != "" then r.texts.docURL
                            else if documented then docs[r.id.code].url else "")
  {
    SafeOnlyOfRedact(g[e].fields);
    RedactAt(g[e].fields);
    TextsOfAt(g[e].suppressed, g);
  }

  /** One hop loses nothing that was sent: encoding what was decoded gives the same wire value,
      with the code migrated. */
  lemma HopKeepsWire(w: Wire, m: Migrations, g: Graph)
    requires Acyclic(g) && Projected(w)
    ensures WireOf(Decoded(w, m), g) == w.(code := Migrated(m, w.code))
  {
    SafeOnlyOfSafe(w.fields);
    PlainTexts(w.suppressed, g);
    PlainCauseText(w.cause, g);
  }

  lemma PlainCauseText(cause: string, g: Graph)
    requires Acyclic(g)
    ensures ErrorText(PlainCause(cause), g) == cause
  {
  }

  // A wire value after n hops.
  ghost function Hops(w: Wire, m: Migrations, g: Graph, n: nat): Wire
    requires Acyclic(g)
    decreases n
  {
    if n == 0 then w else Hops(WireOf(Decoded(w, m), g), m, g, n - 1)
  }

  function MigratedTimes(m: Migrations, c: string, n: nat): string
    decreases n
  {
    if n == 0 then c else MigratedTimes(m, Migrated(m, c), n - 1)
  }

  /** Any number of hops only migrates the code that often. */
  lemma {:induction false} ManyHops(w: Wire, m: Migrations, g: Graph, n: nat)
    requires Acyclic(g) && Projected(w)
    ensures Hops(w, m, g, n) == w.(code := MigratedTimes(m, w.code, n))
    decreases n
  {
    HopKeepsWire(w, m, g);
    if n > 0 {
      ManyHops(WireOf(Decoded(w, m), g), m, g, n - 1);
    }
  }

  lemma {:induction false} MigratedStays(m: Migrations, c: string, n: nat)
    requires Migrated(m, c) == c
    ensures MigratedTimes(m, c, n) == c
  {
    if n > 0 {
      MigratedStays(m, c, n - 1);
    }
  }

  /** So later hops change nothing if and only if migration is idempotent on the code sent. */
  lemma LaterHopsAreIdle(r: Record, m: Migrations, g: Graph)
    requires Acyclic(g)
    ensures (forall n: nat :: n >= 1 ==> Hops(WireOf(r, g), m, g, n) == Hops(WireOf(r, g), m, g, 1))
       <==> Migrated(m, Migrated(m, r.id.code)) == Migrated(m, r.id.code)
  {
    var w, c := WireOf(r, g), Migrated(m, r.id.code);
    WireIsProjected(r, g);
    ManyHops(w, m, g, 1);
    ManyHops(w, m, g, 2);
    assert MigratedTimes(m, r.id.code, 2) == MigratedTimes(m, c, 1) == Migrated(m, c);
    if Migrated(m, c) == c {
      forall n: nat | n >= 1 ensures Hops(w, m, g, n) == Hops(w, m, g, 1) {
        ManyHops(w, m, g, n);
        MigratedStays(m, c, n - 1);
      }
    }
  }

  // The hash, fed the domain, merges the code sent and the migrated code.
  predicate SameState(id: Identity, m: Migrations) {
    Write(OFFSET, id.domain + [NUL] + Migrated(m, id.code)) == Write(OFFSET, id.domain + [NUL] + id.code)
  }

  /** The decoded error keeps the sender's fingerprint, which need not be the one its own
      identity would give. It is current if and only if the hash merges the two codes; neither
      the frame nor anything else can make up for that. */
  lemma FingerprintSurvives(r: Record, m: Migrations, g: Graph)
    requires Acyclic(g)
    ensures Decoded(WireOf(r, g), m).Fingerprint() == r.Fingerprint()
    ensures Edits.CacheOk(r) ==> (Edits.CacheOk(Decoded(WireOf(r, g), m)) <==> SameState(r.id, m))
  {
    var at := r.OriginFrame();
    assert Decoded(WireOf(r, g), m).OriginFrame() == at;
    KeyTellsCodes(r.id.domain, Migrated(m, r.id.code), r.id.code, at.function_, at.line);
  }

  /** So it is current if migration keeps the code, and stale if it changes exactly one byte. */
  lemma MigratedKeyIsStale(r: Record, m: Migrations, g: Graph, a: string, x: char, y: char, b: string)
    requires Acyclic(g) && Edits.CacheOk(r)
    ensures Migrated(m, r.id.code) == r.id.code ==> Edits.CacheOk(Decoded(WireOf(r, g), m))
    ensures r.id.code == a + [x] + b && Migrated(m, r.id.code) == a + [y] + b && x as int % 256 != y as int % 256
            ==> !Edits.CacheOk(Decoded(WireOf(r, g), m))
  {
    FingerprintSurvives(r, m, g);
    if r.id.code == a + [x] + b && Migrated(m, r.id.code) == a + [y] + b && x as int % 256 != y as int % 256 {
      var at := r.OriginFrame();
      OneByteChangesKey(r.id.domain, a, x, y, b, at.function_, at.line);
      KeyTellsCodes(r.id.domain, Migrated(m, r.id.code), r.id.code, at.function_, at.line);
    }
  }

  /** Error() of a decoded error is the sender's text exactly if there was no cause, or an
      opaque one without text, or a visible one with text or under an empty message. */
  lemma TextAfterHop(e: Error, g: Graph, d: Error, h: Graph, m: Migrations)
    requires Acyclic(g) && Acyclic(h) && e in g && d in h && h[d] == Decoded(WireOf(g[e], g), m)
    ensures var r, cause := g[e], ErrorText(g[e].cause, g);
            ErrorText(Structured(d), h) == ErrorText(Structured(e), g) <==>
              r.cause == Nil || (if r.barrier then cause == "" else cause != "" || r.texts.msg == "")
  {
    var r, c := g[e], ErrorText(g[e].cause, g);
    var sent := ErrorText(Structured(e), g);
    assert ErrorText(PlainError(c), h) == c;
    if r.cause != Nil {
      assert sent == if r.barrier then r.texts.msg else if r.texts.msg == "" then c else r.texts.msg + ": " + c;
      assert |r.texts.msg + ": " + c| == |r.texts.msg| + 2 + |c|;
    }
  }

  // Nothing below a decoded error has a code or is an *Error.
  ghost predicate Plain(x: Err) {
    x.Foreign? && x.ownCode.None? && x.unwrap.Leaf? && x.sentinel == Ordinary
  }

  lemma {:induction false} PlainList(xs: seq<Err>, h: Graph)
    requires Acyclic(h) && forall i :: 0 <= i < |xs| ==> Plain(xs[i])
    ensures PreAll(xs, h) == xs && FirstCode(xs, h) == ""
  {
    if xs != [] {
      PlainList(xs[1..], h);
      assert PreAll(xs, h) == Pre(xs[0], h) + PreAll(xs[1..], h);
    }
  }

  lemma {:induction false} PlainErrorsArePlain(texts: seq<string>)
    ensures forall i :: 0 <= i < |PlainErrors(texts)| ==> Plain(PlainErrors(texts)[i])
  {
    if texts != [] {
      PlainErrorsArePlain(texts[..|texts| - 1]);
    }
  }

  lemma RootOverPlain(d: Error, h: Graph, code: string)
    requires Acyclic(h) && d in h
    requires forall i :: 0 <= i < |h[d].Unwrap()| ==> Plain(h[d].Unwrap()[i])
    ensures FirstCode(Pre(Structured(d), h), h) == h[d].id.code
    ensures Carries(Pre(Structured(d), h), h, code) <==> code == h[d].id.code
    ensures FirstError(Pre(Structured(d), h)) == Some(d)
    ensures forall s: Sentinel :: s != Ordinary ==> !HasSentinel(Pre(Structured(d), h), s)
  {
    var root, kids := Structured(d), h[d].Unwrap();
    PlainList(kids, h);
    PreUnfold(root, h);
    FirstCodeAppend([root], kids, h);
    assert forall x :: x in kids ==> CodeOf(x, h).None?;
    CarriesAppend([root], kids, h, code);
    assert root in [root];
  }

  /** On the far side Code and HasCode answer with the migrated code of the object that was sent
      and nothing else, and no context sentinel is seen; class, retry flag and any positive delay are the sender's. */
  lemma IdentityAfterHop(r: Record, g: Graph, d: Error, h: Graph, m: Migrations, code: string)
    requires Acyclic(g) && Acyclic(h) && d in h && h[d] == Decoded(WireOf(r, g), m)
    ensures FirstCode(Pre(Structured(d), h), h) == Migrated(m, r.id.code)
    ensures Carries(Pre(Structured(d), h), h, code) <==> code == Migrated(m, r.id.code)
    ensures forall s: Sentinel :: s != Ordinary ==> !HasSentinel(Pre(Structured(d), h), s)
    ensures Class_(Pre(Structured(d), h), h) == r.id.class_
    ensures IdentityOf(Pre(Structured(d), h), h).retryable == r.id.retryable
    ensures IdentityOf(Pre(Structured(d), h), h).retryAfter == if r.id.retryAfter > 0 then r.id.retryAfter else 0
  {
    PlainErrorsArePlain(WireOf(r, g).suppressed);
    RootOverPlain(d, h, code);
  }

  // What `err` showed before it was sent: e is the object that travels.
  ghost predicate Sends(err: Err, e: Error, g: Graph)
    requires Acyclic(g)
  {
    FirstError(Pre(err, g)) == Some(e) && e in g
  }

  /** HasCode answers as it did before the hop, for every code, if and only if the code of the
      object sent is final and nothing else that was visible carried another one. */
  lemma HasCodeSurvives(err: Err, e: Error, g: Graph, d: Error, h: Graph, m: Migrations)
    requires Acyclic(g) && Sends(err, e, g)
    requires Acyclic(h) && d in h && h[d] == Decoded(WireOf(g[e], g), m)
    ensures (forall c :: Carries(Pre(Structured(d), h), h, c) <==> Carries(Pre(err, g), g, c))
       <==> Migrated(m, g[e].id.code) == g[e].id.code
            && forall x :: x in Pre(err, g) ==> CodeOf(x, g).None? || CodeOf(x, g).value == g[e].id.code
  {
    var near, far, own := Pre(err, g), Pre(Structured(d), h), g[e].id.code;
    FirstErrorIsListed(near);
    assert CodeOf(Structured(e), g) == Some(own);
    assert Carries(near, g, own);
    forall c ensures Carries(far, h, c) <==> c == Migrated(m, own) {
      IdentityAfterHop(g[e], g, d, h, m, c);
    }
    if forall c :: Carries(far, h, c) <==> Carries(near, g, c) {
      forall x | x in near && CodeOf(x, g).Some? ensures CodeOf(x, g).value == own {
        assert Carries(near, g, CodeOf(x, g).value);
      }
    }
  }

  // The first code comes from an error before the nearest *Error, else from that one.
  lemma {:induction false} CodeByNearest(l: seq<Err>, e: Error, g: Graph)
    requires FirstError(l) == Some(e) && e in g
    ensures var outer := FirstCode(BeforeNearest(l), g);
            (outer != "" ==> FirstCode(l, g) == outer)
            && (outer == "" && g[e].id.code != "" ==> FirstCode(l, g) == g[e].id.code)
  {
    if !l[0].Structured? {
      CodeByNearest(l[1..], e, g);
      var before := BeforeNearest(l);
      assert before[0] == l[0] && before[1..] == BeforeNearest(l[1..]);
    }
  }

  /** Code answers as it did before the hop if and only if the migrated code of the object sent is
      the code an outer error had resolved, or else the object's own code, or else there was no
      code at all. */
  lemma CodeSurvives(err: Err, e: Error, g: Graph, d: Error, h: Graph, m: Migrations)
    requires Acyclic(g) && Sends(err, e, g)
    requires Acyclic(h) && d in h && h[d] == Decoded(WireOf(g[e], g), m)
    ensures FirstCode(Pre(Structured(d), h), h) == FirstCode(Pre(err, g), g)
       <==> var own, outer := g[e].id.code, FirstCode(BeforeNearest(Pre(err, g)), g);
            if outer != "" then Migrated(m, own) == outer
            else if own != "" then Migrated(m, own) == own
            else FirstCode(Pre(err, g), g) == ""
  {
    IdentityAfterHop(g[e], g, d, h, m, "");
    CodeByNearest(Pre(err, g), e, g);
  }

  const CODED: Err := Foreign("", Some("X"), Leaf, Ordinary)

  // The object has no code, a suppressed error does.
  const CODED_BELOW: Record := Fresh("", Nil, None, []).(suppressed := [CODED])

  lemma CodedBelowIsAcyclic(e: Error)
    ensures Acyclic(map[e := CODED_BELOW]) && CODED_BELOW.Unwrap() == [CODED]
  {
    assert HeightAll([CODED], map[e := 0]) == 0;
    assert Ranks(map[e := CODED_BELOW], map[e := 0]);
  }

  /** An error whose code is lost on the way. */
  lemma SuppressedCodeIsLost(e: Error, g: Graph, d: Error, h: Graph, m: Migrations)
    requires g == map[e := CODED_BELOW]
    requires Acyclic(h) && d in h && Acyclic(g) && h[d] == Decoded(WireOf(g[e], g), m)
    ensures FirstCode(Pre(Structured(e), g), g) == "X" && Carries(Pre(Structured(e), g), g, "X")
    ensures FirstCode(Pre(Structured(d), h), h) == "" && !Carries(Pre(Structured(d), h), h, "X")
  {
    CodedBelowIsAcyclic(e);
    IdentityAfterHop(g[e], g, d, h, m, "X");
    PreUnfold(Structured(e), g);
    PreOne(CODED, g);
    FirstCodeAppend([Structured(e)], [CODED], g);
    assert CODED in Pre(Structured(e), g) && CodeOf(CODED, g) == Some("X");
  }

  // A foreign error with a code around an object with another.
  const CODED_INSIDE: Record := Fresh("", Nil, None, []).(id := Identity("", "E", EXPECTED, SEV_ERROR, false, 0))

  lemma CodedInsideLists(e: Error, g: Graph)
    requires g == map[e := CODED_INSIDE]
    ensures Acyclic(g) && Pre(Structured(e), g) == [Structured(e)]
  {
    assert Ranks(g, map[e := 0]);
    PreUnfold(Structured(e), g);
    assert CODED_INSIDE.Unwrap() == [];
  }

  lemma AroundResolves(err: Err, e: Error, g: Graph)
    requires g == map[e := CODED_INSIDE] && err == Foreign("", Some("F"), One(Structured(e)), Ordinary)
    ensures Acyclic(g) && Sends(err, e, g) && FirstCode(Pre(err, g), g) == "F"
  {
    CodedInsideLists(e, g);
    PreUnfold(err, g);
    PreOne(Structured(e), g);
    FirstCodeAppend([err], [Structured(e)], g);
    FirstErrorAppend([err], [Structured(e)]);
  }

  /** An error whose code becomes another one on the way, though no code is migrated. */
  lemma OuterCodeIsLost(err: Err, e: Error, g: Graph, d: Error, h: Graph)
    requires g == map[e := CODED_INSIDE] && err == Foreign("", Some("F"), One(Structured(e)), Ordinary)
    requires Acyclic(h) && d in h && Acyclic(g) && h[d] == Decoded(WireOf(g[e], g), map[])
    ensures Sends(err, e, g) && FirstCode(Pre(err, g), g) == "F"
    ensures FirstCode(Pre(Structured(d), h), h) == "E"
  {
    AroundResolves(err, e, g);
    IterateTerminal(map[], "E", 8);
    IdentityAfterHop(g[e], g, d, h, map[], "F");
  }

  // ---- an error without an *Error ------------------------------------------------------

  // What comes back from an envelope.
  lemma EnvelopeIsBare(text: string, d: Error, h: Graph, m: Migrations, c: string)
    requires Acyclic(h) && d in h && h[d] == Decoded(Envelope(text), m)
    ensures ErrorText(Structured(d), h) == text && Class_(Pre(Structured(d), h), h) == EXPECTED
    ensures FirstCode(Pre(Structured(d), h), h) == ""
    ensures Carries(Pre(Structured(d), h), h, c) <==> c == ""
  {
    assert h[d].Unwrap() == [];
    RootOverPlain(d, h, c);
  }

  lemma EnvelopeCarries(text: string, d: Error, h: Graph, m: Migrations)
    requires Acyclic(h) && d in h && h[d] == Decoded(Envelope(text), m)
    ensures forall c :: Carries(Pre(Structured(d), h), h, c) <==> c == ""
  {
    forall c ensures Carries(Pre(Structured(d), h), h, c) <==> c == "" {
      EnvelopeIsBare(text, d, h, m, c);
    }
  }

  lemma {:induction false} CodelessList(l: seq<Err>, g: Graph)
    ensures FirstCode(l, g) == "" <==> forall x :: x in l ==> Codeless(x, g)
  {
    if l != [] {
      CodelessList(l[1..], g);
      if FirstCode(l, g) == "" {
        forall x | x in l ensures Codeless(x, g) {
          assert x == l[0] || x in l[1..];
        }
      } else if Codeless(l[0], g) {
        var x :| x in l[1..] && !Codeless(x, g);
        assert x in l;
      } else {
        assert l[0] in l;
      }
    }
  }

  lemma CarriesEmptyOnly(far: seq<Err>, h: Graph, near: seq<Err>, g: Graph)
    requires forall c :: Carries(far, h, c) <==> c == ""
    ensures (forall c :: Carries(far, h, c) <==> Carries(near, g, c))
       <==> Carries(near, g, "") && FirstCode(near, g) == ""
  {
    if FirstCode(near, g) != "" {
      FirstCodeIsCarried(near, g);
    } else {
      forall c | c != "" ensures !Carries(near, g, c) {
        NoFirstCode(near, g, c);
      }
    }
  }

  /** An error that holds no *Error is sent as its text alone, and that survives. */
  lemma EnvelopeKeepsText(err: Err, g: Graph, d: Error, h: Graph, m: Migrations)
    requires Acyclic(g) && Acyclic(h) && d in h && h[d] == Decoded(Envelope(ErrorText(err, g)), m)
    ensures ErrorText(Structured(d), h) == ErrorText(err, g)
  {
    EnvelopeIsBare(ErrorText(err, g), d, h, m, "");
  }

  /** Whatever the text was: Code survives if and only if nothing visible had a code, HasCode, for
      every code, if and only if the empty code was carried and no other, and ClassOf if and only
      if no context sentinel was visible. */
  lemma EnvelopeAfterHop(err: Err, g: Graph, text: string, d: Error, h: Graph, m: Migrations)
    requires Acyclic(g) && FirstError(Pre(err, g)).None?
    requires Acyclic(h) && d in h && h[d] == Decoded(Envelope(text), m)
    ensures FirstCode(Pre(Structured(d), h), h) == FirstCode(Pre(err, g), g)
       <==> forall x :: x in Pre(err, g) ==> Codeless(x, g)
    ensures (forall c :: Carries(Pre(Structured(d), h), h, c) <==> Carries(Pre(err, g), g, c))
       <==> Carries(Pre(err, g), g, "") && FirstCode(Pre(err, g), g) == ""
    ensures Class_(Pre(Structured(d), h), h) == Class_(Pre(err, g), g)
       <==> !HasSentinel(Pre(err, g), Canceled) && !HasSentinel(Pre(err, g), DeadlineExceeded)
  {
    EnvelopeIsBare(text, d, h, m, "");
    EnvelopeCarries(text, d, h, m);
    CarriesEmptyOnly(Pre(Structured(d), h), h, Pre(err, g), g);
    CodelessList(Pre(err, g), g);
  }
}
