/**
 The two redacting projections of an *Error, Snapshot (report.go) and LogValue (slog.go), as
 functions of the object graph, and the methods that compute them step by step. The third
 projection is the wire form in Codec.
 */
module Projection {
  import opened Common
  import opened Values
  import opened Errors
  import opened Tree
  import opened Inspect
  import opened Messages
  import Edits

  type Docs = map<string, DocEntry>

  // ---- fields ----------------------------------------------------------------------

  function RedactField(f: Field): Field {
    if f.safe then f else Field(f.key, Text(REDACTED_MARKER), false)
  }

  function Redact(fs: seq<Field>): seq<Field> {
    if fs == [] then [] else Redact(fs[..|fs| - 1]) + [RedactField(fs[|fs| - 1])]
  }

  function SafeOnly(fs: seq<Field>): seq<Field> {
    if fs == [] then []
    else SafeOnly(fs[..|fs| - 1]) + (if fs[|fs| - 1].safe then [fs[|fs| - 1]] else [])
  }

  /** Redaction keeps every field in its place and shows no value that is not safe. */
  lemma {:induction false} RedactAt(fs: seq<Field>)
    ensures |Redact(fs)| == |fs|
    ensures forall i :: 0 <= i < |fs| ==>
      Redact(fs)[i].key == fs[i].key && Redact(fs)[i].safe == fs[i].safe
      && Redact(fs)[i].value == if fs[i].safe then fs[i].value else Text(REDACTED_MARKER)
  {
    if fs != [] {
      RedactAt(fs[..|fs| - 1]);
    }
  }

  /** Exactly the safe fields are kept, wherever they stand: a field in the middle of any list is
      kept between what stands before it and what stands after it if it is safe, and dropped if
      it is not. */
  lemma {:induction false} SafeOnlyMiddle(before: seq<Field>, f: Field, after: seq<Field>)
    ensures SafeOnly(before + [f] + after) == SafeOnly(before) + (if f.safe then [f] else []) + SafeOnly(after)
    ensures SafeOnly([]) == []
  {
    var all := before + [f] + after;
    if after == [] {
      assert all == before + [f] && all[..|all| - 1] == before;
    } else {
      var n := |after| - 1;
      var last := if after[n].safe then [after[n]] else [];
      assert all[..|all| - 1] == before + [f] + after[..n] && all[|all| - 1] == after[n];
      SafeOnlyMiddle(before, f, after[..n]);
      assert SafeOnly(all) == SafeOnly(before + [f] + after[..n]) + last;
      Assoc(SafeOnly(before) + (if f.safe then [f] else []), SafeOnly(after[..n]), last);
    }
  }

  /** And each safe field is kept as often as it stands there. */
  lemma {:induction false} SafeOnlyCounts(fs: seq<Field>, f: Field)
    ensures multiset(SafeOnly(fs))[f] == if f.safe then multiset(fs)[f] else 0
  {
    if fs != [] {
      var init, last := fs[..|fs| - 1], fs[|fs| - 1];
      SafeOnlyCounts(init, f);
      assert fs == init + [last];
    }
  }

  lemma PrefixStep<T>(xs: seq<T>, i: nat)
    requires i < |xs|
    ensures xs[..i + 1][..|xs[..i + 1]| - 1] == xs[..i] && xs[..i + 1][|xs[..i + 1]| - 1] == xs[i]
  {
  }

  method RedactFields(fs: seq<Field>) returns (out: seq<Field>)
    ensures out == Redact(fs)
  {
    out := [];
    for i := 0 to |fs|
      invariant out == Redact(fs[..i])
    {
      PrefixStep(fs, i);
      if fs[i].safe {
        out := out + [fs[i]];
      } else {
        out := out + [Field(fs[i].key, Text(REDACTED_MARKER), false)];
      }
    }
    assert fs[..|fs|] == fs;
  }

  method SafeFields(fs: seq<Field>) returns (out: seq<Field>)
    ensures out == SafeOnly(fs)
  {
    out := [];
    for i := 0 to |fs|
      invariant out == SafeOnly(fs[..i])
    {
      PrefixStep(fs, i);
      if fs[i].safe {
        out := out + [fs[i]];
      }
    }
    assert fs[..|fs|] == fs;
  }

  method ErrorStrings(xs: seq<Err>, ghost g: Graph) returns (out: seq<string>)
    requires Mirrors(g) && Sound(g) && AllKnown(xs, g.Keys)
    ensures out == TextsOf(xs, g)
  {
    out := [];
    for i := 0 to |xs|
      invariant out == TextsOf(xs[..i], g)
    {
      PrefixStep(xs, i);
      var text := ErrorString(xs[i], g);
      out := out + [text];
    }
    assert xs[..|xs|] == xs;
  }

  // ---- documentation and return trace ------------------------------------------------

  function DocOf(r: Record, docs: Docs): Option<DocEntry> {
    if r.id.code == "" then None else Lookup(docs, r.id.code)
  }

  function URL(r: Record, docs: Docs): string {
    if r.texts.docURL != "" then r.texts.docURL
    else if DocOf(r, docs).Some? then DocOf(r, docs).value.url else ""
  }

  function Remediation(r: Record, docs: Docs): string {
    if r.texts.hint != "" then r.texts.hint
    else if DocOf(r, docs).Some? then DocOf(r, docs).value.remediation else ""
  }

  // Causes are set when an object is made, so they lead to older objects, opaque or not.
  ghost predicate CausesDescend(g: Graph, older age: Ranking) {
    age.Keys == g.Keys &&
    forall e :: e in g && g[e].cause.Structured? ==>
      g[e].cause.e in g && age[g[e].cause.e] < age[e]
  }

  // The age of a new object: younger than its cause.
  ghost function AgeOver(cause: Err, age: Ranking): nat {
    if cause.Structured? && cause.e in age then age[cause.e] + 1 else 0
  }

  /** Every constructor keeps causes older: a fresh object is younger than what it was given. */
  lemma FreshIsYounger(g: Graph, age: Ranking, w: Error, rec: Record)
    requires CausesDescend(g, age) && w !in g && Known(rec.cause, g.Keys)
    ensures CausesDescend(g[w := rec], age[w := AgeOver(rec.cause, age)])
  {
    var h, younger := g[w := rec], age[w := AgeOver(rec.cause, age)];
    forall e | e in h && h[e].cause.Structured? ensures h[e].cause.e in h && younger[h[e].cause.e] < younger[e] {
      assert h[e].cause.e in g;
    }
  }

  lemma SameCausesDescend(g: Graph, h: Graph, age: Ranking)
    requires CausesDescend(g, age) && h.Keys == g.Keys
    requires forall e :: e in g ==> h[e].cause == g[e].cause
    ensures CausesDescend(h, age)
  {
  }

  /** And no operation on an error, attaching suppressed errors included, changes any age. */
  lemma EditsKeepAges(g: Graph, age: Ranking, e: Error, op: Edits.Edit)
    requires CausesDescend(g, age) && e in g
    ensures CausesDescend(g[e := Edits.Apply(op, g[e])], age)
  {
    assert Edits.Apply(op, g[e]).cause == g[e].cause;
    SameCausesDescend(g, g[e := Edits.Apply(op, g[e])], age);
  }

  // What can happen to errors: one is made around known ones, or one is changed in place.
  datatype Event = Make(w: Error, rec: Record) | Change(e: Error, op: Edits.Edit)

  ghost predicate Possible(g: Graph, ev: Event) {
    match ev
    case Make(w, rec) => w !in g && Known(rec.cause, g.Keys)
    case Change(e, _) => e in g
  }

  ghost function Happened(g: Graph, ev: Event): Graph
    requires Possible(g, ev)
  {
    match ev
    case Make(w, rec) => g[w := rec]
    case Change(e, op) => g[e := Edits.Apply(op, g[e])]
  }

  ghost predicate History(g: Graph, evs: seq<Event>)
    decreases |evs|
  {
    evs == [] || (Possible(g, evs[0]) && History(Happened(g, evs[0]), evs[1..]))
  }

  ghost function AfterHistory(g: Graph, evs: seq<Event>): Graph
    requires History(g, evs)
    decreases |evs|
  {
    if evs == [] then g else AfterHistory(Happened(g, evs[0]), evs[1..])
  }

  /** Whatever is made and changed, causes lead to older errors, so a return trace is finite even
      where suppressed errors closed a cycle. */
  lemma {:induction false} CausesAlwaysDescend(g: Graph, age: Ranking, evs: seq<Event>)
    requires CausesDescend(g, age) && History(g, evs)
    ensures exists age' :: CausesDescend(AfterHistory(g, evs), age')
    decreases |evs|
  {
    if evs != [] {
      var h := Happened(g, evs[0]);
      match evs[0] {
        case Make(w, rec) =>
          FreshIsYounger(g, age, w, rec);
          CausesAlwaysDescend(h, age[w := AgeOver(rec.cause, age)], evs[1..]);
        case Change(e, op) =>
          EditsKeepAges(g, age, e, op);
          CausesAlwaysDescend(h, age, evs[1..]);
      }
      assert AfterHistory(g, evs) == AfterHistory(h, evs[1..]);
    } else {
      assert CausesDescend(AfterHistory(g, evs), age);
    }
  }

  function SiteOf(r: Record): seq<Frame> {
    if r.origin.wrapSite.Some? then [r.origin.wrapSite.value] else []
  }

  // Trace: one frame per wrap site, outermost first.
  ghost function Trace(e: Error, g: Graph, age: Ranking): seq<Frame>
    requires CausesDescend(g, age) && e in g
    decreases age[e]
  {
    SiteOf(g[e]) + (if g[e].cause.Structured? then Trace(g[e].cause.e, g, age) else [])
  }

  method TraceOf(e: Error, ghost g: Graph, ghost age: Ranking) returns (out: seq<Frame>)
    requires Mirrors(g) && CausesDescend(g, age) && e in g
    ensures out == Trace(e, g, age)
  {
    out := [];
    var cur := e;
    while true
      invariant cur in g && out + Trace(cur, g, age) == Trace(e, g, age)
      decreases age[cur]
    {
      TraceStep(out, cur, g, age);
      var r := cur.Value();
      if r.origin.wrapSite.Some? {
        out := out + [r.origin.wrapSite.value];
      }
      if !r.cause.Structured? {
        return;
      }
      cur := r.cause.e;
    }
  }

  lemma TraceStep(before: seq<Frame>, e: Error, g: Graph, age: Ranking)
    requires CausesDescend(g, age) && e in g
    ensures var out := if g[e].origin.wrapSite.Some? then before + [g[e].origin.wrapSite.value] else before;
            before + Trace(e, g, age) == if g[e].cause.Structured? then out + Trace(g[e].cause.e, g, age) else out
  {
  }

  // The order the documentation announces: the site nearest the innermost error first.
  ghost function InnermostFirst(e: Error, g: Graph, age: Ranking): seq<Frame>
    requires CausesDescend(g, age) && e in g
    decreases age[e]
  {
    (if g[e].cause.Structured? then InnermostFirst(g[e].cause.e, g, age) else []) + SiteOf(g[e])
  }

  ghost predicate Mirrored<T>(s: seq<T>, t: seq<T>) {
    |s| == |t| && forall i :: 0 <= i < |s| ==> s[i] == t[|t| - 1 - i]
  }

  lemma {:induction false} TraceMirrorsDocumented(e: Error, g: Graph, age: Ranking)
    requires CausesDescend(g, age) && e in g
    ensures Mirrored(InnermostFirst(e, g, age), Trace(e, g, age))
    decreases age[e]
  {
    if g[e].cause.Structured? {
      TraceMirrorsDocumented(g[e].cause.e, g, age);
      MirrorSnoc(InnermostFirst(g[e].cause.e, g, age), Trace(g[e].cause.e, g, age), SiteOf(g[e]));
    }
  }

  lemma MirrorSnoc<T>(s: seq<T>, t: seq<T>, x: seq<T>)
    requires Mirrored(s, t) && |x| <= 1
    ensures Mirrored(s + x, x + t)
  {
  }

  /** The trace has the documented order if and only if its frames read the same both ways. */
  lemma DocumentedTraceOrder(e: Error, g: Graph, age: Ranking)
    requires CausesDescend(g, age) && e in g
    ensures Trace(e, g, age) == InnermostFirst(e, g, age) <==> Mirrored(Trace(e, g, age), Trace(e, g, age))
  {
    TraceMirrorsDocumented(e, g, age);
    var t, d := Trace(e, g, age), InnermostFirst(e, g, age);
    if Mirrored(t, t) {
      assert forall i :: 0 <= i < |t| ==> t[i] == d[i];
    }
  }

  // ---- Snapshot ----------------------------------------------------------------------

  function Positive(d: int): Duration {
    if d > 0 then Some(d) else None
  }

  function HeadingOf(r: Record, docs: Docs, message: string): Heading {
    Heading(r.id.domain, r.id.code, r.id.class_, r.id.severity,
            message, r.texts.public, Remediation(r, docs), r.texts.owner,
            URL(r, docs), r.texts.localized, r.Fingerprint(),
            r.id.retryable, Positive(r.id.retryAfter), r.traceID, r.spanID)
  }

  // The report on a record, given the texts and the trace that lie outside it.
  function ReportOf(r: Record, docs: Docs, message: string, trace: seq<Frame>, suppressed: seq<string>,
                    cause: string): Report {
    Report(HeadingOf(r, docs, message), Redact(r.fields), Trail(r.Frames(), trace, suppressed, cause))
  }

  ghost function SnapshotOf(e: Error, g: Graph, age: Ranking, docs: Docs): Report
    requires Acyclic(g) && CausesDescend(g, age) && e in g
  {
    ReportOf(g[e], docs, ErrorText(Structured(e), g), Trace(e, g, age),
             TextsOf(g[e].suppressed, g), ErrorText(g[e].cause, g))
  }

  // The graph after e.Fingerprint(), which only fills the cache.
  ghost function Cached(g: Graph, e: Error): Graph
    requires e in g
  {
    g[e := g[e].(fp := g[e].Fingerprint())]
  }

  // Snapshot of an object whose record is at hand; the fingerprint is cached last.
  method Snapshot(err: Err, docs: Docs, ghost g: Graph, ghost age: Ranking) returns (out: Option<Report>)
    requires Mirrors(g) && Sound(g) && CausesDescend(g, age) && Known(err, g.Keys)
    modifies g.Keys`fp
    ensures out.None? <==> FirstError(Pre(err, g)).None?
    ensures out.None? ==> Mirrors(g)
    ensures out.Some? ==>
      var e := FirstError(Pre(err, g)).value;
      e in g && out.value == SnapshotOf(e, g, age, docs) && Mirrors(Cached(g, e))
  {
    NearestIsKnown(err, g);
    var nearest := Get(err, g);
    if nearest.None? {
      return None;
    }
    var report := Project(nearest.value, docs, g, age);
    out := Some(report);
  }

  method Project(e: Error, docs: Docs, ghost g: Graph, ghost age: Ranking) returns (report: Report)
    requires Mirrors(g) && Sound(g) && CausesDescend(g, age) && e in g
    modifies e`fp
    ensures report == SnapshotOf(e, g, age, docs) && Mirrors(Cached(g, e))
  {
    report := Assemble(e, docs, g, age);
    var _ := CacheKey(e, g);
  }

  method Assemble(e: Error, docs: Docs, ghost g: Graph, ghost age: Ranking) returns (report: Report)
    requires Mirrors(g) && Sound(g) && CausesDescend(g, age) && e in g
    ensures report == SnapshotOf(e, g, age, docs)
  {
    var r := e.Value();
    var message := ErrorString(Structured(e), g);
    var trace := TraceOf(e, g, age);
    var cause := ErrorString(r.cause, g);
    var fields := RedactFields(r.fields);
    var suppressed := ErrorStrings(r.suppressed, g);
    report := Report(HeadingOf(r, docs, message), fields, Trail(r.Frames(), trace, suppressed, cause));
  }

  method CacheKey(e: Error, ghost g: Graph) returns (key: string)
    requires Mirrors(g) && e in g
    modifies e`fp
    ensures key == g[e].Fingerprint() && Mirrors(Cached(g, e))
  {
    key := e.Fingerprint();
  }

  // ---- LogValue ----------------------------------------------------------------------

  datatype Attr =
    | Str(key: string, text: string)
    | Bool(key: string, b: bool)
    | Dur(key: string, d: int)
    | Any(key: string, value: Value)
    | Group(key: string, attrs: seq<Attr>)

  function ClassName(c: Class): string {
    if c == EXPECTED then "expected" else if c == DEFECT then "defect"
    else if c == CANCELLED then "cancelled" else "unknown"
  }

  function SeverityName(s: Severity): string {
    if s == SEV_DEBUG then "debug" else if s == SEV_INFO then "info" else if s == SEV_WARN then "warn"
    else if s == SEV_FATAL then "fatal" else "error"
  }

  function FieldAttrs(fs: seq<Field>): seq<Attr> {
    if fs == [] then []
    else
      var f := fs[|fs| - 1];
      FieldAttrs(fs[..|fs| - 1]) + [if f.safe then Any(f.key, f.value) else Str(f.key, REDACTED_MARKER)]
  }

  function LogAttrs(r: Record, message: string): seq<Attr> {
    [Str("msg", message)]
    + (if r.id.domain != "" then [Str("domain", r.id.domain)] else [])
    + (if r.id.code != "" then [Str("code", r.id.code)] else [])
    + [Str("class", ClassName(r.id.class_)), Str("severity", SeverityName(r.id.severity)),
       Str("fingerprint", r.Fingerprint())]
    + (if r.id.retryable then [Bool("retryable", true)] else [])
    + (if r.id.retryable && r.id.retryAfter > 0 then [Dur("retry_after", r.id.retryAfter)] else [])
    + (if r.traceID != "" then [Str("trace_id", r.traceID)] else [])
    + (if r.fields != [] then [Group("fields", FieldAttrs(r.fields))] else [])
  }

  lemma {:induction false} FieldAttrsAt(fs: seq<Field>)
    ensures |FieldAttrs(fs)| == |fs|
    ensures forall i :: 0 <= i < |fs| ==>
      FieldAttrs(fs)[i] == if fs[i].safe then Any(fs[i].key, fs[i].value) else Str(fs[i].key, REDACTED_MARKER)
  {
    if fs != [] {
      FieldAttrsAt(fs[..|fs| - 1]);
    }
  }

  // What a log group has to say about a record: what it is called,
  ghost predicate Identifies(a: Attr, r: Record, message: string) {
    a.Str? &&
    match a.key
    case "msg" => a.text == message
    case "domain" => a.text == r.id.domain != ""
    case "code" => a.text == r.id.code != ""
    case "class" =>
      a.text == (match r.id.class_ case 0 => "expected" case 1 => "defect" case 2 => "cancelled" case _ => "unknown")
    case "severity" =>
      a.text == (match r.id.severity
                 case 0 => "debug" case 1 => "info" case 2 => "warn" case 4 => "fatal" case _ => "error")
    case "fingerprint" => a.text == r.Fingerprint()
    case _ => false
  }

  // and whether to try again, in which trace it came, and its fields.
  ghost predicate Adds(a: Attr, r: Record) {
    match a
    case Str(key, t) => key == "trace_id" && t == r.traceID != ""
    case Bool(key, b) => key == "retryable" && b && r.id.retryable
    case Dur(key, d) => key == "retry_after" && r.id.retryable && d == r.id.retryAfter > 0
    case Group(key, attrs) => key == "fields" && r.fields != [] && attrs == FieldAttrs(r.fields)
    case Any(_, _) => false
  }

  lemma InParts<T>(x: T, a: seq<T>, b: seq<T>, c: seq<T>, d: seq<T>)
    ensures x in a + b + c + d <==> x in a || x in b || x in c || x in d
  {
  }

  lemma HeadIdentifies(r: Record, message: string, a: Attr, head: seq<Attr>)
    requires head == [Str("msg", message)]
                     + (if r.id.domain != "" then [Str("domain", r.id.domain)] else [])
                     + (if r.id.code != "" then [Str("code", r.id.code)] else [])
                     + [Str("class", ClassName(r.id.class_)), Str("severity", SeverityName(r.id.severity)),
                        Str("fingerprint", r.Fingerprint())]
    ensures a in head <==> Identifies(a, r, message)
  {
  }

  lemma TailAdds(r: Record, a: Attr, retryable: seq<Attr>, after: seq<Attr>, trace: seq<Attr>, fields: seq<Attr>)
    requires retryable == if r.id.retryable then [Bool("retryable", true)] else []
    requires after == if r.id.retryable && r.id.retryAfter > 0 then [Dur("retry_after", r.id.retryAfter)] else []
    requires trace == if r.traceID != "" then [Str("trace_id", r.traceID)] else []
    requires fields == if r.fields != [] then [Group("fields", FieldAttrs(r.fields))] else []
    ensures a in retryable || a in after || a in trace || a in fields <==> Adds(a, r)
  {
    assert a in retryable <==> a == Bool("retryable", true) && r.id.retryable;
  }

  /** A log group says all that is set, and nothing else. */
  lemma LogSays(r: Record, message: string, a: Attr)
    ensures a in LogAttrs(r, message) <==> Identifies(a, r, message) || Adds(a, r)
  {
    var head := [Str("msg", message)]
                + (if r.id.domain != "" then [Str("domain", r.id.domain)] else [])
                + (if r.id.code != "" then [Str("code", r.id.code)] else [])
                + [Str("class", ClassName(r.id.class_)), Str("severity", SeverityName(r.id.severity)),
                   Str("fingerprint", r.Fingerprint())];
    var retryable := if r.id.retryable then [Bool("retryable", true)] else [];
    var after := if r.id.retryable && r.id.retryAfter > 0 then [Dur("retry_after", r.id.retryAfter)] else [];
    var trace := if r.traceID != "" then [Str("trace_id", r.traceID)] else [];
    var fields := if r.fields != [] then [Group("fields", FieldAttrs(r.fields))] else [];
    HeadIdentifies(r, message, a, head);
    TailAdds(r, a, retryable, after, trace, fields);
    InParts(a, head + retryable, after, trace, fields);
  }

  // The place of a key in a log group.
  function Place(key: string): nat {
    match key
    case "msg" => 0
    case "domain" => 1
    case "code" => 2
    case "class" => 3
    case "severity" => 4
    case "fingerprint" => 5
    case "retryable" => 6
    case "retry_after" => 7
    case "trace_id" => 8
    case _ => 9
  }

  // Every key has a later place than the keys before it, and all places come before n.
  ghost predicate Placed(attrs: seq<Attr>, n: nat) {
    (forall i :: 0 <= i < |attrs| ==> Place(attrs[i].key) < n)
    && forall i, j :: 0 <= i < j < |attrs| ==> Place(attrs[i].key) < Place(attrs[j].key)
  }

  lemma PlacedNext(attrs: seq<Attr>, a: Attr, given: bool)
    requires Placed(attrs, Place(a.key))
    ensures Placed(attrs + (if given then [a] else []), Place(a.key) + 1)
  {
  }

  lemma PlacedThree(attrs: seq<Attr>, a: Attr, b: Attr, c: Attr)
    requires Placed(attrs, Place(a.key)) && Place(b.key) == Place(a.key) + 1 && Place(c.key) == Place(b.key) + 1
    ensures Placed(attrs + [a, b, c], Place(c.key) + 1)
  {
  }

  lemma LogHeadIsOrdered(r: Record, message: string)
    ensures Placed([Str("msg", message)] + (if r.id.domain != "" then [Str("domain", r.id.domain)] else [])
                   + (if r.id.code != "" then [Str("code", r.id.code)] else []), Place("class"))
  {
    var l := [Str("msg", message)];
    PlacedNext(l, Str("domain", r.id.domain), r.id.domain != "");
    l := l + (if r.id.domain != "" then [Str("domain", r.id.domain)] else []);
    PlacedNext(l, Str("code", r.id.code), r.id.code != "");
  }

  /** Each key at most once, in one fixed order. */
  lemma LogIsOrdered(r: Record, message: string)
    ensures Placed(LogAttrs(r, message), 10)
  {
    LogHeadIsOrdered(r, message);
    var l := [Str("msg", message)] + (if r.id.domain != "" then [Str("domain", r.id.domain)] else [])
             + (if r.id.code != "" then [Str("code", r.id.code)] else []);
    var class_, severity := Str("class", ClassName(r.id.class_)), Str("severity", SeverityName(r.id.severity));
    PlacedThree(l, class_, severity, Str("fingerprint", r.Fingerprint()));
    l := l + [class_, severity, Str("fingerprint", r.Fingerprint())];
    LogTailIsOrdered(l, r);
  }

  lemma PlacedTwo(attrs: seq<Attr>, a: Attr, given: bool, b: Attr, also: bool)
    requires Placed(attrs, Place(a.key)) && Place(b.key) == Place(a.key) + 1
    ensures Placed(attrs + (if given then [a] else []) + (if also then [b] else []), Place(b.key) + 1)
  {
    PlacedNext(attrs, a, given);
    PlacedNext(attrs + (if given then [a] else []), b, also);
  }

  lemma LogTailIsOrdered(l: seq<Attr>, r: Record)
    requires Placed(l, Place("retryable"))
    ensures Placed(l + (if r.id.retryable then [Bool("retryable", true)] else [])
                   + (if r.id.retryable && r.id.retryAfter > 0 then [Dur("retry_after", r.id.retryAfter)] else [])
                   + (if r.traceID != "" then [Str("trace_id", r.traceID)] else [])
                   + (if r.fields != [] then [Group("fields", FieldAttrs(r.fields))] else []), 10)
  {
    var after := r.id.retryable && r.id.retryAfter > 0;
    PlacedTwo(l, Bool("retryable", true), r.id.retryable, Dur("retry_after", r.id.retryAfter), after);
    var l2 := l + (if r.id.retryable then [Bool("retryable", true)] else [])
              + (if after then [Dur("retry_after", r.id.retryAfter)] else []);
    PlacedTwo(l2, Str("trace_id", r.traceID), r.traceID != "", Group("fields", FieldAttrs(r.fields)), r.fields != []);
  }

  ghost function LogOf(e: Error, g: Graph): seq<Attr>
    requires Acyclic(g) && e in g
  {
    LogAttrs(g[e], ErrorText(Structured(e), g))
  }

  method FieldGroup(fs: seq<Field>) returns (out: seq<Attr>)
    ensures out == FieldAttrs(fs)
  {
    out := [];
    for i := 0 to |fs|
      invariant out == FieldAttrs(fs[..i])
    {
      PrefixStep(fs, i);
      if fs[i].safe {
        out := out + [Any(fs[i].key, fs[i].value)];
      } else {
        out := out + [Str(fs[i].key, REDACTED_MARKER)];
      }
    }
    assert fs[..|fs|] == fs;
  }

  method LogValue(e: Error, ghost g: Graph) returns (attrs: seq<Attr>)
    requires Mirrors(g) && Sound(g) && e in g
    modifies e`fp
    ensures attrs == LogOf(e, g) && Mirrors(Cached(g, e))
  {
    var r := e.Value();
    var message := ErrorString(Structured(e), g);
    attrs := AppendAttrs(r, message);
    var _ := CacheKey(e, g);
  }

  method AppendAttrs(r: Record, message: string) returns (attrs: seq<Attr>)
    ensures attrs == LogAttrs(r, message)
  {
    attrs := [Str("msg", message)];
    attrs := attrs + (if r.id.domain != "" then [Str("domain", r.id.domain)] else []);
    attrs := attrs + (if r.id.code != "" then [Str("code", r.id.code)] else []);
    attrs := attrs + [Str("class", ClassName(r.id.class_)), Str("severity", SeverityName(r.id.severity)),
                      Str("fingerprint", r.Fingerprint())];
    attrs := attrs + (if r.id.retryable then [Bool("retryable", true)] else []);
    attrs := attrs + (if r.id.retryable && r.id.retryAfter > 0 then [Dur("retry_after", r.id.retryAfter)] else []);
    attrs := attrs + (if r.traceID != "" then [Str("trace_id", r.traceID)] else []);
    var fa := FieldGroup(r.fields);
    attrs := attrs + (if r.fields != [] then [Group("fields", fa)] else []);
  }
}
