/**
 Every in-place operation on one error, as an edit of its record, and what any sequence
 of edits keeps: the cached fingerprint is empty or up to date.
 */
module Edits {
  import opened Common
  import opened Values
  import opened Hashing
  import opened Errors

  datatype Edit =
    | Domain(d: string)
    | Code(c: string)
    | Class_(class_: Class)
    | Severity_(sev: Severity)
    | Public(m: string)
    | Hint(h: string)
    | Owner(o: string)
    | Trace(traceID: string, spanID: string)
    | Retryable(after: int)
    | Unsafe(key: string, value: Value)
    | Safe(key: string, value: Value)
    | Note(key: string, value: Value)
    | Suppress(errs: seq<Err>)
    | Opaque
    | URL(url: string)
    | Localized(locale: string, m: string)
    | Context(found: Option<seq<Extracted>>)
    | Fingerprint

  function Apply(op: Edit, r: Record): Record {
    match op
    case Domain(d) => r.(id := r.id.(domain := d), fp := "")
    case Code(c) => r.(id := r.id.(code := c), fp := "")
    case Class_(c) => r.(id := r.id.(class_ := c))
    case Severity_(s) => r.(id := r.id.(severity := s))
    case Public(m) => r.(texts := r.texts.(public := m))
    case Hint(h) => r.(texts := r.texts.(hint := h))
    case Owner(o) => r.(texts := r.texts.(owner := o))
    case Trace(t, s) => r.(traceID := t, spanID := s)
    case Retryable(after) => r.(id := r.id.(retryable := true, retryAfter := after))
    case Unsafe(k, v) => r.(fields := r.fields + [Field(k, v, false)])
    case Safe(k, v) => r.(fields := r.fields + [Field(k, v, true)])
    case Note(k, v) => r.(fields := r.fields + [Field(k, v, false)], fp := "")
    case Suppress(errs) => r.(suppressed := r.suppressed + NonNil(errs))
    case Opaque => r.(barrier := true)
    case URL(u) => r.(texts := r.texts.(docURL := u))
    case Localized(l, m) => r.(texts := r.texts.(localized := r.texts.localized[l := m]))
    case Context(None) => r
    case Context(Some(found)) =>
      r.(traceID := FirstID(r.traceID, TraceIDs(found)), spanID := FirstID(r.spanID, SpanIDs(found)),
         fields := r.fields + Flatten(found), fp := "")
    case Fingerprint => r.(fp := r.Fingerprint())
  }

  function ApplyAll(ops: seq<Edit>, r: Record): Record {
    if ops == [] then r else ApplyAll(ops[1..], Apply(ops[0], r))
  }

  predicate OnIdentity(op: Edit) {
    op.Domain? || op.Code? || op.Class_? || op.Severity_? || op.Retryable?
  }

  predicate OnTexts(op: Edit) {
    op.Public? || op.Hint? || op.Owner? || op.URL? || op.Localized?
  }

  predicate OnFields(op: Edit) {
    op.Unsafe? || op.Safe? || op.Note?
  }

  /** The operations on the object are exactly these edits. */
  method Perform(e: Error, op: Edit)
    modifies e
    ensures e.Value() == Apply(op, old(e.Value()))
  {
    if OnIdentity(op) {
      PerformOnIdentity(e, op);
    } else if OnTexts(op) {
      PerformOnTexts(e, op);
    } else if OnFields(op) {
      PerformOnFields(e, op);
    } else {
      PerformOther(e, op);
    }
  }

  method PerformOnIdentity(e: Error, op: Edit)
    requires OnIdentity(op)
    modifies e
    ensures e.Value() == Apply(op, old(e.Value()))
  {
    match op
    case Domain(d) => e.WithDomain(d);
    case Code(c) => e.WithCode(c);
    case Class_(c) => e.WithClass(c);
    case Severity_(s) => e.WithSeverity(s);
    case Retryable(after) => e.WithRetryable(after);
  }

  method PerformOnTexts(e: Error, op: Edit)
    requires OnTexts(op)
    modifies e
    ensures e.Value() == Apply(op, old(e.Value()))
  {
    match op
    case Public(m) => e.WithPublic(m);
    case Hint(h) => e.WithHint(h);
    case Owner(o) => e.WithOwner(o);
    case URL(u) => e.WithURL(u);
    case Localized(l, m) => e.WithLocalized(l, m);
  }

  method PerformOnFields(e: Error, op: Edit)
    requires OnFields(op)
    modifies e
    ensures e.Value() == Apply(op, old(e.Value()))
  {
    match op
    case Unsafe(k, v) => e.With(k, v);
    case Safe(k, v) => e.WithSafe(k, v);
    case Note(k, v) => e.Annotate(k, v);
  }

  method PerformOther(e: Error, op: Edit)
    requires !OnIdentity(op) && !OnTexts(op) && !OnFields(op)
    modifies e
    ensures e.Value() == Apply(op, old(e.Value()))
  {
    match op
    case Trace(t, s) => e.WithTrace(t, s);
    case Suppress(errs) => e.Suppress(errs);
    case Opaque => e.Opaque();
    case Context(found) => e.Context(found);
    case Fingerprint => var _ := e.Fingerprint();
  }

  // The cache is empty or holds what would be computed now.
  predicate CacheOk(r: Record) {
    r.fp == "" || r.fp == r.FreshKey()
  }

  // The identity a sequence of edits leaves behind.
  function LastDomain(ops: seq<Edit>, d: string): string {
    if ops == [] then d
    else if ops[|ops| - 1].Domain? then ops[|ops| - 1].d
    else LastDomain(ops[..|ops| - 1], d)
  }

  function LastCode(ops: seq<Edit>, c: string): string {
    if ops == [] then c
    else if ops[|ops| - 1].Code? then ops[|ops| - 1].c
    else LastCode(ops[..|ops| - 1], c)
  }

  lemma {:induction false} ApplyAllSnoc(ops: seq<Edit>, r: Record)
    requires ops != []
    ensures ApplyAll(ops, r) == Apply(ops[|ops| - 1], ApplyAll(ops[..|ops| - 1], r))
    decreases |ops|
  {
    if |ops| > 1 {
      ApplyAllSnoc(ops[1..], Apply(ops[0], r));
      assert ops[1..][..|ops| - 2] == ops[..|ops| - 1][1..];
    }
  }

  lemma ApplyKeepsCache(op: Edit, r: Record)
    requires CacheOk(r)
    ensures CacheOk(Apply(op, r)) && Apply(op, r).origin == r.origin
    ensures Apply(op, r).id.domain == if op.Domain? then op.d else r.id.domain
    ensures Apply(op, r).id.code == if op.Code? then op.c else r.id.code
  {
  }

  /** After any sequence of edits of a fresh error the cache is sound and the identity is the
      last one set. */
  lemma {:induction false} EditsKeepCache(ops: seq<Edit>, r: Record)
    requires CacheOk(r)
    ensures var r' := ApplyAll(ops, r);
            CacheOk(r') && r'.id.domain == LastDomain(ops, r.id.domain) && r'.id.code == LastCode(ops, r.id.code)
            && r'.origin == r.origin
    decreases |ops|
  {
    if ops != [] {
      EditsKeepCache(ops[..|ops| - 1], r);
      ApplyAllSnoc(ops, r);
      ApplyKeepsCache(ops[|ops| - 1], ApplyAll(ops[..|ops| - 1], r));
    }
  }

  /** So Fingerprint is a function of the last domain, the last code and the origin alone:
      messages, fields, causes, suppressed errors, earlier Fingerprint calls and the order of
      the edits do not matter. */
  lemma FingerprintIsIdentity(ops: seq<Edit>, r: Record)
    requires CacheOk(r)
    ensures ApplyAll(ops, r).Fingerprint()
         == Key(LastDomain(ops, r.id.domain), LastCode(ops, r.id.code),
                if r.Frames() != [] then r.Frames()[0].function_ else "",
                if r.Frames() != [] then r.Frames()[0].line else 0)
  {
    EditsKeepCache(ops, r);
  }
}
