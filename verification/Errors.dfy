/**
 The structured error of errx.go: a heap object whose builders update it in place,
 and the errors it can hold.

 An `Err` is a Go error value. A nil interface is `Nil`; an *Error is a reference to
 an `Error` object; a *multiError and a foreign error never change once built, so
 they are values. A foreign error has a fixed message, perhaps a Code() method, one
 of the two Unwrap forms or none, and may be one of the context sentinels.
 */
module Errors {
  import opened Common
  import opened Decimal
  import opened Hashing
  import opened Values

  datatype Err =
    | Nil
    | Structured(e: Error)
    | Multi(errs: seq<Err>)
    | Foreign(text: string, ownCode: Option<string>, unwrap: Unwrapper, sentinel: Sentinel)

  datatype Unwrapper =
    | Leaf
    | One(inner: Err)         // Unwrap() error
    | Many(inners: seq<Err>)  // Unwrap() []error

  datatype Sentinel = Ordinary | Canceled | DeadlineExceeded

  // errors.New(text)
  function PlainError(text: string): Err {
    Foreign(text, None, Leaf, Ordinary)
  }

  // What Wrap inherits from an inner error.
  datatype Identity = Identity(domain: string, code: string, class_: Class, severity: Severity,
                               retryable: bool, retryAfter: int)

  // The texts, none of which any decision depends on.
  datatype Texts = Texts(msg: string, public: string, hint: string, owner: string, docURL: string,
                         localized: map<string, string>)

  // Where the error was made: the wrap site, the captured stack (already symbolized) and
  // the stack that came over the wire.
  datatype Origin = Origin(wrapSite: Option<Frame>, captured: seq<Frame>, decoded: seq<Frame>)

  // The value of an Error object.
  datatype Record = Record(
    id: Identity, texts: Texts, traceID: string, spanID: string, fields: seq<Field>,
    cause: Err, suppressed: seq<Err>, barrier: bool, origin: Origin, fp: string)
  {
    // (*Error).Unwrap
    function Unwrap(): seq<Err> {
      if barrier then []
      else (if cause == Nil then [] else [cause]) + suppressed
    }

    // (*Error).Frames
    function Frames(): seq<Frame> {
      if origin.captured == [] then origin.decoded else origin.captured
    }

    // (*Error).originFrame
    function OriginFrame(): Frame {
      if Frames() == [] then Frame("", "", 0) else Frames()[0]
    }

    // The grouping key recomputed from the identity and the origin of the error.
    function FreshKey(): string {
      Key(id.domain, id.code, OriginFrame().function_, OriginFrame().line)
    }

    // What Fingerprint() returns: the cached key if there is one.
    function Fingerprint(): string {
      if fp != "" then fp else FreshKey()
    }
  }

  /** The key: the cached one, else the hash of domain, code, and function and line of the first
      frame, each but the last ended by a NUL. The captured stack comes before the decoded one. */
  lemma KeyHashes(r: Record)
    ensures r.Fingerprint() != ""
    ensures r.fp != "" ==> r.Fingerprint() == r.fp
    ensures r.fp == "" ==>
      var stack := if r.origin.captured != [] then r.origin.captured else r.origin.decoded;
      var at := if stack != [] then stack[0].function_ + [NUL] + Itoa(stack[0].line) else [NUL] + "0";
      r.Fingerprint() == Hex(Write(OFFSET, r.id.domain + [NUL] + (r.id.code + [NUL] + at)))
  {
    var of := r.OriginFrame();
    assert of.function_ == "" ==> of.function_ + [NUL] == [NUL];
    assert [DigitChar(0)] == "0";
  }

  // A record with every field at its zero value but the ones a constructor sets.
  function Fresh(msg: string, cause: Err, wrapSite: Option<Frame>, captured: seq<Frame>): Record {
    Record(Identity("", "", EXPECTED, SEV_ERROR, false, 0), Texts(msg, "", "", "", "", map[]), "", "", [],
           cause, [], false, Origin(wrapSite, captured, []), "")
  }

  function NonNil(errs: seq<Err>): seq<Err>
  {
    if errs == [] then []
    else (if errs[0] == Nil then [] else [errs[0]]) + NonNil(errs[1..])
  }

  lemma {:induction false} NonNilSnoc(errs: seq<Err>, x: Err)
    ensures NonNil(errs + [x]) == NonNil(errs) + (if x == Nil then [] else [x])
  {
    if errs == [] {
      assert errs + [x] == [x];
    } else {
      var head, rest := if errs[0] == Nil then [] else [errs[0]], NonNil(errs[1..]);
      assert (errs + [x])[1..] == errs[1..] + [x];
      NonNilSnoc(errs[1..], x);
      assert head + (rest + (if x == Nil then [] else [x])) == head + rest + (if x == Nil then [] else [x]);
    }
  }

  // What one registered context extractor returned.
  datatype Extracted = Extracted(traceID: string, spanID: string, fields: seq<Field>)

  // The id already set, else the first non-empty one that was found.
  function FirstID(set_: string, ids: seq<string>): string
    decreases |ids|
  {
    if set_ != "" || ids == [] then set_ else FirstID(ids[0], ids[1..])
  }

  function TraceIDs(found: seq<Extracted>): (ids: seq<string>)
    ensures |ids| == |found|
  {
    if found == [] then [] else TraceIDs(found[..|found| - 1]) + [found[|found| - 1].traceID]
  }

  function SpanIDs(found: seq<Extracted>): (ids: seq<string>)
    ensures |ids| == |found|
  {
    if found == [] then [] else SpanIDs(found[..|found| - 1]) + [found[|found| - 1].spanID]
  }

  function Flatten(found: seq<Extracted>): seq<Field> {
    if found == [] then [] else Flatten(found[..|found| - 1]) + found[|found| - 1].fields
  }

  lemma {:induction false} FirstIDSnoc(set_: string, ids: seq<string>, id: string)
    ensures FirstID(set_, ids + [id]) == if FirstID(set_, ids) != "" then FirstID(set_, ids) else id
    decreases |ids|
  {
    if set_ == "" {
      if ids == [] {
        assert ids + [id] == [id];
      } else {
        assert (ids + [id])[1..] == ids[1..] + [id];
        FirstIDSnoc(ids[0], ids[1..], id);
      }
    }
  }

  /** What Context merges: the id already set, else the first non-empty one found, else none; and
      every extracted field, in order. */
  lemma {:induction false} MergedIDs(set_: string, ids: seq<string>)
    ensures set_ != "" ==> FirstID(set_, ids) == set_
    ensures set_ == "" && (forall i :: 0 <= i < |ids| ==> ids[i] == "") ==> FirstID(set_, ids) == ""
    ensures forall i :: set_ == "" && 0 <= i < |ids| && ids[i] != "" && (forall k :: 0 <= k < i ==> ids[k] == "") ==>
      FirstID(set_, ids) == ids[i]
    decreases |ids|
  {
    if set_ == "" && ids != [] {
      MergedIDs(ids[0], ids[1..]);
      forall i | 0 <= i < |ids| && ids[i] != "" && (forall k :: 0 <= k < i ==> ids[k] == "")
        ensures FirstID(set_, ids) == ids[i]
      {
        if i > 0 {
          assert ids[0] == "" && ids[1..][i - 1] == ids[i];
          assert forall k :: 0 <= k < i - 1 ==> ids[1..][k] == ids[k + 1];
        }
      }
    }
  }

  lemma {:induction false} ExtractedAt(found: seq<Extracted>)
    ensures forall i :: 0 <= i < |found| ==> TraceIDs(found)[i] == found[i].traceID
    ensures forall i :: 0 <= i < |found| ==> SpanIDs(found)[i] == found[i].spanID
  {
    if found != [] {
      ExtractedAt(found[..|found| - 1]);
    }
  }

  lemma FlattenSnoc(found: seq<Extracted>, x: Extracted)
    ensures Flatten(found + [x]) == Flatten(found) + x.fields
  {
    assert (found + [x])[..|found|] == found;
  }

  lemma Assoc3<T>(a: seq<T>, b: seq<T>, c: seq<T>, d: seq<T>)
    ensures a + b + c + d == a + b + (c + d)
  {
  }

  lemma {:induction false} FlattenMiddle(before: seq<Extracted>, x: Extracted, after: seq<Extracted>)
    ensures Flatten(before + [x] + after) == Flatten(before) + x.fields + Flatten(after)
    decreases |after|
  {
    if after == [] {
      assert before + [x] + after == before + [x];
      FlattenSnoc(before, x);
    } else {
      var init, last := after[..|after| - 1], after[|after| - 1];
      assert before + [x] + after == before + [x] + init + [last] && after == init + [last];
      FlattenMiddle(before, x, init);
      FlattenSnoc(before + [x] + init, last);
      Assoc3(Flatten(before), x.fields, Flatten(init), last.fields);
    }
  }

  // One more extractor.
  lemma EnrichSnoc(trace: string, span: string, found: seq<Extracted>, i: nat)
    requires i < |found|
    ensures var t := FirstID(trace, TraceIDs(found[..i]));
            FirstID(trace, TraceIDs(found[..i + 1])) == if t != "" then t else found[i].traceID
    ensures var s := FirstID(span, SpanIDs(found[..i]));
            FirstID(span, SpanIDs(found[..i + 1])) == if s != "" then s else found[i].spanID
    ensures Flatten(found[..i + 1]) == Flatten(found[..i]) + found[i].fields
  {
    var now, next := found[..i], found[..i + 1];
    assert next[..|next| - 1] == now;
    FirstIDSnoc(trace, TraceIDs(now), found[i].traceID);
    FirstIDSnoc(span, SpanIDs(now), found[i].spanID);
  }

  class Error {
    var domain: string
    var code: string
    var class_: Class
    var severity: Severity
    var retryable: bool
    var retryAfter: int
    var msg: string
    var publicMsg: string
    var hint: string
    var owner: string
    var docURL: string
    var localized: map<string, string>
    var traceID: string
    var spanID: string
    var fields: seq<Field>
    var cause: Err
    var suppressed: seq<Err>
    var barrier: bool
    var fp: string
    const origin: Origin

    function Id(): Identity
      reads this
    {
      Identity(domain, code, class_, severity, retryable, retryAfter)
    }

    function Text(): Texts
      reads this
    {
      Texts(msg, publicMsg, hint, owner, docURL, localized)
    }

    function Value(): Record
      reads this
    {
      Record(Id(), Text(), traceID, spanID, fields, cause, suppressed, barrier, origin, fp)
    }

    // &Error{...}
    constructor (r: Record)
      ensures Value() == r
    {
      domain, code, class_, severity := r.id.domain, r.id.code, r.id.class_, r.id.severity;
      retryable, retryAfter := r.id.retryable, r.id.retryAfter;
      msg, publicMsg, hint, owner := r.texts.msg, r.texts.public, r.texts.hint, r.texts.owner;
      docURL, localized := r.texts.docURL, r.texts.localized;
      traceID, spanID, fields, cause, suppressed := r.traceID, r.spanID, r.fields, r.cause, r.suppressed;
      barrier, origin, fp := r.barrier, r.origin, r.fp;
    }

    method WithDomain(d: string)
      modifies this`domain, this`fp
      ensures Value() == old(Value()).(id := old(Id()).(domain := d), fp := "")
    {
      domain, fp := d, "";
    }

    method WithCode(c: string)
      modifies this`code, this`fp
      ensures Value() == old(Value()).(id := old(Id()).(code := c), fp := "")
    {
      code, fp := c, "";
    }

    method WithClass(c: Class)
      modifies this`class_
      ensures Value() == old(Value()).(id := old(Id()).(class_ := c))
    {
      class_ := c;
    }

    method WithRetryable(after: int)
      modifies this`retryable, this`retryAfter
      ensures Value() == old(Value()).(id := old(Id()).(retryable := true, retryAfter := after))
    {
      retryable, retryAfter := true, after;
    }

    method With(key: string, value: Value)
      modifies this`fields
      ensures Value() == old(Value()).(fields := old(fields) + [Field(key, value, false)])
    {
      fields := fields + [Field(key, value, false)];
    }

    method WithSafe(key: string, value: Value)
      modifies this`fields
      ensures Value() == old(Value()).(fields := old(fields) + [Field(key, value, true)])
    {
      fields := fields + [Field(key, value, true)];
    }

    // The in-place half of Note: a breadcrumb that also drops the cached fingerprint.
    method Annotate(key: string, value: Value)
      modifies this`fields, this`fp
      ensures Value() == old(Value()).(fields := old(fields) + [Field(key, value, false)], fp := "")
    {
      fields, fp := fields + [Field(key, value, false)], "";
    }

    // Records every non-nil secondary error, in order, after the ones already there.
    method Suppress(errs: seq<Err>)
      modifies this`suppressed
      ensures Value() == old(Value()).(suppressed := old(suppressed) + NonNil(errs))
    {
      for i := 0 to |errs|
        invariant suppressed == old(suppressed) + NonNil(errs[..i])
      {
        NonNilSnoc(errs[..i], errs[i]);
        assert errs[..i + 1] == errs[..i] + [errs[i]];
        if errs[i] != Nil {
          suppressed := suppressed + [errs[i]];
        }
      }
      assert errs[..|errs|] == errs;
    }

    method Opaque()
      modifies this`barrier
      ensures Value() == old(Value()).(barrier := true)
    {
      barrier := true;
    }

    method WithSeverity(s: Severity)
      modifies this`severity
      ensures Value() == old(Value()).(id := old(Id()).(severity := s))
    {
      severity := s;
    }

    method WithPublic(m: string)
      modifies this`publicMsg
      ensures Value() == old(Value()).(texts := old(Text()).(public := m))
    {
      publicMsg := m;
    }

    method WithHint(h: string)
      modifies this`hint
      ensures Value() == old(Value()).(texts := old(Text()).(hint := h))
    {
      hint := h;
    }

    method WithOwner(o: string)
      modifies this`owner
      ensures Value() == old(Value()).(texts := old(Text()).(owner := o))
    {
      owner := o;
    }

    method WithTrace(trace: string, span: string)
      modifies this`traceID, this`spanID
      ensures Value() == old(Value()).(traceID := trace, spanID := span)
    {
      traceID, spanID := trace, span;
    }

    method WithURL(url: string)
      modifies this`docURL
      ensures Value() == old(Value()).(texts := old(Text()).(docURL := url))
    {
      docURL := url;
    }

    method WithLocalized(locale: string, m: string)
      modifies this`localized
      ensures Value() == old(Value()).(texts := old(Text()).(localized := old(localized)[locale := m]))
    {
      localized := localized[locale := m];
    }

    // The body of the loop over the extractors.
    method Merge(ex: Extracted)
      modifies this`traceID, this`spanID, this`fields
      ensures traceID == if old(traceID) != "" then old(traceID) else ex.traceID
      ensures spanID == if old(spanID) != "" then old(spanID) else ex.spanID
      ensures fields == old(fields) + ex.fields
    {
      if ex.traceID != "" && traceID == "" {
        traceID := ex.traceID;
      }
      if ex.spanID != "" && spanID == "" {
        spanID := ex.spanID;
      }
      if |ex.fields| > 0 {
        fields := fields + ex.fields;
      }
    }

    // ctx.go: a nil context changes nothing. Otherwise the first non-empty ids win over later
    // ones, ids already set win over all, and the cached fingerprint is dropped. `found` is
    // what the extractors return, in order; None stands for a nil context.
    method Context(found: Option<seq<Extracted>>)
      modifies this`traceID, this`spanID, this`fields, this`fp
      ensures found.None? ==> Value() == old(Value())
      ensures found.Some? ==> traceID == FirstID(old(traceID), TraceIDs(found.value))
      ensures found.Some? ==> spanID == FirstID(old(spanID), SpanIDs(found.value))
      ensures found.Some? ==> fields == old(fields) + Flatten(found.value)
      ensures found.Some? ==> fp == ""
    {
      if found.None? {
        return;
      }
      var exs := found.value;
      for i := 0 to |exs|
        invariant traceID == FirstID(old(traceID), TraceIDs(exs[..i]))
        invariant spanID == FirstID(old(spanID), SpanIDs(exs[..i]))
        invariant fields == old(fields) + Flatten(exs[..i])
      {
        EnrichSnoc(old(traceID), old(spanID), exs, i);
        Merge(exs[i]);
      }
      assert exs[..|exs|] == exs;
      fp := "";
    }

    // fingerprint.go: computed once by streaming into the hash, then cached.
    method Fingerprint() returns (key: string)
      modifies this`fp
      ensures key == old(Value()).Fingerprint()
      ensures Value() == old(Value()).(fp := key)
    {
      if fp != "" {
        return fp;
      }
      var of := Value().OriginFrame();
      var h := Write(OFFSET, domain);
      h := Write(h, [NUL]);
      h := Write(h, code);
      h := Write(h, [NUL]);
      h := Write(h, of.function_);
      h := Write(h, [NUL]);
      h := Write(h, Itoa(of.line));
      WritesAreFramed(OFFSET, domain, code, of.function_, of.line);
      fp := Hex(h);
      key := fp;
    }
  }

  // ---- the object graph --------------------------------------------------------

  type Graph = map<Error, Record>

  // Every object that x mentions is one of keys.
  ghost predicate Known(x: Err, keys: set<Error>) {
    match x
    case Nil => true
    case Structured(e) => e in keys
    case Multi(errs) => forall c :: c in errs ==> Known(c, keys)
    case Foreign(_, _, Leaf, _) => true
    case Foreign(_, _, One(c), _) => Known(c, keys)
    case Foreign(_, _, Many(cs), _) => forall c :: c in cs ==> Known(c, keys)
  }

  ghost predicate AllKnown(xs: seq<Err>, keys: set<Error>) {
    forall c :: c in xs ==> Known(c, keys)
  }

  ghost predicate Closed(g: Graph) {
    forall e :: e in g ==> Known(g[e].cause, g.Keys) && AllKnown(g[e].suppressed, g.Keys)
  }
}
