/** errdefer.go and Join: folding secondary errors into an error variable, and runs of such calls. */
module ErrDefer {
  import opened Common
  import opened Errors
  import opened Tree
  import opened Inspect
  import opened Suppression

  // construct.go: nil for no error, the sole error unchanged, else a bundle.
  method Join(errs: seq<Err>) returns (r: Err)
    ensures r == match |NonNil(errs)| case 0 => Nil case 1 => NonNil(errs)[0] case _ => Multi(NonNil(errs))
  {
    var n, only := 0, Nil;
    for i := 0 to |errs|
      invariant n == |NonNil(errs[..i])| && (n > 0 ==> only == NonNil(errs[..i])[n - 1])
    {
      NonNilSnoc(errs[..i], errs[i]);
      assert errs[..i + 1] == errs[..i] + [errs[i]];
      if errs[i] != Nil {
        n, only := n + 1, errs[i];
      }
    }
    assert errs[..|errs|] == errs;
    if n == 0 {
      return Nil;
    } else if n == 1 {
      return only;
    }
    var kept: seq<Err> := [];
    for i := 0 to |errs|
      invariant kept == NonNil(errs[..i])
    {
      NonNilSnoc(errs[..i], errs[i]);
      assert errs[..i + 1] == errs[..i] + [errs[i]];
      if errs[i] != Nil {
        kept := kept + [errs[i]];
      }
    }
    r := Multi(kept);
  }

  // An error variable, the target of an *error.
  class ErrorVar {
    var err: Err

    constructor (e: Err)
      ensures err == e
    {
      err := e;
    }
  }

  // What one call does to the graph and to the variable.
  ghost function AppendStep(g: Graph, err: Err, extra: Err): (Graph, Err)
    requires Acyclic(g)
  {
    var nearest := FirstError(Pre(err, g));
    if extra == Nil then (g, err)
    else if err == Nil then (g, extra)
    else if nearest.Some? && nearest.value in g then (Attach(g, nearest.value, [extra]), err)
    else (g, Multi([err, extra]))
  }

  method AppendSuppressed(errp: ErrorVar?, extra: Err, ghost g: Graph)
    requires Mirrors(g) && Sound(g) && Known(extra, g.Keys)
    requires errp != null ==> Known(errp.err, g.Keys)
    modifies if errp == null then {} else {errp}, g.Keys`suppressed
    ensures errp == null ==> Mirrors(g)
    ensures errp != null ==> errp.err == AppendStep(g, old(errp.err), extra).1
    ensures errp != null ==> Mirrors(AppendStep(g, old(errp.err), extra).0)
    ensures errp != null && old(errp.err) == Nil ==> errp.err == extra && Mirrors(g)
    ensures errp != null && extra == Nil ==> errp.err == old(errp.err) && Mirrors(g)
    ensures errp != null && old(errp.err) != Nil && extra != Nil ==>
      errp.err == if FirstError(Pre(old(errp.err), g)).Some? then old(errp.err) else Multi([old(errp.err), extra])
  {
    if errp == null || extra == Nil {
      return;
    }
    AppendTo(errp, extra, g);
  }

  // There are a variable and an error to record.
  method AppendTo(errp: ErrorVar, extra: Err, ghost g: Graph)
    requires Mirrors(g) && Sound(g) && Known(errp.err, g.Keys) && extra != Nil
    modifies errp, g.Keys`suppressed
    ensures errp.err == AppendStep(g, old(errp.err), extra).1 && Mirrors(AppendStep(g, old(errp.err), extra).0)
    ensures old(errp.err) == Nil ==> errp.err == extra && Mirrors(g)
    ensures old(errp.err) != Nil ==>
      errp.err == if FirstError(Pre(old(errp.err), g)).Some? then old(errp.err) else Multi([old(errp.err), extra])
  {
    if errp.err == Nil {
      StepFromNil(g, extra);
      Set(errp, extra, g);
    } else {
      FoldInto(errp, extra, g);
    }
  }

  lemma StepFromNil(g: Graph, extra: Err)
    requires Acyclic(g) && extra != Nil
    ensures AppendStep(g, Nil, extra) == (g, extra)
  {
  }

  method Set(errp: ErrorVar, err: Err, ghost g: Graph)
    requires Mirrors(g)
    modifies errp
    ensures errp.err == err && Mirrors(g)
  {
    errp.err := err;
  }

  // Both errors are there: attach to the nearest *Error, or bundle.
  method FoldInto(errp: ErrorVar, extra: Err, ghost g: Graph)
    requires Mirrors(g) && Sound(g) && Known(errp.err, g.Keys) && errp.err != Nil && extra != Nil
    modifies errp, g.Keys`suppressed
    ensures (errp.err == AppendStep(g, old(errp.err), extra).1) && Mirrors(AppendStep(g, old(errp.err), extra).0)
    ensures errp.err == if FirstError(Pre(old(errp.err), g)).Some? then old(errp.err) else Multi([old(errp.err), extra])
  {
    var err := errp.err;
    ghost var s := AppendStep(g, err, extra);
    StepOnBoth(g, err, extra);
    var e := Get(err, g);
    if e.Some? {
      SuppressOne(e.value, extra, g);
    } else {
      JoinInto(errp, extra, g);
    }
  }

  method JoinInto(errp: ErrorVar, extra: Err, ghost g: Graph)
    requires errp.err != Nil && extra != Nil && Mirrors(g)
    modifies errp
    ensures errp.err == Multi([old(errp.err), extra]) && Mirrors(g)
  {
    JoinOfTwo(errp.err, extra);
    errp.err := Join([errp.err, extra]);
  }

  lemma StepOnBoth(g: Graph, err: Err, extra: Err)
    requires Sound(g) && Known(err, g.Keys) && err != Nil && extra != Nil
    ensures FirstError(Pre(err, g)).None? ==> AppendStep(g, err, extra) == (g, Multi([err, extra]))
    ensures FirstError(Pre(err, g)).Some? ==>
      FirstError(Pre(err, g)).value in g
      && AppendStep(g, err, extra) == (Attach(g, FirstError(Pre(err, g)).value, [extra]), err)
    ensures NonNil([err, extra]) == [err, extra]
  {
    NearestIsKnown(err, g);
    JoinOfTwo(err, extra);
  }

  lemma JoinOfTwo(a: Err, b: Err)
    requires a != Nil && b != Nil
    ensures NonNil([a, b]) == [a, b]
  {
    NonNilHead([b]);
    NonNilHead([a, b]);
  }

  lemma NonNilHead(xs: seq<Err>)
    requires xs != []
    ensures NonNil(xs) == (if xs[0] == Nil then [] else [xs[0]]) + NonNil(xs[1..])
    ensures xs[0] == Nil ==> NonNil(xs) == NonNil(xs[1..])
    ensures xs == [xs[0]] && xs[0] != Nil ==> NonNil(xs) == xs
  {
  }

  method SuppressOne(e: Error, extra: Err, ghost g: Graph)
    requires Mirrors(g) && e in g && extra != Nil
    modifies e`suppressed
    ensures Mirrors(Attach(g, e, [extra]))
  {
    NonNilHead([extra]);
    e.Suppress([extra]);
  }

  // c.Close() for a closer that is there returns some error, nil on success.
  method CloseSuppressing(errp: ErrorVar?, closed: Option<Err>, ghost g: Graph)
    requires Mirrors(g) && Sound(g) && (closed.Some? ==> Known(closed.value, g.Keys))
    requires errp != null ==> Known(errp.err, g.Keys)
    modifies if errp == null then {} else {errp}, g.Keys`suppressed
    ensures errp == null ==> Mirrors(g)
    ensures errp != null ==>
      errp.err == AppendStep(g, old(errp.err), if closed.Some? then closed.value else Nil).1
    ensures errp != null ==>
      Mirrors(AppendStep(g, old(errp.err), if closed.Some? then closed.value else Nil).0)
    ensures errp != null && (closed.None? || closed.value == Nil) ==> errp.err == old(errp.err) && Mirrors(g)
    ensures errp != null && old(errp.err) == Nil && closed.Some? ==> errp.err == closed.value && Mirrors(g)
  {
    if closed.None? {
      return;
    }
    if closed.value != Nil {
      AppendSuppressed(errp, closed.value, g);
    }
  }

  // ---- runs ------------------------------------------------------------------------

  // The call does not make the nearest *Error visible from itself.
  ghost predicate SafeStep(g: Graph, err: Err, extra: Err)
    requires Acyclic(g)
  {
    var e := FirstError(Pre(err, g));
    extra != Nil && e.Some? && e.value in g ==> g[e.value].barrier || !Reaches([extra], e.value, g)
  }

  ghost predicate SafeRun(g: Graph, err: Err, extras: seq<Err>)
    decreases |extras|
  {
    Acyclic(g)
    && (extras == [] ||
        (SafeStep(g, err, extras[0])
         && var s := AppendStep(g, err, extras[0]); SafeRun(s.0, s.1, extras[1..])))
  }

  ghost function AppendRun(g: Graph, err: Err, extras: seq<Err>): (Graph, Err)
    requires SafeRun(g, err, extras)
    decreases |extras|
  {
    if extras == [] then (g, err)
    else var s := AppendStep(g, err, extras[0]); AppendRun(s.0, s.1, extras[1..])
  }

  lemma StepIsConservative(g: Graph, err: Err, extra: Err)
    requires Acyclic(g) && SafeStep(g, err, extra)
    ensures var s := AppendStep(g, err, extra); Acyclic(s.0) && Within(Pre(err, g), Pre(s.1, s.0))
    ensures err != Nil || extra != Nil ==> AppendStep(g, err, extra).1 != Nil
  {
    var e := FirstError(Pre(err, g));
    WithinSelf(Pre(err, g));
    if extra != Nil && err != Nil {
      if e.Some? && e.value in g {
        SuppressIsConservative(err, g, e.value, [extra]);
      } else {
        assert [err, extra][1..] == [extra] && [extra][1..] == [];
        var l, m := Pre(err, g), Pre(extra, g);
        PreOne(extra, g);
        assert PreAll([err, extra], g) == l + PreAll([extra], g);
        WithinMore(l, l, m);
        WithinMore(l, l + m, [Multi([err, extra])]);
      }
    }
  }

  /** A safe call leaves a graph and an error that the next call may be made on. */
  lemma StepKeepsSound(g: Graph, err: Err, extra: Err)
    requires Sound(g) && Known(err, g.Keys) && Known(extra, g.Keys) && SafeStep(g, err, extra)
    ensures var s := AppendStep(g, err, extra); Sound(s.0) && s.0.Keys == g.Keys && Known(s.1, g.Keys)
  {
    StepIsConservative(g, err, extra);
    var e := FirstError(Pre(err, g));
    if extra != Nil && err != Nil && e.Some? && e.value in g {
      AttachIsClosed(g, e.value, extra);
    }
  }

  lemma AttachIsClosed(g: Graph, e: Error, extra: Err)
    requires Closed(g) && e in g && Known(extra, g.Keys)
    ensures Closed(Attach(g, e, [extra])) && Attach(g, e, [extra]).Keys == g.Keys
  {
    var h := Attach(g, e, [extra]);
    forall x | x in h ensures Known(h[x].cause, g.Keys) && AllKnown(h[x].suppressed, g.Keys) {
      if x == e {
        KnownSnoc(g[e].suppressed, extra, g.Keys);
      }
    }
    assert h.Keys == g.Keys;
  }

  lemma KnownSnoc(xs: seq<Err>, x: Err, keys: set<Error>)
    requires AllKnown(xs, keys) && Known(x, keys)
    ensures AllKnown(xs + [x], keys)
  {
  }

  // What the closers returned; a closer that is not there adds nothing.
  function Closings(closers: seq<Option<Err>>): (xs: seq<Err>)
    ensures |xs| == |closers|
    ensures forall i :: 0 <= i < |closers| ==> xs[i] == if closers[i].Some? then closers[i].value else Nil
  {
    if closers == [] then []
    else [if closers[0].Some? then closers[0].value else Nil] + Closings(closers[1..])
  }

  lemma RunUnfold(g: Graph, err: Err, xs: seq<Err>, i: nat)
    requires i < |xs| && SafeRun(g, err, xs[i..])
    ensures SafeStep(g, err, xs[i])
    ensures var s := AppendStep(g, err, xs[i]);
            SafeRun(s.0, s.1, xs[i + 1..]) && AppendRun(s.0, s.1, xs[i + 1..]) == AppendRun(g, err, xs[i..])
  {
    assert xs[i..][0] == xs[i] && xs[i..][1..] == xs[i + 1..];
  }

  // One closer of a safe run; h is the graph afterwards.
  method CloseNext(errp: ErrorVar, closed: Option<Err>, ghost extra: Err, ghost g: Graph) returns (ghost h: Graph)
    requires Mirrors(g) && Sound(g) && Known(errp.err, g.Keys) && Known(extra, g.Keys)
    requires extra == (if closed.Some? then closed.value else Nil) && SafeStep(g, errp.err, extra)
    modifies errp, g.Keys`suppressed
    ensures (h, errp.err) == AppendStep(g, old(errp.err), extra)
    ensures Mirrors(h) && Sound(h) && h.Keys == g.Keys && Known(errp.err, g.Keys)
  {
    h := AppendStep(g, errp.err, extra).0;
    StepKeepsSound(g, errp.err, extra);
    CloseSuppressing(errp, closed, g);
  }

  /** Deferred closers, run one after the other on one error variable, are a run of steps. */
  method CloseAll(errp: ErrorVar, closers: seq<Option<Err>>, ghost g: Graph)
    requires Mirrors(g) && Sound(g) && Known(errp.err, g.Keys) && AllKnown(Closings(closers), g.Keys)
    requires SafeRun(g, errp.err, Closings(closers))
    modifies errp, g.Keys`suppressed
    ensures var (g', err') := AppendRun(g, old(errp.err), Closings(closers));
            errp.err == err' && Mirrors(g') && Sound(g') && g'.Keys == g.Keys && Known(err', g.Keys)
    ensures old(errp.err) == Nil && |NonNil(Closings(closers))| == 1 ==>
      errp.err == NonNil(Closings(closers))[0] && Mirrors(g)
  {
    ghost var start, xs := errp.err, Closings(closers);
    CloseEach(errp, closers, g);
    if start == Nil && |NonNil(xs)| == 1 {
      SoleErrorIsResult(g, xs, NonNil(xs)[0]);
    }
  }

  // The closers in the order they run.
  method CloseEach(errp: ErrorVar, closers: seq<Option<Err>>, ghost g: Graph)
    requires Mirrors(g) && Sound(g) && Known(errp.err, g.Keys) && AllKnown(Closings(closers), g.Keys)
    requires SafeRun(g, errp.err, Closings(closers))
    modifies errp, g.Keys`suppressed
    ensures var (g', err') := AppendRun(g, old(errp.err), Closings(closers));
            errp.err == err' && Mirrors(g') && Sound(g') && g'.Keys == g.Keys && Known(err', g.Keys)
  {
    ghost var h, xs := g, Closings(closers);
    for i := 0 to |closers|
      invariant Mirrors(h) && Sound(h) && h.Keys == g.Keys && Known(errp.err, g.Keys)
      invariant SafeRun(h, errp.err, xs[i..])
      invariant AppendRun(h, errp.err, xs[i..]) == AppendRun(g, old(errp.err), xs)
    {
      RunUnfold(h, errp.err, xs, i);
      h := CloseNext(errp, closers[i], xs[i], h);
    }
  }

  /** Over any run of AppendSuppressed calls, from any start, the graph stays acyclic, nothing
      visible disappears or changes order, and an error once recorded is never lost. */
  lemma {:induction false} RunIsConservative(g: Graph, err: Err, extras: seq<Err>)
    requires SafeRun(g, err, extras)
    ensures var s := AppendRun(g, err, extras); Acyclic(s.0) && Within(Pre(err, g), Pre(s.1, s.0))
    ensures AppendRun(g, err, extras).1 == Nil <==> err == Nil && NonNil(extras) == []
    decreases |extras|
  {
    if extras == [] {
      WithinSelf(Pre(err, g));
    } else {
      StepIsConservative(g, err, extras[0]);
      var s, t := AppendStep(g, err, extras[0]), AppendRun(g, err, extras);
      RunIsConservative(s.0, s.1, extras[1..]);
      WithinTransitive(Pre(err, g), Pre(s.1, s.0), Pre(t.1, t.0));
    }
  }

  lemma {:induction false} NilsAreInvisible(xs: seq<Err>, g: Graph)
    requires Acyclic(g)
    ensures PreAll(NonNil(xs), g) == PreAll(xs, g)
  {
    if xs != [] {
      NilsAreInvisible(xs[1..], g);
      NonNilHead(xs);
      assert PreAll(xs, g) == Pre(xs[0], g) + PreAll(xs[1..], g);
      if xs[0] != Nil {
        assert NonNil(xs)[0] == xs[0] && NonNil(xs)[1..] == NonNil(xs[1..]);
      }
    }
  }

  lemma AttachTwice(g: Graph, e: Error, x: Err, ys: seq<Err>)
    requires e in g
    ensures Attach(Attach(g, e, [x]), e, ys) == Attach(g, e, [x] + ys)
  {
    Assoc(g[e].suppressed, [x], ys);
  }

  // After the first error the rest of the run stands where it stood.
  lemma FirstOfRun(g: Graph, err: Err, e: Error, x: Err, rest: seq<Err>)
    requires Acyclic(g) && e in g && FirstError(Pre(err, g)) == Some(e) && x != Nil
    requires g[e].barrier || !(Structured(e) in Pre(x, g) + PreAll(rest, g))
    ensures SafeStep(g, err, x) && AppendStep(g, err, x) == (Attach(g, e, [x]), err)
    ensures var g1 := Attach(g, e, [x]);
            Acyclic(g1) && FirstError(Pre(err, g1)) == Some(e)
            && g1[e].barrier == g[e].barrier && (g1[e].barrier || !Reaches(rest, e, g1))
  {
    PreOne(x, g);
    SuppressIsConservative(err, g, e, [x]);
    if !g[e].barrier {
      AllUnseenUnchanged(rest, g, e, [x], RankOf(g), RankOf(Attach(g, e, [x])));
    }
  }

  /** If the variable holds an error whose nearest *Error is e, and e is opaque or not visible
      from any of the errors, the run is safe and does one thing: it appends them, nils left
      out and in order, to the suppressed errors of e. */
  lemma {:induction false} RunAttachesInOrder(g: Graph, err: Err, e: Error, extras: seq<Err>)
    requires Acyclic(g) && e in g && FirstError(Pre(err, g)) == Some(e)
    requires g[e].barrier || !Reaches(extras, e, g)
    ensures SafeRun(g, err, extras)
    ensures AppendRun(g, err, extras) == (Attach(g, e, NonNil(extras)), err)
    decreases |extras|
  {
    if extras == [] {
      assert Attach(g, e, []) == g by { assert g[e].suppressed + [] == g[e].suppressed; }
    } else {
      var x, rest := extras[0], extras[1..];
      NonNilHead(extras);
      if x == Nil {
        RunAttachesInOrder(g, err, e, rest);
      } else {
        FirstOfRun(g, err, e, x, rest);
        RunAttachesInOrder(Attach(g, e, [x]), err, e, rest);
        AttachTwice(g, e, x, NonNil(rest));
      }
    }
  }

  /** So however many closers fail on the way out, Code keeps what e or anything before it
      resolved, the nearest *Error is still e, and every close error can be found. */
  lemma RunKeepsIdentity(g: Graph, err: Err, e: Error, extras: seq<Err>)
    requires Acyclic(g) && e in g && FirstError(Pre(err, g)) == Some(e)
    requires !g[e].barrier && !Reaches(extras, e, g)
    ensures SafeRun(g, err, extras)
    ensures var (g', err') := AppendRun(g, err, extras);
            Acyclic(g') && err' == err && FirstError(Pre(err, g')) == Some(e)
            && (OwnCodeOf(err, g, e) != "" ==> FirstCode(Pre(err, g'), g') == FirstCode(Pre(err, g), g))
            && forall z :: z in PreAll(extras, g) ==> z in Pre(err, g')
  {
    RunAttachesInOrder(g, err, e, extras);
    NilsAreInvisible(extras, g);
    SuppressIsConservative(err, g, e, NonNil(extras));
  }

  // ---- what a run shows -----------------------------------------------------------------

  lemma {:induction false} NilsChangeNothing(g: Graph, err: Err, extras: seq<Err>)
    requires Acyclic(g) && NonNil(extras) == []
    ensures SafeRun(g, err, extras) && AppendRun(g, err, extras) == (g, err)
    decreases |extras|
  {
    if extras != [] {
      NonNilHead(extras);
      NilsChangeNothing(g, err, extras[1..]);
    }
  }

  /** From success, the first error of a closer becomes the error, and the graph stays. */
  lemma {:induction false} FirstErrorIsRecorded(g: Graph, extras: seq<Err>, i: nat)
    requires Acyclic(g) && i < |extras| && extras[i] != Nil && forall j :: 0 <= j < i ==> extras[j] == Nil
    ensures SafeRun(g, Nil, extras[..i + 1]) && AppendRun(g, Nil, extras[..i + 1]) == (g, extras[i])
    decreases i
  {
    var first := extras[..i + 1];
    if i > 0 {
      FirstErrorIsRecorded(g, extras[1..], i - 1);
      assert first[1..] == extras[1..][..i];
    } else {
      assert first == [extras[0]] && first[1..] == [];
    }
  }

  /** If one closer alone fails, its error is the result, as it was returned. */
  lemma {:induction false} SoleErrorIsResult(g: Graph, extras: seq<Err>, x: Err)
    requires Acyclic(g) && NonNil(extras) == [x]
    ensures SafeRun(g, Nil, extras) && AppendRun(g, Nil, extras) == (g, x)
    decreases |extras|
  {
    NonNilHead(extras);
    if extras[0] == Nil {
      SoleErrorIsResult(g, extras[1..], x);
    } else {
      assert NonNil(extras)[0] == extras[0] && NonNil(extras)[1..] == NonNil(extras[1..]);
      NilsChangeNothing(g, x, extras[1..]);
    }
  }

  // What is attached to err now stays out of sight.
  ghost predicate Hides(g: Graph, err: Err)
    requires Acyclic(g)
  {
    var e := FirstError(Pre(err, g));
    e.Some? && e.value in g && g[e.value].barrier
  }

  // The i-th error of the run is attached to an opaque object.
  ghost predicate HiddenAt(g: Graph, err: Err, extras: seq<Err>, i: nat)
    requires SafeRun(g, err, extras) && i < |extras|
    decreases |extras|
  {
    if i == 0 then Hides(g, err)
    else var s := AppendStep(g, err, extras[0]); HiddenAt(s.0, s.1, extras[1..], i - 1)
  }

  lemma BundleShows(g: Graph, err: Err, x: Err)
    requires Acyclic(g)
    ensures forall z :: z in Pre(x, g) ==> z in Pre(Multi([err, x]), g)
  {
    var m := Multi([err, x]);
    PreUnfold(m, g);
    PreOne(x, g);
    assert [err, x][1..] == [x];
    assert PreAll([err, x], g) == Pre(err, g) + PreAll([x], g);
  }

  lemma StepShows(g: Graph, err: Err, x: Err)
    requires Acyclic(g) && SafeStep(g, err, x) && x != Nil && !Hides(g, err)
    ensures var s := AppendStep(g, err, x); Acyclic(s.0) && forall z :: z in Pre(x, g) ==> z in Pre(s.1, s.0)
  {
    var e := FirstError(Pre(err, g));
    if err != Nil && e.Some? && e.value in g {
      SuppressIsConservative(err, g, e.value, [x]);
      PreOne(x, g);
    } else if err != Nil {
      BundleShows(g, err, x);
    }
  }

  lemma {:induction false} WithinMembers(a: seq<Err>, b: seq<Err>)
    requires Within(a, b)
    ensures forall z :: z in a ==> z in b
    decreases |b|
  {
    if a != [] {
      if a[0] == b[0] && Within(a[1..], b[1..]) {
        WithinMembers(a[1..], b[1..]);
      } else {
        WithinMembers(a, b[1..]);
      }
      assert forall z :: z in b[1..] ==> z in b;
      assert forall z :: z in a <==> z == a[0] || z in a[1..];
    }
  }

  lemma StepGrows(g: Graph, err: Err, x: Err, y: Err)
    requires Acyclic(g) && SafeStep(g, err, x)
    ensures var s := AppendStep(g, err, x); Acyclic(s.0) && forall z :: z in Pre(y, g) ==> z in Pre(y, s.0)
  {
    StepIsConservative(g, err, x);
    var e := FirstError(Pre(err, g));
    if x != Nil && err != Nil && e.Some? && e.value in g {
      var h := Attach(g, e.value, [x]);
      ListGrows(y, g, e.value, [x], RankOf(g), RankOf(h));
      WithinMembers(Pre(y, g), Pre(y, h));
    }
  }

  /** Over any safe run from any start, whatever a closer's error showed can be found at the end,
      unless the error was attached to an opaque object. */
  lemma {:induction false} RunShowsErrors(g: Graph, err: Err, extras: seq<Err>, i: nat)
    requires SafeRun(g, err, extras) && i < |extras| && extras[i] != Nil && !HiddenAt(g, err, extras, i)
    ensures var (g', err') := AppendRun(g, err, extras);
            Acyclic(g') && forall z :: z in Pre(extras[i], g) ==> z in Pre(err', g')
    decreases |extras|
  {
    var s := AppendStep(g, err, extras[0]);
    if i == 0 {
      StepShows(g, err, extras[0]);
      RunIsConservative(s.0, s.1, extras[1..]);
      var t := AppendRun(s.0, s.1, extras[1..]);
      WithinMembers(Pre(s.1, s.0), Pre(t.1, t.0));
    } else {
      StepGrows(g, err, extras[0], extras[i]);
      RunShowsErrors(s.0, s.1, extras[1..], i - 1);
    }
  }
}
