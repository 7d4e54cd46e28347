/**
 Secondary errors: what attaching them to an object deep inside an error does to everything
 that is visible from outside (errdefer.go, Suppress in errx.go, Join in construct.go).
 */
module Suppression {
  import opened Common
  import opened Errors
  import opened Tree

  // The graph after e.Suppress(xs...), for xs without nils.
  ghost function Attach(g: Graph, e: Error, xs: seq<Err>): Graph
    requires e in g
  {
    g[e := g[e].(suppressed := g[e].suppressed + xs)]
  }

  ghost predicate Reaches(xs: seq<Err>, e: Error, g: Graph)
    requires Acyclic(g)
  {
    Structured(e) in PreAll(xs, g)
  }

  // ---- acyclicity ----------------------------------------------------------------

  // r respects the edges of g, though it may rank more than g.
  ghost predicate Respects(g: Graph, r: Ranking) {
    forall x :: x in g ==> x in r && HeightAll(g[x].Unwrap(), r) <= r[x]
  }

  // Nothing listed under x is higher than x.
  lemma {:induction false} ListedIsLower(x: Err, z: Err, g: Graph, r: Ranking, q: Ranking)
    requires Ranks(g, r) && Respects(g, q) && z in PreBy(x, g, r)
    ensures Height(z, q) <= Height(x, q)
    decreases Height(x, r), x, 1
  {
    if z != x {
      match x
      case Structured(e) => AllListedLower(g[e].Unwrap(), z, g, r, q);
      case Multi(errs) => AllListedLower(errs, z, g, r, q);
      case Foreign(_, _, One(c), _) => ListedIsLower(c, z, g, r, q);
      case Foreign(_, _, Many(cs), _) => AllListedLower(cs, z, g, r, q);
    }
  }

  lemma {:induction false} AllListedLower(xs: seq<Err>, z: Err, g: Graph, r: Ranking, q: Ranking)
    requires Ranks(g, r) && Respects(g, q) && z in PreAllBy(xs, g, r)
    ensures Height(z, q) <= HeightAll(xs, q)
    decreases HeightAll(xs, r), xs, 0
  {
    if z in PreBy(xs[0], g, r) {
      ListedIsLower(xs[0], z, g, r, q);
    } else {
      AllListedLower(xs[1..], z, g, r, q);
    }
  }

  lemma NotUnderItself(e: Error, g: Graph)
    requires Acyclic(g) && e in g
    ensures !Reaches(g[e].Unwrap(), e, g)
  {
    if Reaches(g[e].Unwrap(), e, g) {
      AllListedLower(g[e].Unwrap(), Structured(e), g, RankOf(g), RankOf(g));
    }
  }

  // Raise by k every object from which e is visible.
  ghost function Raised(g: Graph, e: Error, k: nat): Ranking
    requires Acyclic(g)
  {
    var r := RankOf(g);
    map x | x in g :: if Structured(e) in PreBy(Structured(x), g, r) then r[x] + k else r[x]
  }

  lemma {:induction false} RaisedHeight(y: Err, g: Graph, e: Error, k: nat)
    requires Acyclic(g)
    ensures Structured(e) !in Pre(y, g) ==> Height(y, Raised(g, e, k)) == Height(y, RankOf(g))
    ensures Height(y, Raised(g, e, k)) <= Height(y, RankOf(g)) + k
    decreases y, 1
  {
    match y
    case Nil =>
    case Structured(z) =>
    case Multi(errs) => RaisedHeightAll(errs, g, e, k);
    case Foreign(_, _, Leaf, _) =>
    case Foreign(_, _, One(c), _) => RaisedHeight(c, g, e, k);
    case Foreign(_, _, Many(cs), _) => RaisedHeightAll(cs, g, e, k);
  }

  lemma {:induction false} RaisedHeightAll(ys: seq<Err>, g: Graph, e: Error, k: nat)
    requires Acyclic(g)
    ensures Structured(e) !in PreAll(ys, g) ==> HeightAll(ys, Raised(g, e, k)) == HeightAll(ys, RankOf(g))
    ensures HeightAll(ys, Raised(g, e, k)) <= HeightAll(ys, RankOf(g)) + k
    decreases ys, 0
  {
    if ys != [] {
      RaisedHeight(ys[0], g, e, k);
      RaisedHeightAll(ys[1..], g, e, k);
    }
  }

  lemma AttachedUnwrap(g: Graph, e: Error, xs: seq<Err>)
    requires e in g
    ensures Attach(g, e, xs)[e].Unwrap() == if g[e].barrier then [] else g[e].Unwrap() + xs
    ensures forall x :: x in g && x != e ==> Attach(g, e, xs)[x] == g[x]
  {
  }

  lemma RankedBelow(x: Error, g: Graph, e: Error, k: nat)
    requires Acyclic(g) && x in g
    ensures x != e ==> HeightAll(g[x].Unwrap(), Raised(g, e, k)) <= Raised(g, e, k)[x]
    ensures x == e ==> HeightAll(g[x].Unwrap(), Raised(g, e, k)) <= RankOf(g)[e]
    ensures Raised(g, e, k)[x] == if Structured(e) in Pre(Structured(x), g) then RankOf(g)[x] + k else RankOf(g)[x]
  {
    RaisedHeightAll(g[x].Unwrap(), g, e, k);
    if x == e {
      NotUnderItself(e, g);
    }
  }

  lemma AttachIsRanked(g: Graph, e: Error, xs: seq<Err>)
    requires Acyclic(g) && e in g && !g[e].barrier && !Reaches(xs, e, g)
    ensures Ranks(Attach(g, e, xs), Raised(g, e, HeightAll(xs, RankOf(g))))
  {
    var k, g' := HeightAll(xs, RankOf(g)), Attach(g, e, xs);
    var q := Raised(g, e, k);
    AttachedUnwrap(g, e, xs);
    forall x | x in g' ensures HeightAll(g'[x].Unwrap(), q) <= q[x] {
      RankedBelow(x, g, e, k);
      if x == e {
        RaisedHeightAll(xs, g, e, k);
        HeightAllAppend(g[e].Unwrap(), xs, q);
        PreUnfold(Structured(e), g);
      }
    }
  }

  lemma AttachMakesCycle(g: Graph, e: Error, xs: seq<Err>)
    requires Acyclic(g) && e in g && !g[e].barrier && Reaches(xs, e, g)
    ensures !Acyclic(Attach(g, e, xs))
  {
    if Acyclic(Attach(g, e, xs)) {
      var q := RankOf(Attach(g, e, xs));
      AttachedUnwrap(g, e, xs);
      HeightAllAppend(g[e].Unwrap(), xs, q);
      AllListedLower(xs, Structured(e), g, RankOf(g), q);
    }
  }

  /** Attaching secondary errors keeps the graph acyclic if and only if the object is opaque
      or is not visible from them. */
  lemma AcyclicAfterSuppress(g: Graph, e: Error, xs: seq<Err>)
    requires Acyclic(g) && e in g
    ensures Acyclic(Attach(g, e, xs)) <==> g[e].barrier || !Reaches(xs, e, g)
  {
    if g[e].barrier {
      AttachedUnwrap(g, e, xs);
      assert Ranks(Attach(g, e, xs), RankOf(g));
    } else if Reaches(xs, e, g) {
      AttachMakesCycle(g, e, xs);
    } else {
      AttachIsRanked(g, e, xs);
    }
  }

  // ---- what becomes visible --------------------------------------------------------

  // What does not see e, or sees it opaque, lists what it did.
  lemma {:induction false} UnseenIsUnchanged(y: Err, g: Graph, e: Error, xs: seq<Err>, r: Ranking, q: Ranking)
    requires e in g && Ranks(g, r) && Ranks(Attach(g, e, xs), q)
    requires g[e].barrier || Structured(e) !in PreBy(y, g, r)
    ensures PreBy(y, Attach(g, e, xs), q) == PreBy(y, g, r)
    decreases Height(y, r), y, 1
  {
    match y
    case Nil =>
    case Structured(z) => if z in g { AllUnseenUnchanged(g[z].Unwrap(), g, e, xs, r, q); }
    case Multi(errs) => AllUnseenUnchanged(errs, g, e, xs, r, q);
    case Foreign(_, _, Leaf, _) =>
    case Foreign(_, _, One(c), _) => UnseenIsUnchanged(c, g, e, xs, r, q);
    case Foreign(_, _, Many(cs), _) => AllUnseenUnchanged(cs, g, e, xs, r, q);
  }

  lemma {:induction false} AllUnseenUnchanged(ys: seq<Err>, g: Graph, e: Error, xs: seq<Err>, r: Ranking, q: Ranking)
    requires e in g && Ranks(g, r) && Ranks(Attach(g, e, xs), q)
    requires g[e].barrier || Structured(e) !in PreAllBy(ys, g, r)
    ensures PreAllBy(ys, Attach(g, e, xs), q) == PreAllBy(ys, g, r)
    decreases HeightAll(ys, r), ys, 0
  {
    if ys != [] {
      UnseenIsUnchanged(ys[0], g, e, xs, r, q);
      AllUnseenUnchanged(ys[1..], g, e, xs, r, q);
    }
  }

  lemma KidsAfterSuppress(g: Graph, e: Error, xs: seq<Err>)
    requires Acyclic(g) && e in g && !g[e].barrier && !Reaches(xs, e, g) && Acyclic(Attach(g, e, xs))
    ensures PreAll(g[e].Unwrap() + xs, Attach(g, e, xs)) == PreAll(g[e].Unwrap(), g) + PreAll(xs, g)
  {
    var g', kids := Attach(g, e, xs), g[e].Unwrap();
    PreAllByAppend(kids, xs, g', RankOf(g'));
    NotUnderItself(e, g);
    AllUnseenUnchanged(kids, g, e, xs, RankOf(g), RankOf(g'));
    AllUnseenUnchanged(xs, g, e, xs, RankOf(g), RankOf(g'));
  }

  /** The object itself lists what it listed, then the new secondary errors. */
  lemma ObjectAfterSuppress(g: Graph, e: Error, xs: seq<Err>)
    requires Acyclic(g) && e in g && !g[e].barrier && !Reaches(xs, e, g)
    ensures Acyclic(Attach(g, e, xs))
    ensures Pre(Structured(e), Attach(g, e, xs)) == Pre(Structured(e), g) + PreAll(xs, g)
  {
    AcyclicAfterSuppress(g, e, xs);
    AttachedUnwrap(g, e, xs);
    KidsAfterSuppress(g, e, xs);
    PreUnfold(Structured(e), g);
    PreUnfold(Structured(e), Attach(g, e, xs));
    Assoc([Structured(e)], PreAll(g[e].Unwrap(), g), PreAll(xs, g));
  }

  // a can be had from b by leaving errors out.
  ghost predicate Within(a: seq<Err>, b: seq<Err>)
    decreases |b|
  {
    a == [] || (b != [] && ((a[0] == b[0] && Within(a[1..], b[1..])) || Within(a, b[1..])))
  }

  lemma {:induction false} WithinSelf(a: seq<Err>)
    ensures Within(a, a)
  {
    if a != [] {
      WithinSelf(a[1..]);
    }
  }

  lemma {:induction false} WithinMore(a: seq<Err>, b: seq<Err>, c: seq<Err>)
    requires Within(a, b)
    ensures Within(a, b + c) && Within(a, c + b)
    decreases |b| + |c|
  {
    if a != [] {
      assert (b + c)[1..] == b[1..] + c;
      if a[0] == b[0] && Within(a[1..], b[1..]) {
        WithinMore(a[1..], b[1..], c);
      } else {
        WithinMore(a, b[1..], c);
      }
      if c == [] {
        assert c + b == b;
      } else {
        assert (c + b)[1..] == c[1..] + b;
        WithinMore(a, b, c[1..]);
      }
    }
  }

  lemma {:induction false} WithinAppend(a: seq<Err>, b: seq<Err>, c: seq<Err>, d: seq<Err>)
    requires Within(a, b) && Within(c, d)
    ensures Within(a + c, b + d)
    decreases |b|
  {
    if a == [] {
      assert a + c == c;
      WithinMore(c, d, b);
    } else {
      assert (b + d)[1..] == b[1..] + d && (a + c)[1..] == a[1..] + c;
      if a[0] == b[0] && Within(a[1..], b[1..]) {
        WithinAppend(a[1..], b[1..], c, d);
      } else {
        WithinAppend(a, b[1..], c, d);
      }
    }
  }

  lemma {:induction false} WithinTransitive(a: seq<Err>, b: seq<Err>, c: seq<Err>)
    requires Within(a, b) && Within(b, c)
    ensures Within(a, c)
    decreases |b| + |c|
  {
    if a != [] {
      if b[0] == c[0] && Within(b[1..], c[1..]) {
        if a[0] == b[0] && Within(a[1..], b[1..]) {
          WithinTransitive(a[1..], b[1..], c[1..]);
        } else {
          WithinTransitive(a, b[1..], c[1..]);
        }
      } else {
        WithinTransitive(a, b, c[1..]);
      }
    }
  }

  // From any error of the graph the old list is within the new one, and the nearest *Error
  // stays the nearest.
  lemma {:induction false} ListGrows(y: Err, g: Graph, e: Error, xs: seq<Err>, r: Ranking, q: Ranking)
    requires e in g && Ranks(g, r) && Ranks(Attach(g, e, xs), q)
    ensures Within(PreBy(y, g, r), PreBy(y, Attach(g, e, xs), q))
    ensures FirstError(PreBy(y, Attach(g, e, xs), q)) == FirstError(PreBy(y, g, r))
    decreases Height(y, r), y, 1
  {
    var g' := Attach(g, e, xs);
    match y
    case Nil =>
    case Structured(z) =>
      WithinSelf([y]);
      if z in g {
        ListsGrow(g[z].Unwrap(), g, e, xs, r, q);
        ObjectGrows(z, g, e, xs, r, q);
      }
    case Multi(errs) => RootThen(y, errs, g, e, xs, r, q);
    case Foreign(_, _, Leaf, _) => WithinSelf([y]);
    case Foreign(_, _, One(c), _) =>
      ListGrows(c, g, e, xs, r, q);
      WithinSelf([y]);
      WithinAppend([y], [y], PreBy(c, g, r), PreBy(c, g', q));
      FirstErrorAppend([y], PreBy(c, g, r));
      FirstErrorAppend([y], PreBy(c, g', q));
    case Foreign(_, _, Many(cs), _) => RootThen(y, cs, g, e, xs, r, q);
  }

  lemma ObjectGrows(z: Error, g: Graph, e: Error, xs: seq<Err>, r: Ranking, q: Ranking)
    requires e in g && z in g && Ranks(g, r) && Ranks(Attach(g, e, xs), q)
    requires Within(PreAllBy(g[z].Unwrap(), g, r), PreAllBy(g[z].Unwrap(), Attach(g, e, xs), q))
    ensures Within(PreBy(Structured(z), g, r), PreBy(Structured(z), Attach(g, e, xs), q))
  {
    var g', y, kids := Attach(g, e, xs), Structured(z), g[z].Unwrap();
    AttachedUnwrap(g, e, xs);
    if z == e && !g[e].barrier {
      PreAllByAppend(kids, xs, g', q);
      WithinMore(PreAllBy(kids, g, r), PreAllBy(kids, g', q), PreAllBy(xs, g', q));
    }
    WithinSelf([y]);
    WithinAppend([y], [y], PreAllBy(kids, g, r), PreAllBy(g'[z].Unwrap(), g', q));
  }

  lemma {:induction false} RootThen(y: Err, kids: seq<Err>, g: Graph, e: Error, xs: seq<Err>, r: Ranking, q: Ranking)
    requires e in g && Ranks(g, r) && Ranks(Attach(g, e, xs), q)
    ensures Within([y] + PreAllBy(kids, g, r), [y] + PreAllBy(kids, Attach(g, e, xs), q))
    ensures FirstError([y] + PreAllBy(kids, Attach(g, e, xs), q)) == FirstError([y] + PreAllBy(kids, g, r))
    decreases HeightAll(kids, r), kids, 1
  {
    var g' := Attach(g, e, xs);
    ListsGrow(kids, g, e, xs, r, q);
    WithinSelf([y]);
    WithinAppend([y], [y], PreAllBy(kids, g, r), PreAllBy(kids, g', q));
    FirstErrorAppend([y], PreAllBy(kids, g, r));
    FirstErrorAppend([y], PreAllBy(kids, g', q));
  }

  lemma {:induction false} ListsGrow(ys: seq<Err>, g: Graph, e: Error, xs: seq<Err>, r: Ranking, q: Ranking)
    requires e in g && Ranks(g, r) && Ranks(Attach(g, e, xs), q)
    ensures Within(PreAllBy(ys, g, r), PreAllBy(ys, Attach(g, e, xs), q))
    ensures FirstError(PreAllBy(ys, Attach(g, e, xs), q)) == FirstError(PreAllBy(ys, g, r))
    decreases HeightAll(ys, r), ys, 0
  {
    if ys != [] {
      var g' := Attach(g, e, xs);
      ListGrows(ys[0], g, e, xs, r, q);
      ListsGrow(ys[1..], g, e, xs, r, q);
      WithinAppend(PreBy(ys[0], g, r), PreBy(ys[0], g', q), PreAllBy(ys[1..], g, r), PreAllBy(ys[1..], g', q));
      FirstErrorAppend(PreBy(ys[0], g, r), PreAllBy(ys[1..], g, r));
      FirstErrorAppend(PreBy(ys[0], g', q), PreAllBy(ys[1..], g', q));
    }
  }

  // ---- what Code returns afterwards ------------------------------------------------

  lemma {:induction false} CodesUntouched(l: seq<Err>, g: Graph, e: Error, xs: seq<Err>)
    requires e in g
    ensures FirstCode(l, Attach(g, e, xs)) == FirstCode(l, g)
  {
    if l != [] {
      CodesUntouched(l[1..], g, e, xs);
    }
  }

  // If the new errors carry no code, no error of the graph resolves a different code.
  lemma {:induction false} CodelessAreSilent(y: Err, g: Graph, e: Error, xs: seq<Err>, r: Ranking, q: Ranking)
    requires e in g && Ranks(g, r) && Ranks(Attach(g, e, xs), q)
    requires FirstCode(PreAllBy(xs, Attach(g, e, xs), q), g) == ""
    ensures FirstCode(PreBy(y, Attach(g, e, xs), q), g) == FirstCode(PreBy(y, g, r), g)
    decreases Height(y, r), y, 1
  {
    var g' := Attach(g, e, xs);
    match y
    case Nil =>
    case Structured(z) =>
      if z in g {
        var kids := g[z].Unwrap();
        AttachedUnwrap(g, e, xs);
        AllCodelessSilent(kids, g, e, xs, r, q);
        PreAllByAppend(kids, xs, g', q);
        FirstCodeAppend(PreAllBy(kids, g', q), PreAllBy(xs, g', q), g);
        FirstCodeAppend([y], PreAllBy(kids, g, r), g);
        FirstCodeAppend([y], PreAllBy(g'[z].Unwrap(), g', q), g);
      }
    case Multi(errs) =>
      AllCodelessSilent(errs, g, e, xs, r, q);
      FirstCodeAppend([y], PreAllBy(errs, g, r), g);
      FirstCodeAppend([y], PreAllBy(errs, g', q), g);
    case Foreign(_, _, Leaf, _) =>
    case Foreign(_, _, One(c), _) =>
      CodelessAreSilent(c, g, e, xs, r, q);
      FirstCodeAppend([y], PreBy(c, g, r), g);
      FirstCodeAppend([y], PreBy(c, g', q), g);
    case Foreign(_, _, Many(cs), _) =>
      AllCodelessSilent(cs, g, e, xs, r, q);
      FirstCodeAppend([y], PreAllBy(cs, g, r), g);
      FirstCodeAppend([y], PreAllBy(cs, g', q), g);
  }

  lemma {:induction false} AllCodelessSilent(ys: seq<Err>, g: Graph, e: Error, xs: seq<Err>, r: Ranking, q: Ranking)
    requires e in g && Ranks(g, r) && Ranks(Attach(g, e, xs), q)
    requires FirstCode(PreAllBy(xs, Attach(g, e, xs), q), g) == ""
    ensures FirstCode(PreAllBy(ys, Attach(g, e, xs), q), g) == FirstCode(PreAllBy(ys, g, r), g)
    decreases HeightAll(ys, r), ys, 0
  {
    if ys != [] {
      var g' := Attach(g, e, xs);
      CodelessAreSilent(ys[0], g, e, xs, r, q);
      AllCodelessSilent(ys[1..], g, e, xs, r, q);
      FirstCodeAppend(PreBy(ys[0], g, r), PreAllBy(ys[1..], g, r), g);
      FirstCodeAppend(PreBy(ys[0], g', q), PreAllBy(ys[1..], g', q), g);
    }
  }

  // The errors met before the nearest *Error.
  ghost function BeforeNearest(l: seq<Err>): seq<Err> {
    if l == [] || l[0].Structured? then [] else [l[0]] + BeforeNearest(l[1..])
  }

  lemma {:induction false} BeforeNearestAppend(a: seq<Err>, b: seq<Err>)
    ensures BeforeNearest(a + b) == if FirstError(a).Some? then BeforeNearest(a) else a + BeforeNearest(b)
  {
    if a == [] {
      assert a + b == b;
    } else {
      assert (a + b)[1..] == a[1..] + b;
      BeforeNearestAppend(a[1..], b);
      if FirstError(a).None? {
        Assoc([a[0]], a[1..], BeforeNearest(b));
        assert [a[0]] + a[1..] == a;
      }
    }
  }

  lemma Regroup(p: seq<Err>, a: seq<Err>, m: seq<Err>, b: seq<Err>)
    ensures p + (a + m + b) == p + a + m + b
    ensures p + (a + m) + b == p + a + m + b
  {
    Assoc(p, a + m, b);
    Assoc(p, a, m);
  }

  // l reads: what precedes the nearest *Error, then m, then b; l' the same with m' and b'.
  ghost predicate Split(l: seq<Err>, m: seq<Err>, b: seq<Err>, l': seq<Err>, m': seq<Err>, b': seq<Err>) {
    l == BeforeNearest(l) + m + b && l' == BeforeNearest(l) + m' + b'
  }

  lemma SplitAfter(p: seq<Err>, l: seq<Err>, m: seq<Err>, b: seq<Err>, l': seq<Err>, m': seq<Err>, b': seq<Err>)
    requires FirstError(p).None? && Split(l, m, b, l', m', b')
    ensures Split(p + l, m, b, p + l', m', b')
  {
    BeforeNearestAppend(p, l);
    Regroup(p, BeforeNearest(l), m, b);
    Regroup(p, BeforeNearest(l), m', b');
  }

  lemma SplitBefore(l: seq<Err>, m: seq<Err>, b: seq<Err>, l': seq<Err>, m': seq<Err>, b': seq<Err>,
                    rest: seq<Err>, rest': seq<Err>)
    requires FirstError(l).Some? && Split(l, m, b, l', m', b')
    ensures Split(l + rest, m, b + rest, l' + rest', m', b' + rest')
  {
    BeforeNearestAppend(l, rest);
    Assoc(BeforeNearest(l) + m, b, rest);
    Assoc(BeforeNearest(l) + m', b', rest');
  }

  // Old and new list agree up to the nearest *Error, and then each lists that object.
  lemma {:induction false} SplitAtNearest(y: Err, g: Graph, e: Error, xs: seq<Err>, r: Ranking, q: Ranking)
    returns (b: seq<Err>, b': seq<Err>)
    requires e in g && Ranks(g, r) && Ranks(Attach(g, e, xs), q) && FirstError(PreBy(y, g, r)) == Some(e)
    ensures Split(PreBy(y, g, r), PreBy(Structured(e), g, r), b,
                  PreBy(y, Attach(g, e, xs), q), PreBy(Structured(e), Attach(g, e, xs), q), b')
    decreases Height(y, r), y, 1
  {
    match y
    case Structured(_) => b, b' := [], [];
    case Multi(errs) => b, b' := UnderSplitAtNearest(y, errs, g, e, xs, r, q);
    case Foreign(_, _, One(c), _) =>
      b, b' := SplitAtNearest(c, g, e, xs, r, q);
      SplitAfter([y], PreBy(c, g, r), PreBy(Structured(e), g, r), b,
                 PreBy(c, Attach(g, e, xs), q), PreBy(Structured(e), Attach(g, e, xs), q), b');
    case Foreign(_, _, Many(cs), _) => b, b' := UnderSplitAtNearest(y, cs, g, e, xs, r, q);
  }

  lemma {:induction false} UnderSplitAtNearest(y: Err, kids: seq<Err>, g: Graph, e: Error, xs: seq<Err>,
                                               r: Ranking, q: Ranking)
    returns (b: seq<Err>, b': seq<Err>)
    requires e in g && Ranks(g, r) && Ranks(Attach(g, e, xs), q)
    requires !y.Structured? && FirstError([y] + PreAllBy(kids, g, r)) == Some(e)
    ensures Split([y] + PreAllBy(kids, g, r), PreBy(Structured(e), g, r), b,
                  [y] + PreAllBy(kids, Attach(g, e, xs), q), PreBy(Structured(e), Attach(g, e, xs), q), b')
    decreases HeightAll(kids, r), kids, 1
  {
    FirstErrorAppend([y], PreAllBy(kids, g, r));
    b, b' := AllSplitAtNearest(kids, g, e, xs, r, q);
    SplitAfter([y], PreAllBy(kids, g, r), PreBy(Structured(e), g, r), b,
               PreAllBy(kids, Attach(g, e, xs), q), PreBy(Structured(e), Attach(g, e, xs), q), b');
  }

  lemma {:induction false} AllSplitAtNearest(ys: seq<Err>, g: Graph, e: Error, xs: seq<Err>, r: Ranking, q: Ranking)
    returns (b: seq<Err>, b': seq<Err>)
    requires e in g && Ranks(g, r) && Ranks(Attach(g, e, xs), q) && FirstError(PreAllBy(ys, g, r)) == Some(e)
    ensures Split(PreAllBy(ys, g, r), PreBy(Structured(e), g, r), b,
                  PreAllBy(ys, Attach(g, e, xs), q), PreBy(Structured(e), Attach(g, e, xs), q), b')
    decreases HeightAll(ys, r), ys, 0
  {
    var g', first, rest := Attach(g, e, xs), PreBy(ys[0], g, r), PreAllBy(ys[1..], g, r);
    var first', rest' := PreBy(ys[0], g', q), PreAllBy(ys[1..], g', q);
    var m, m' := PreBy(Structured(e), g, r), PreBy(Structured(e), g', q);
    FirstErrorAppend(first, rest);
    if FirstError(first).Some? {
      b, b' := SplitAtNearest(ys[0], g, e, xs, r, q);
      SplitBefore(first, m, b, first', m', b', rest, rest');
      b, b' := b + rest, b' + rest';
    } else {
      NoObjectUnchanged(ys[0], g, e, xs, r, q);
      b, b' := AllSplitAtNearest(ys[1..], g, e, xs, r, q);
      SplitAfter(first, rest, m, b, rest', m', b');
    }
  }

  lemma {:induction false} FirstErrorNone(l: seq<Err>)
    requires FirstError(l).None?
    ensures forall z :: z in l ==> !z.Structured?
  {
    if l != [] {
      FirstErrorNone(l[1..]);
    }
  }

  lemma NoObjectUnchanged(y: Err, g: Graph, e: Error, xs: seq<Err>, r: Ranking, q: Ranking)
    requires e in g && Ranks(g, r) && Ranks(Attach(g, e, xs), q) && FirstError(PreBy(y, g, r)).None?
    ensures PreBy(y, Attach(g, e, xs), q) == PreBy(y, g, r)
  {
    FirstErrorNone(PreBy(y, g, r));
    UnseenIsUnchanged(y, g, e, xs, r, q);
  }

  // The code resolved up to and including the nearest *Error.
  ghost function OwnCodeOf(x: Err, g: Graph, e: Error): string
    requires Acyclic(g)
  {
    FirstCode(BeforeNearest(Pre(x, g)) + Pre(Structured(e), g), g)
  }

  // The code after attaching xs to the nearest *Error, if that is not opaque.
  ghost function CodeAfter(x: Err, g: Graph, e: Error, xs: seq<Err>): string
    requires Acyclic(g)
  {
    if OwnCodeOf(x, g, e) != "" then OwnCodeOf(x, g, e)
    else if FirstCode(PreAll(xs, g), g) != "" then FirstCode(PreAll(xs, g), g)
    else FirstCode(Pre(x, g), g)
  }

  // The code of a list that reads own, more, b.
  lemma CodeOfParts(own: seq<Err>, more: seq<Err>, b: seq<Err>, g: Graph)
    ensures FirstCode(own + more + b, g)
         == if FirstCode(own, g) != "" then FirstCode(own, g)
            else if FirstCode(more, g) != "" then FirstCode(more, g) else FirstCode(b, g)
  {
    FirstCodeAppend(own + more, b, g);
    FirstCodeAppend(own, more, g);
  }

  lemma CodeAfterSuppress(x: Err, g: Graph, e: Error, xs: seq<Err>)
    requires Acyclic(g) && e in g && FirstError(Pre(x, g)) == Some(e) && !g[e].barrier && !Reaches(xs, e, g)
    ensures Acyclic(Attach(g, e, xs))
    ensures FirstCode(Pre(x, Attach(g, e, xs)), Attach(g, e, xs)) == CodeAfter(x, g, e, xs)
    ensures OwnCodeOf(x, g, e) != "" ==> FirstCode(Pre(x, g), g) == OwnCodeOf(x, g, e)
    ensures forall z :: z in PreAll(xs, g) ==> z in Pre(x, Attach(g, e, xs))
  {
    ObjectAfterSuppress(g, e, xs);
    var g', more := Attach(g, e, xs), PreAll(xs, g);
    var a, m, b, b' := PartsAfterSuppress(x, g, e, xs);
    CodeOfParts(a + m, [], b, g);
    assert a + m + [] == a + m;
    CodeOfParts(a + m, more, b', g);
    CodesUntouched(Pre(x, g'), g, e, xs);
    if FirstCode(more, g) == "" {
      AllUnseenUnchanged(xs, g, e, xs, RankOf(g), RankOf(g'));
      CodelessAreSilent(x, g, e, xs, RankOf(g), RankOf(g'));
    }
  }

  lemma PartsAfterSuppress(x: Err, g: Graph, e: Error, xs: seq<Err>)
    returns (a: seq<Err>, m: seq<Err>, b: seq<Err>, b': seq<Err>)
    requires Acyclic(g) && e in g && FirstError(Pre(x, g)) == Some(e) && !g[e].barrier && !Reaches(xs, e, g)
    requires Acyclic(Attach(g, e, xs))
    ensures a == BeforeNearest(Pre(x, g)) && m == Pre(Structured(e), g)
    ensures Pre(x, g) == a + m + b && Pre(x, Attach(g, e, xs)) == a + m + PreAll(xs, g) + b'
  {
    ObjectAfterSuppress(g, e, xs);
    a, m := BeforeNearest(Pre(x, g)), Pre(Structured(e), g);
    b, b' := SplitAtNearest(x, g, e, xs, RankOf(g), RankOf(Attach(g, e, xs)));
    Regroup(a, m, PreAll(xs, g), b');
  }

  /** What AppendSuppressed does to an error whose nearest *Error is e: nothing that was visible
      disappears or changes order, e stays the nearest, the new errors are visible unless e is
      opaque, and Code changes exactly if nothing up to e resolved a code, the new errors do,
      and theirs is another one. */
  lemma SuppressIsConservative(x: Err, g: Graph, e: Error, xs: seq<Err>)
    requires Acyclic(g) && e in g && FirstError(Pre(x, g)) == Some(e) && (g[e].barrier || !Reaches(xs, e, g))
    ensures Acyclic(Attach(g, e, xs))
    ensures var g' := Attach(g, e, xs);
            Within(Pre(x, g), Pre(x, g')) && FirstError(Pre(x, g')) == Some(e)
    ensures var g' := Attach(g, e, xs);
            if g[e].barrier then Pre(x, g') == Pre(x, g)
            else forall z :: z in PreAll(xs, g) ==> z in Pre(x, g')
    ensures var g' := Attach(g, e, xs);
            var old_, new_, extra := FirstCode(Pre(x, g), g), FirstCode(Pre(x, g'), g'), FirstCode(PreAll(xs, g), g);
            new_ == old_ <==> g[e].barrier || OwnCodeOf(x, g, e) != "" || extra == "" || extra == old_
  {
    AcyclicAfterSuppress(g, e, xs);
    var g' := Attach(g, e, xs);
    ListGrows(x, g, e, xs, RankOf(g), RankOf(g'));
    if g[e].barrier {
      UnseenIsUnchanged(x, g, e, xs, RankOf(g), RankOf(g'));
      CodesUntouched(Pre(x, g), g, e, xs);
    } else {
      CodeAfterSuppress(x, g, e, xs);
    }
  }
}
