/**
 The error graph as a list: what the searches of inspect.go, and errors.Is/As, walk over.

 An edge leads from an error to what its Unwrap returns; an opaque object has none.
 `Pre` lists the errors met by a depth-first walk, a shared error once per path.
 Only acyclic graphs have such a list; a rank that grows along every path witnesses that.
 */
module Tree {
  import opened Common
  import opened Values
  import opened Errors

  type Ranking = map<Error, nat>

  function Max(a: nat, b: nat): nat {
    if a < b then b else a
  }

  // One more than the largest rank of an object that x mentions.
  ghost function Height(x: Err, r: Ranking): nat
    decreases x, 1
  {
    match x
    case Nil => 0
    case Structured(e) => if e in r then r[e] + 1 else 0
    case Multi(errs) => HeightAll(errs, r)
    case Foreign(_, _, Leaf, _) => 0
    case Foreign(_, _, One(c), _) => Height(c, r)
    case Foreign(_, _, Many(cs), _) => HeightAll(cs, r)
  }

  ghost function HeightAll(xs: seq<Err>, r: Ranking): nat
    decreases xs, 0
  {
    if xs == [] then 0 else Max(Height(xs[0], r), HeightAll(xs[1..], r))
  }

  // r grows strictly along every edge of g.
  ghost predicate Ranks(g: Graph, older r: Ranking) {
    r.Keys == g.Keys && forall e :: e in g ==> HeightAll(g[e].Unwrap(), r) <= r[e]
  }

  ghost predicate Acyclic(g: Graph) {
    exists r :: Ranks(g, r)
  }

  ghost function RankOf(g: Graph): (r: Ranking)
    requires Acyclic(g)
    ensures Ranks(g, r)
  {
    var r :| Ranks(g, r);
    r
  }

  // The errors an Unwrap call leads to.
  ghost function Kids(x: Err, g: Graph): seq<Err> {
    match x
    case Nil => []
    case Structured(e) => if e in g then g[e].Unwrap() else []
    case Multi(errs) => errs
    case Foreign(_, _, Leaf, _) => []
    case Foreign(_, _, One(c), _) => [c]
    case Foreign(_, _, Many(cs), _) => cs
  }

  ghost function PreBy(x: Err, g: Graph, r: Ranking): seq<Err>
    requires Ranks(g, r)
    decreases Height(x, r), x, 1
  {
    match x
    case Nil => []
    case Structured(e) => if e in g then [x] + PreAllBy(g[e].Unwrap(), g, r) else [x]
    case Multi(errs) => [x] + PreAllBy(errs, g, r)
    case Foreign(_, _, Leaf, _) => [x]
    case Foreign(_, _, One(c), _) => [x] + PreBy(c, g, r)
    case Foreign(_, _, Many(cs), _) => [x] + PreAllBy(cs, g, r)
  }

  ghost function PreAllBy(xs: seq<Err>, g: Graph, r: Ranking): seq<Err>
    requires Ranks(g, r)
    decreases HeightAll(xs, r), xs, 0
  {
    if xs == [] then [] else PreBy(xs[0], g, r) + PreAllBy(xs[1..], g, r)
  }

  // The pre-order of x, and of a list of errors.
  ghost function Pre(x: Err, g: Graph): seq<Err>
    requires Acyclic(g)
  {
    PreBy(x, g, RankOf(g))
  }

  ghost function PreAll(xs: seq<Err>, g: Graph): seq<Err>
    requires Acyclic(g)
  {
    PreAllBy(xs, g, RankOf(g))
  }

  lemma PreUnfold(x: Err, g: Graph)
    requires Acyclic(g)
    ensures Pre(x, g) == if x == Nil then [] else [x] + PreAll(Kids(x, g), g)
  {
    match x
    case Foreign(_, _, One(c), _) =>
      PreOne(c, g);
    case _ =>
  }

  lemma PreOne(x: Err, g: Graph)
    requires Acyclic(g)
    ensures PreAll([x], g) == Pre(x, g)
  {
    assert [x][1..] == [];
    assert PreAllBy([x], g, RankOf(g)) == PreBy(x, g, RankOf(g)) + PreAllBy([], g, RankOf(g));
  }

  // ---- what the searches read off a list ---------------------------------------

  // The code an error carries: any *Error, or a foreign error with a Code method.
  ghost function CodeOf(x: Err, g: Graph): Option<string> {
    match x
    case Structured(e) => if e in g then Some(g[e].id.code) else None
    case Foreign(_, c, _, _) => c
    case _ => None
  }

  ghost function FirstCode(l: seq<Err>, g: Graph): string {
    if l == [] then ""
    else if CodeOf(l[0], g).Some? && CodeOf(l[0], g).value != "" then CodeOf(l[0], g).value
    else FirstCode(l[1..], g)
  }

  ghost predicate Carries(l: seq<Err>, g: Graph, code: string) {
    exists x :: x in l && CodeOf(x, g) == Some(code)
  }

  ghost function FirstWith(l: seq<Err>, g: Graph, code: string): Option<Error> {
    if l == [] then None
    else if l[0].Structured? && CodeOf(l[0], g) == Some(code) then Some(l[0].e)
    else FirstWith(l[1..], g, code)
  }

  // errors.As for *Error.
  ghost function FirstError(l: seq<Err>): Option<Error> {
    if l == [] then None else if l[0].Structured? then Some(l[0].e) else FirstError(l[1..])
  }

  // errors.Is against one of the context sentinels.
  ghost predicate HasSentinel(l: seq<Err>, s: Sentinel) {
    exists x :: x in l && x.Foreign? && x.sentinel == s
  }

  ghost function Class_(l: seq<Err>, g: Graph): Class {
    var e := FirstError(l);
    if e.Some? && e.value in g then g[e.value].id.class_
    else if HasSentinel(l, Canceled) || HasSentinel(l, DeadlineExceeded) then CANCELLED
    else EXPECTED
  }

  // The identity that Wrap inherits and the retry queries read: the nearest *Error's, or none.
  ghost function IdentityOf(l: seq<Err>, g: Graph): Identity {
    var e := FirstError(l);
    if e.Some? && e.value in g then g[e.value].id else Identity("", "", EXPECTED, SEV_ERROR, false, 0)
  }

  // ---- laws of the list ----------------------------------------------------------

  lemma Assoc<T>(a: seq<T>, b: seq<T>, c: seq<T>)
    ensures a + (b + c) == a + b + c
  {
  }

  lemma {:induction false} FirstCodeAppend(l: seq<Err>, m: seq<Err>, g: Graph)
    ensures FirstCode(l + m, g) == if FirstCode(l, g) != "" then FirstCode(l, g) else FirstCode(m, g)
  {
    if l == [] {
      assert l + m == m;
    } else {
      assert (l + m)[1..] == l[1..] + m;
      FirstCodeAppend(l[1..], m, g);
    }
  }

  ghost predicate Codeless(x: Err, g: Graph) {
    CodeOf(x, g).None? || CodeOf(x, g).value == ""
  }

  // An error that is not what a search looks for is passed over.
  lemma SkipCodeless(x: Err, rest: seq<Err>, g: Graph)
    requires Codeless(x, g)
    ensures FirstCode([x] + rest, g) == FirstCode(rest, g)
  {
    FirstCodeAppend([x], rest, g);
  }

  lemma SkipOther(x: Err, rest: seq<Err>, g: Graph, code: string)
    requires CodeOf(x, g) != Some(code)
    ensures Carries([x] + rest, g, code) <==> Carries(rest, g, code)
  {
    CarriesAppend([x], rest, g, code);
  }

  lemma SkipForeign(x: Err, rest: seq<Err>, g: Graph, code: string)
    requires !x.Structured? || CodeOf(x, g) != Some(code)
    ensures FirstWith([x] + rest, g, code) == FirstWith(rest, g, code)
  {
    FirstWithAppend([x], rest, g, code);
  }

  lemma {:induction false} FirstErrorAppend(l: seq<Err>, m: seq<Err>)
    ensures FirstError(l + m) == if FirstError(l).Some? then FirstError(l) else FirstError(m)
  {
    if l == [] {
      assert l + m == m;
    } else {
      assert (l + m)[1..] == l[1..] + m;
      FirstErrorAppend(l[1..], m);
    }
  }

  lemma {:induction false} FirstWithAppend(l: seq<Err>, m: seq<Err>, g: Graph, c: string)
    ensures FirstWith(l + m, g, c) == if FirstWith(l, g, c).Some? then FirstWith(l, g, c) else FirstWith(m, g, c)
  {
    if l == [] {
      assert l + m == m;
    } else {
      assert (l + m)[1..] == l[1..] + m;
      FirstWithAppend(l[1..], m, g, c);
    }
  }

  lemma CarriesAppend(l: seq<Err>, m: seq<Err>, g: Graph, c: string)
    ensures Carries(l + m, g, c) <==> Carries(l, g, c) || Carries(m, g, c)
  {
    if Carries(l, g, c) {
      var x :| x in l && CodeOf(x, g) == Some(c);
      assert x in l + m;
    }
    if Carries(m, g, c) {
      var x :| x in m && CodeOf(x, g) == Some(c);
      assert x in l + m;
    }
  }

  lemma HasSentinelAppend(l: seq<Err>, m: seq<Err>, s: Sentinel)
    ensures HasSentinel(l + m, s) <==> HasSentinel(l, s) || HasSentinel(m, s)
  {
    assert forall x :: x in l + m <==> x in l || x in m;
  }

  lemma SkipUnmarked(x: Err, rest: seq<Err>, s: Sentinel)
    requires !(x.Foreign? && x.sentinel == s)
    ensures HasSentinel([x] + rest, s) <==> HasSentinel(rest, s)
  {
    HasSentinelAppend([x], rest, s);
  }

  // Every object listed is an object of the graph.
  lemma {:induction false} ListedIsKnown(x: Err, g: Graph, r: Ranking)
    requires Ranks(g, r) && Closed(g) && Known(x, g.Keys)
    ensures forall e :: Structured(e) in PreBy(x, g, r) ==> e in g
    decreases Height(x, r), x, 1
  {
    match x
    case Nil =>
    case Structured(e) => AllListedKnown(g[e].Unwrap(), g, r);
    case Multi(errs) => AllListedKnown(errs, g, r);
    case Foreign(_, _, Leaf, _) =>
    case Foreign(_, _, One(c), _) => ListedIsKnown(c, g, r);
    case Foreign(_, _, Many(cs), _) => AllListedKnown(cs, g, r);
  }

  lemma {:induction false} AllListedKnown(xs: seq<Err>, g: Graph, r: Ranking)
    requires Ranks(g, r) && Closed(g) && AllKnown(xs, g.Keys)
    ensures forall e :: Structured(e) in PreAllBy(xs, g, r) ==> e in g
    decreases HeightAll(xs, r), xs, 0
  {
    if xs != [] {
      ListedIsKnown(xs[0], g, r);
      AllListedKnown(xs[1..], g, r);
    }
  }

  lemma {:induction false} FirstErrorIsListed(l: seq<Err>)
    requires FirstError(l).Some?
    ensures Structured(FirstError(l).value) in l
  {
    if !l[0].Structured? {
      FirstErrorIsListed(l[1..]);
    }
  }

  lemma NearestIsKnown(x: Err, g: Graph)
    requires Acyclic(g) && Closed(g) && Known(x, g.Keys)
    ensures FirstError(Pre(x, g)).Some? ==> FirstError(Pre(x, g)).value in g
  {
    ListedIsKnown(x, g, RankOf(g));
    if FirstError(Pre(x, g)).Some? {
      FirstErrorIsListed(Pre(x, g));
    }
  }

  lemma {:induction false} PreAllByAppend(xs: seq<Err>, ys: seq<Err>, g: Graph, r: Ranking)
    requires Ranks(g, r)
    ensures PreAllBy(xs + ys, g, r) == PreAllBy(xs, g, r) + PreAllBy(ys, g, r)
  {
    if xs == [] {
      assert xs + ys == ys;
    } else {
      assert (xs + ys)[0] == xs[0] && (xs + ys)[1..] == xs[1..] + ys;
      PreAllByAppend(xs[1..], ys, g, r);
      Assoc(PreBy(xs[0], g, r), PreAllBy(xs[1..], g, r), PreAllBy(ys, g, r));
    }
  }

  lemma {:induction false} HeightAllAppend(xs: seq<Err>, ys: seq<Err>, r: Ranking)
    ensures HeightAll(xs + ys, r) == Max(HeightAll(xs, r), HeightAll(ys, r))
  {
    if xs == [] {
      assert xs + ys == ys;
    } else {
      assert (xs + ys)[0] == xs[0] && (xs + ys)[1..] == xs[1..] + ys;
      HeightAllAppend(xs[1..], ys, r);
    }
  }

  lemma {:induction false} HeightMember(xs: seq<Err>, x: Err, r: Ranking)
    requires x in xs
    ensures Height(x, r) <= HeightAll(xs, r)
  {
    if x != xs[0] {
      HeightMember(xs[1..], x, r);
    }
  }

  /** Which ranking witnesses acyclicity does not matter. */
  lemma {:induction false} PreIgnoresRanking(x: Err, g: Graph, r: Ranking, q: Ranking)
    requires Ranks(g, r) && Ranks(g, q)
    ensures PreBy(x, g, r) == PreBy(x, g, q)
    decreases Height(x, r), x, 1
  {
    match x
    case Nil =>
    case Structured(e) => if e in g { PreAllIgnoresRanking(g[e].Unwrap(), g, r, q); }
    case Multi(errs) => PreAllIgnoresRanking(errs, g, r, q);
    case Foreign(_, _, Leaf, _) =>
    case Foreign(_, _, One(c), _) => PreIgnoresRanking(c, g, r, q);
    case Foreign(_, _, Many(cs), _) => PreAllIgnoresRanking(cs, g, r, q);
  }

  lemma {:induction false} PreAllIgnoresRanking(xs: seq<Err>, g: Graph, r: Ranking, q: Ranking)
    requires Ranks(g, r) && Ranks(g, q)
    ensures PreAllBy(xs, g, r) == PreAllBy(xs, g, q)
    decreases HeightAll(xs, r), xs, 0
  {
    if xs != [] {
      PreIgnoresRanking(xs[0], g, r, q);
      PreAllIgnoresRanking(xs[1..], g, r, q);
    }
  }

  // ---- the list is reachability ---------------------------------------------------

  // An Unwrap method of x returns y, alone or in a list: the cause or a suppressed error of an
  // object that is not opaque, a bundled error, or what a foreign error wraps.
  ghost predicate Leads(x: Err, y: Err, g: Graph) {
    match x
    case Nil => false
    case Structured(e) => e in g && !g[e].barrier && (y == g[e].cause || y in g[e].suppressed)
    case Multi(errs) => y in errs
    case Foreign(_, _, Leaf, _) => false
    case Foreign(_, _, One(c), _) => y == c
    case Foreign(_, _, Many(cs), _) => y in cs
  }

  lemma LeadsToKids(x: Err, y: Err, g: Graph)
    requires y != Nil
    ensures Leads(x, y, g) <==> y in Kids(x, g)
  {
  }

  // A walk along Unwrap edges.
  ghost predicate IsPath(p: seq<Err>, g: Graph) {
    && p != []
    && (forall i :: 0 <= i < |p| ==> p[i] != Nil)
    && forall i :: 0 < i < |p| ==> Leads(p[i - 1], p[i], g)
  }

  /** y is listed under x exactly when Unwrap calls lead from x to y. */
  lemma PreIsReachability(x: Err, y: Err, g: Graph)
    requires Acyclic(g)
    ensures y in Pre(x, g) <==> exists p :: IsPath(p, g) && p[0] == x && p[|p| - 1] == y
  {
    if y in Pre(x, g) {
      var p := PathTo(x, y, g, RankOf(g));
    }
    forall p | IsPath(p, g) && p[0] == x && p[|p| - 1] == y ensures y in Pre(x, g) {
      PathIsListed(p, g);
    }
  }

  lemma {:induction false} PathTo(x: Err, y: Err, g: Graph, r: Ranking) returns (p: seq<Err>)
    requires Ranks(g, r) && y in PreBy(x, g, r)
    ensures IsPath(p, g) && p[0] == x && p[|p| - 1] == y
    decreases Height(x, r), x, 1
  {
    if x == y {
      p := [x];
    } else {
      var c;
      match x {
        case Structured(e) => c := MemberOf(g[e].Unwrap(), y, g, r); HeightMember(g[e].Unwrap(), c, r);
        case Multi(errs) => c := MemberOf(errs, y, g, r); HeightMember(errs, c, r);
        case Foreign(_, _, One(k), _) => c := k;
        case Foreign(_, _, Many(cs), _) => c := MemberOf(cs, y, g, r); HeightMember(cs, c, r);
      }
      var q := PathTo(c, y, g, r);
      p := [x] + q;
      LeadsToKids(x, c, g);
      forall i | 0 < i < |p| ensures Leads(p[i - 1], p[i], g) {
        assert p[i] == q[i - 1];
        if i > 1 {
          assert p[i - 1] == q[i - 2];
        }
      }
    }
  }

  lemma {:induction false} MemberOf(xs: seq<Err>, y: Err, g: Graph, r: Ranking) returns (c: Err)
    requires Ranks(g, r) && y in PreAllBy(xs, g, r)
    ensures c in xs && y in PreBy(c, g, r)
  {
    if y in PreBy(xs[0], g, r) {
      c := xs[0];
    } else {
      c := MemberOf(xs[1..], y, g, r);
    }
  }

  lemma {:induction false} PathIsListed(p: seq<Err>, g: Graph)
    requires Acyclic(g) && IsPath(p, g)
    ensures p[|p| - 1] in Pre(p[0], g)
  {
    PreUnfold(p[0], g);
    if |p| > 1 {
      PathIsListed(p[1..], g);
      LeadsToKids(p[0], p[1], g);
      MemberIsListed(Kids(p[0], g), p[1], p[|p| - 1], g);
    }
  }

  lemma {:induction false} MemberIsListed(xs: seq<Err>, c: Err, y: Err, g: Graph)
    requires Acyclic(g) && c in xs && y in Pre(c, g)
    ensures y in PreAll(xs, g)
  {
    if c != xs[0] {
      MemberIsListed(xs[1..], c, y, g);
    }
  }

  // A walk that starts at x.
  ghost predicate IsPathFrom(p: seq<Err>, x: Err, g: Graph) {
    IsPath(p, g) && p[0] == x
  }

  predicate IsContextSentinel(y: Err) {
    y.Foreign? && (y.sentinel == Canceled || y.sentinel == DeadlineExceeded)
  }

  lemma {:induction false} NoObjectListed(l: seq<Err>)
    ensures FirstError(l).None? <==> forall z :: z in l ==> !z.Structured?
  {
    if l != [] {
      NoObjectListed(l[1..]);
      assert forall z :: z in l <==> z == l[0] || z in l[1..];
    }
  }

  /** If an *Error is listed, the class is that of the first one. */
  lemma ClassOfNearest(x: Err, g: Graph, before: seq<Err>, e: Error, after: seq<Err>)
    requires Acyclic(g) && Closed(g) && Known(x, g.Keys)
    requires Pre(x, g) == before + [Structured(e)] + after && forall z :: z in before ==> !z.Structured?
    ensures e in g && Class_(Pre(x, g), g) == g[e].id.class_
  {
    NearestIsKnown(x, g);
    NoObjectListed(before);
    FirstErrorAppend(before, [Structured(e)]);
    FirstErrorAppend(before + [Structured(e)], after);
  }

  /** If Unwrap calls lead to no *Error, the class is cancelled if and only if they lead to a
      context sentinel, and expected otherwise. */
  lemma ClassWithoutObject(x: Err, g: Graph)
    requires Acyclic(g) && forall p: seq<Err> :: IsPathFrom(p, x, g) ==> !p[|p| - 1].Structured?
    ensures Class_(Pre(x, g), g)
         == if exists p: seq<Err> :: IsPathFrom(p, x, g) && IsContextSentinel(p[|p| - 1]) then CANCELLED else EXPECTED
  {
    var l := Pre(x, g);
    forall y | y in l ensures exists p :: IsPathFrom(p, x, g) && p[|p| - 1] == y {
      var p := PathTo(x, y, g, RankOf(g));
      assert IsPathFrom(p, x, g);
    }
    NoObjectListed(l);
    forall p | IsPathFrom(p, x, g) ensures p[|p| - 1] in l {
      PathIsListed(p, g);
    }
  }

  // ---- agreement of the searches ---------------------------------------------------

  lemma {:induction false} FirstCodeIsCarried(l: seq<Err>, g: Graph)
    requires FirstCode(l, g) != ""
    ensures Carries(l, g, FirstCode(l, g))
  {
    if CodeOf(l[0], g) != Some(FirstCode(l, g)) {
      FirstCodeIsCarried(l[1..], g);
      var x :| x in l[1..] && CodeOf(x, g) == Some(FirstCode(l, g));
      assert x in l;
    }
  }

  lemma {:induction false} FoundIsCarried(l: seq<Err>, g: Graph, code: string)
    requires FirstWith(l, g, code).Some?
    ensures Structured(FirstWith(l, g, code).value) in l
    ensures CodeOf(Structured(FirstWith(l, g, code).value), g) == Some(code)
  {
    if !(l[0].Structured? && CodeOf(l[0], g) == Some(code)) {
      FoundIsCarried(l[1..], g, code);
    }
  }

  /** A code that Code returns is a code that HasCode confirms; an error that FindByCode
      returns is visible, carries the code, and so HasCode confirms it too. */
  lemma SearchesAgree(x: Err, g: Graph, code: string)
    requires Acyclic(g)
    ensures FirstCode(Pre(x, g), g) != "" ==> Carries(Pre(x, g), g, FirstCode(Pre(x, g), g))
    ensures FirstCode(Pre(x, g), g) == "" <==> forall c :: c != "" ==> !Carries(Pre(x, g), g, c)
    ensures FirstWith(Pre(x, g), g, code).Some? ==> Carries(Pre(x, g), g, code)
    ensures FirstWith(Pre(x, g), g, code).Some? <==>
              exists e :: Structured(e) in Pre(x, g) && CodeOf(Structured(e), g) == Some(code)
  {
    if FirstCode(Pre(x, g), g) != "" {
      FirstCodeIsCarried(Pre(x, g), g);
    } else {
      forall c | c != "" ensures !Carries(Pre(x, g), g, c) {
        NoFirstCode(Pre(x, g), g, c);
      }
    }
    if FirstWith(Pre(x, g), g, code).Some? {
      FoundIsCarried(Pre(x, g), g, code);
    }
    forall e | Structured(e) in Pre(x, g) && CodeOf(Structured(e), g) == Some(code)
      ensures FirstWith(Pre(x, g), g, code).Some?
    {
      CarrierIsFound(Pre(x, g), g, code, e);
    }
  }

  // An *Error with the code, or a foreign error whose Code method returns it.
  ghost predicate HoldsCode(y: Err, g: Graph, code: string) {
    (y.Structured? && y.e in g && g[y.e].id.code == code) || (y.Foreign? && y.ownCode == Some(code))
  }

  /** HasCode says whether Unwrap calls lead to an error with the code. */
  lemma CarriedIsReachable(x: Err, g: Graph, code: string)
    requires Acyclic(g)
    ensures Carries(Pre(x, g), g, code)
       <==> exists p: seq<Err> :: IsPathFrom(p, x, g) && HoldsCode(p[|p| - 1], g, code)
  {
    if Carries(Pre(x, g), g, code) {
      var y :| y in Pre(x, g) && CodeOf(y, g) == Some(code);
      var p := PathTo(x, y, g, RankOf(g));
      assert IsPathFrom(p, x, g) && HoldsCode(p[|p| - 1], g, code);
    }
    forall p: seq<Err> | IsPathFrom(p, x, g) && HoldsCode(p[|p| - 1], g, code) ensures Carries(Pre(x, g), g, code) {
      PathIsListed(p, g);
      assert CodeOf(p[|p| - 1], g) == Some(code);
    }
  }

  /** Code is that of the first error listed with a code that is not empty. */
  lemma CodeOfFirst(before: seq<Err>, y: Err, after: seq<Err>, g: Graph, code: string)
    requires HoldsCode(y, g, code) && code != ""
    requires forall z, c :: z in before && HoldsCode(z, g, c) ==> c == ""
    ensures FirstCode(before + [y] + after, g) == code
  {
    if FirstCode(before, g) != "" {
      FirstCodeIsCarried(before, g);
      var z :| z in before && CodeOf(z, g) == Some(FirstCode(before, g));
      assert HoldsCode(z, g, FirstCode(before, g));
      assert false;
    }
    FirstCodeAppend(before, [y], g);
    FirstCodeAppend(before + [y], after, g);
  }

  /** FindByCode returns the first *Error listed with the code. */
  lemma FoundIsFirst(before: seq<Err>, e: Error, after: seq<Err>, g: Graph, code: string)
    requires e in g && g[e].id.code == code
    requires forall z :: Structured(z) in before && z in g ==> g[z].id.code != code
    ensures FirstWith(before + [Structured(e)] + after, g, code) == Some(e)
  {
    if FirstWith(before, g, code).Some? {
      FoundIsCarried(before, g, code);
      assert false;
    }
    FirstWithAppend(before, [Structured(e)], g, code);
    FirstWithAppend(before + [Structured(e)], after, g, code);
  }

  lemma {:induction false} CarrierIsFound(l: seq<Err>, g: Graph, code: string, e: Error)
    requires Structured(e) in l && CodeOf(Structured(e), g) == Some(code)
    ensures FirstWith(l, g, code).Some?
  {
    if l[0] != Structured(e) {
      CarrierIsFound(l[1..], g, code, e);
    }
  }

  lemma {:induction false} NoFirstCode(l: seq<Err>, g: Graph, c: string)
    requires FirstCode(l, g) == "" && c != ""
    ensures !Carries(l, g, c)
  {
    if l != [] {
      NoFirstCode(l[1..], g, c);
      assert forall x :: x in l ==> x == l[0] || x in l[1..];
    }
  }

  /** An opaque error contributes only itself to every search. */
  lemma OpaqueIsALeaf(e: Error, g: Graph)
    requires Acyclic(g) && e in g && g[e].barrier
    ensures Pre(Structured(e), g) == [Structured(e)]
  {
    PreUnfold(Structured(e), g);
  }
}
