/**
 The searches of inspect.go, which loop down Unwrap() error, recurse into Unwrap() []error
 and stop at opaque errors. Each is proved to read one list, `Pre`.

 g is the graph of the objects that may be reached; it must be acyclic, or the searches of
 the source do not return.
 */
module Inspect {
  import opened Common
  import opened Values
  import opened Errors
  import opened Tree

  // g is what the heap holds.
  ghost predicate Mirrors(g: Graph)
    reads g.Keys
  {
    forall e :: e in g ==> e.Value() == g[e]
  }

  ghost predicate Sound(g: Graph) {
    Acyclic(g) && Closed(g)
  }

  // What every step of a search makes smaller: the rank, or the value itself.
  ghost function Level(x: Err, g: Graph): nat
    requires Acyclic(g)
  {
    Height(x, RankOf(g))
  }

  ghost function LevelAll(xs: seq<Err>, g: Graph): nat
    requires Acyclic(g)
  {
    HeightAll(xs, RankOf(g))
  }

  ghost function Size(x: Err): nat
    decreases x, 1
  {
    match x
    case Multi(errs) => 1 + SizeAll(errs)
    case Foreign(_, _, One(c), _) => 1 + Size(c)
    case Foreign(_, _, Many(cs), _) => 1 + SizeAll(cs)
    case _ => 1
  }

  ghost function SizeAll(xs: seq<Err>): nat
    decreases xs, 0
  {
    if xs == [] then 0 else 1 + Size(xs[0]) + SizeAll(xs[1..])
  }

  lemma {:induction false} SizeMember(xs: seq<Err>, i: nat)
    requires i < |xs|
    ensures Size(xs[i]) < SizeAll(xs)
  {
    if i > 0 {
      SizeMember(xs[1..], i - 1);
    }
  }

  // The type switch on the two Unwrap forms.
  datatype Turn = Follow(next: Err) | Fan(kids: seq<Err>) | Stop

  // (l, s) comes before (l', s') in the order that shows termination.
  predicate Before(l: nat, s: nat, l': nat, s': nat) {
    l < l' || (l == l' && s < s')
  }

  // What is listed after the error that took this turn.
  ghost function Rest(t: Turn, g: Graph): seq<Err>
    requires Acyclic(g)
  {
    match t
    case Follow(next) => Pre(next, g)
    case Fan(kids) => PreAll(kids, g)
    case Stop => []
  }

  ghost function TurnOf(x: Err, g: Graph): Turn {
    match x
    case Structured(p) => if p in g then Fan(g[p].Unwrap()) else Stop
    case Multi(errs) => Fan(errs)
    case Foreign(_, _, One(c), _) => Follow(c)
    case Foreign(_, _, Many(cs), _) => Fan(cs)
    case _ => Stop
  }

  lemma TurnLists(x: Err, g: Graph)
    requires Acyclic(g) && x != Nil
    ensures Pre(x, g) == [x] + Rest(TurnOf(x, g), g)
  {
    PreUnfold(x, g);
    match x
    case Foreign(_, _, One(c), _) => PreOne(c, g);
    case _ =>
  }

  // A turn leads to known errors that come before x in the order.
  ghost predicate Descends(t: Turn, x: Err, g: Graph)
    requires Acyclic(g)
  {
    match t
    case Follow(c) => Known(c, g.Keys) && Before(Level(c, g), Size(c), Level(x, g), Size(x))
    case Fan(cs) => AllKnown(cs, g.Keys) && Before(LevelAll(cs, g), SizeAll(cs), Level(x, g), Size(x))
    case Stop => true
  }

  lemma TurnDescends(x: Err, g: Graph)
    requires Sound(g) && Known(x, g.Keys)
    ensures Descends(TurnOf(x, g), x, g)
  {
  }

  method Unwrapped(x: Err, ghost g: Graph) returns (t: Turn)
    requires Mirrors(g) && Sound(g) && Known(x, g.Keys) && x != Nil
    ensures Pre(x, g) == [x] + Rest(t, g)
    ensures t.Follow? ==> Known(t.next, g.Keys)
    ensures t.Follow? ==> Before(Level(t.next, g), Size(t.next), Level(x, g), Size(x))
    ensures t.Fan? ==> AllKnown(t.kids, g.Keys)
    ensures t.Fan? ==> Before(LevelAll(t.kids, g), SizeAll(t.kids), Level(x, g), Size(x))
  {
    TurnLists(x, g);
    TurnDescends(x, g);
    match x
    case Structured(p) => t := Fan(p.Value().Unwrap());
    case Multi(errs) => t := Fan(errs);
    case Foreign(_, _, Leaf, _) => t := Stop;
    case Foreign(_, _, One(c), _) => t := Follow(c);
    case Foreign(_, _, Many(cs), _) => t := Fan(cs);
  }

  // Does this very error carry the code: the field of an *Error, or a Code method.
  method Bears(x: Err, code: string, ghost g: Graph) returns (b: bool)
    requires Mirrors(g) && Sound(g) && Known(x, g.Keys) && x != Nil
    ensures b <==> CodeOf(x, g) == Some(code)
    ensures b ==> Carries(Pre(x, g), g, code)
  {
    PreUnfold(x, g);
    assert x in Pre(x, g);
    match x
    case Structured(p) => b := p.code == code;
    case Foreign(_, own, _, _) => b := own == Some(code);
    case Multi(_) => b := false;
  }

  // Is this very error an *Error with the code.
  method Hits(x: Err, code: string, ghost g: Graph) returns (b: bool)
    requires Mirrors(g) && Sound(g) && Known(x, g.Keys) && x != Nil
    ensures b ==> x.Structured? && FirstWith(Pre(x, g), g, code) == Some(x.e)
    ensures !b ==> !x.Structured? || CodeOf(x, g) != Some(code)
  {
    PreUnfold(x, g);
    b := x.Structured? && x.e.code == code;
  }

  // The code of this very error, found in either way; "" if it has none.
  method OwnCode(x: Err, ghost g: Graph) returns (code: string)
    requires Mirrors(g) && Sound(g) && Known(x, g.Keys) && x != Nil
    ensures code != "" ==> CodeOf(x, g) == Some(code) && FirstCode(Pre(x, g), g) == code
    ensures code == "" ==> Codeless(x, g)
  {
    PreUnfold(x, g);
    match x
    case Structured(p) => code := p.code;
    case Foreign(_, own, _, _) => code := if own.Some? then own.value else "";
    case Multi(_) => code := "";
  }

  // One turn of a loop over xs.
  lemma NextChild(xs: seq<Err>, i: nat, g: Graph)
    requires Acyclic(g) && i < |xs|
    ensures PreAll(xs[i..], g) == Pre(xs[i], g) + PreAll(xs[i + 1..], g)
    ensures Before(Level(xs[i], g), Size(xs[i]), LevelAll(xs, g), SizeAll(xs))
  {
    assert xs[i..][1..] == xs[i + 1..];
    HeightMember(xs, xs[i], RankOf(g));
    SizeMember(xs, i);
  }

  // Where a search that started at err may stand.
  ghost predicate Under(cur: Err, err: Err, g: Graph)
    requires Acyclic(g)
  {
    Known(cur, g.Keys)
    && (cur == err || Before(Level(cur, g), Size(cur), Level(err, g), Size(err)))
  }

  // errors.As(err, *Error): the nearest *Error
  method Get(err: Err, ghost g: Graph) returns (e: Option<Error>)
    requires Mirrors(g) && Sound(g) && Known(err, g.Keys)
    ensures e == FirstError(Pre(err, g))
    decreases Level(err, g), Size(err)
  {
    var cur := err;
    while cur != Nil
      invariant Under(cur, err, g)
      invariant FirstError(Pre(err, g)) == FirstError(Pre(cur, g))
      decreases Level(cur, g), Size(cur)
    {
      if cur.Structured? {
        PreUnfold(cur, g);
        return Some(cur.e);
      }
      var t := Unwrapped(cur, g);
      FirstErrorAppend([cur], Rest(t, g));
      match t {
        case Follow(c) => cur := c;
        case Fan(kids) => e := GetAmong(kids, g); return;
        case Stop => return None;
      }
    }
    e := None;
  }

  method GetAmong(xs: seq<Err>, ghost g: Graph) returns (e: Option<Error>)
    requires Mirrors(g) && Sound(g) && AllKnown(xs, g.Keys)
    ensures e == FirstError(PreAll(xs, g))
    decreases LevelAll(xs, g), SizeAll(xs)
  {
    for i := 0 to |xs|
      invariant FirstError(PreAll(xs, g)) == FirstError(PreAll(xs[i..], g))
    {
      NextChild(xs, i, g);
      FirstErrorAppend(Pre(xs[i], g), PreAll(xs[i + 1..], g));
      e := Get(xs[i], g);
      if e.Some? {
        return;
      }
    }
    e := None;
  }

  // the first non-empty code
  method Code(err: Err, ghost g: Graph) returns (code: string)
    requires Mirrors(g) && Sound(g) && Known(err, g.Keys)
    ensures code == FirstCode(Pre(err, g), g)
    decreases Level(err, g), Size(err)
  {
    var cur := err;
    while cur != Nil
      invariant Under(cur, err, g)
      invariant FirstCode(Pre(err, g), g) == FirstCode(Pre(cur, g), g)
      decreases Level(cur, g), Size(cur)
    {
      code := OwnCode(cur, g);
      if code != "" {
        return;
      }
      var t := Unwrapped(cur, g);
      SkipCodeless(cur, Rest(t, g), g);
      match t {
        case Follow(c) => cur := c;
        case Fan(kids) => code := CodeAmong(kids, g); return;
        case Stop => return "";
      }
    }
    code := "";
  }

  method CodeAmong(xs: seq<Err>, ghost g: Graph) returns (code: string)
    requires Mirrors(g) && Sound(g) && AllKnown(xs, g.Keys)
    ensures code == FirstCode(PreAll(xs, g), g)
    decreases LevelAll(xs, g), SizeAll(xs)
  {
    for i := 0 to |xs|
      invariant FirstCode(PreAll(xs, g), g) == FirstCode(PreAll(xs[i..], g), g)
    {
      NextChild(xs, i, g);
      FirstCodeAppend(Pre(xs[i], g), PreAll(xs[i + 1..], g), g);
      code := Code(xs[i], g);
      if code != "" {
        return;
      }
    }
    code := "";
  }

  // is there an error with this very code
  method HasCode(err: Err, code: string, ghost g: Graph) returns (found: bool)
    requires Mirrors(g) && Sound(g) && Known(err, g.Keys)
    ensures found <==> Carries(Pre(err, g), g, code)
    decreases Level(err, g), Size(err)
  {
    var cur := err;
    while cur != Nil
      invariant Under(cur, err, g)
      invariant Carries(Pre(err, g), g, code) <==> Carries(Pre(cur, g), g, code)
      decreases Level(cur, g), Size(cur)
    {
      found := Bears(cur, code, g);
      if found {
        return;
      }
      var t := Unwrapped(cur, g);
      SkipOther(cur, Rest(t, g), g, code);
      match t {
        case Follow(c) => cur := c;
        case Fan(kids) => found := HasCodeAmong(kids, code, g); return;
        case Stop => return false;
      }
    }
    found := false;
  }

  method HasCodeAmong(xs: seq<Err>, code: string, ghost g: Graph) returns (found: bool)
    requires Mirrors(g) && Sound(g) && AllKnown(xs, g.Keys)
    ensures found <==> Carries(PreAll(xs, g), g, code)
    decreases LevelAll(xs, g), SizeAll(xs)
  {
    for i := 0 to |xs|
      invariant Carries(PreAll(xs, g), g, code) <==> Carries(PreAll(xs[i..], g), g, code)
    {
      NextChild(xs, i, g);
      CarriesAppend(Pre(xs[i], g), PreAll(xs[i + 1..], g), g, code);
      found := HasCode(xs[i], code, g);
      if found {
        return;
      }
    }
    found := false;
  }

  // the first *Error with this code
  method FindByCode(err: Err, code: string, ghost g: Graph) returns (e: Option<Error>)
    requires Mirrors(g) && Sound(g) && Known(err, g.Keys)
    ensures e == FirstWith(Pre(err, g), g, code)
    decreases Level(err, g), Size(err)
  {
    var cur := err;
    while cur != Nil
      invariant Under(cur, err, g)
      invariant FirstWith(Pre(err, g), g, code) == FirstWith(Pre(cur, g), g, code)
      decreases Level(cur, g), Size(cur)
    {
      var hit := Hits(cur, code, g);
      if hit {
        return Some(cur.e);
      }
      var t := Unwrapped(cur, g);
      SkipForeign(cur, Rest(t, g), g, code);
      match t {
        case Follow(c) => cur := c;
        case Fan(kids) => e := FindByCodeAmong(kids, code, g); return;
        case Stop => return None;
      }
    }
    e := None;
  }

  method FindByCodeAmong(xs: seq<Err>, code: string, ghost g: Graph) returns (e: Option<Error>)
    requires Mirrors(g) && Sound(g) && AllKnown(xs, g.Keys)
    ensures e == FirstWith(PreAll(xs, g), g, code)
    decreases LevelAll(xs, g), SizeAll(xs)
  {
    for i := 0 to |xs|
      invariant FirstWith(PreAll(xs, g), g, code) == FirstWith(PreAll(xs[i..], g), g, code)
    {
      NextChild(xs, i, g);
      FirstWithAppend(Pre(xs[i], g), PreAll(xs[i + 1..], g), g, code);
      e := FindByCode(xs[i], code, g);
      if e.Some? {
        return;
      }
    }
    e := None;
  }

  lemma ListsItself(x: Err, g: Graph)
    requires Acyclic(g) && x != Nil
    ensures x in Pre(x, g)
  {
    PreUnfold(x, g);
  }

  // errors.Is(err, sentinel)
  method Is(err: Err, target: Sentinel, ghost g: Graph) returns (found: bool)
    requires Mirrors(g) && Sound(g) && Known(err, g.Keys)
    ensures found <==> HasSentinel(Pre(err, g), target)
    decreases Level(err, g), Size(err)
  {
    var cur := err;
    while cur != Nil
      invariant Under(cur, err, g)
      invariant HasSentinel(Pre(err, g), target) <==> HasSentinel(Pre(cur, g), target)
      decreases Level(cur, g), Size(cur)
    {
      if cur.Foreign? && cur.sentinel == target {
        ListsItself(cur, g);
        return true;
      }
      var t := Unwrapped(cur, g);
      SkipUnmarked(cur, Rest(t, g), target);
      match t {
        case Follow(c) => cur := c;
        case Fan(kids) => found := IsAmong(kids, target, g); return;
        case Stop => return false;
      }
    }
    found := false;
  }

  method IsAmong(xs: seq<Err>, target: Sentinel, ghost g: Graph) returns (found: bool)
    requires Mirrors(g) && Sound(g) && AllKnown(xs, g.Keys)
    ensures found <==> HasSentinel(PreAll(xs, g), target)
    decreases LevelAll(xs, g), SizeAll(xs)
  {
    for i := 0 to |xs|
      invariant HasSentinel(PreAll(xs, g), target) <==> HasSentinel(PreAll(xs[i..], g), target)
    {
      NextChild(xs, i, g);
      HasSentinelAppend(Pre(xs[i], g), PreAll(xs[i + 1..], g), target);
      found := Is(xs[i], target, g);
      if found {
        return;
      }
    }
    found := false;
  }

  method ClassOf(err: Err, ghost g: Graph) returns (c: Class)
    requires Mirrors(g) && Sound(g) && Known(err, g.Keys)
    ensures c == Class_(Pre(err, g), g)
    ensures match FirstError(Pre(err, g))
            case Some(e) => e in g && c == g[e].id.class_
            case None =>
              c == if HasSentinel(Pre(err, g), Canceled) || HasSentinel(Pre(err, g), DeadlineExceeded) then CANCELLED
                   else EXPECTED
  {
    NearestIsKnown(err, g);
    var e := Get(err, g);
    if e.Some? {
      return e.value.class_;
    }
    var canceled := Is(err, Canceled, g);
    if canceled {
      return CANCELLED;
    }
    var late := Is(err, DeadlineExceeded, g);
    return if late then CANCELLED else EXPECTED;
  }

  method IsRetryable(err: Err, ghost g: Graph) returns (b: bool)
    requires Mirrors(g) && Sound(g) && Known(err, g.Keys)
    ensures b == IdentityOf(Pre(err, g), g).retryable
    ensures match FirstError(Pre(err, g)) case Some(e) => e in g && b == g[e].id.retryable case None => !b
  {
    NearestIsKnown(err, g);
    var e := Get(err, g);
    return if e.Some? then e.value.retryable else false;
  }

  method RetryAfter(err: Err, ghost g: Graph) returns (d: int)
    requires Mirrors(g) && Sound(g) && Known(err, g.Keys)
    ensures d == IdentityOf(Pre(err, g), g).retryAfter
    ensures match FirstError(Pre(err, g)) case Some(e) => e in g && d == g[e].id.retryAfter case None => d == 0
  {
    NearestIsKnown(err, g);
    var e := Get(err, g);
    return if e.Some? then e.value.retryAfter else 0;
  }
}
