/**
 accumulate.go: collecting failures one after the other, and from goroutines that run at the
 same time. What fn i returns is the i-th element of `results`.
 */
module Accumulation {
  import opened Common
  import opened Values
  import opened Decimal
  import opened Errors
  import opened Tree
  import opened Inspect
  import opened Messages

  datatype Entry = Entry(path: string, err: Err)

  function Errs(entries: seq<Entry>): (xs: seq<Err>)
    ensures |xs| == |entries| && forall i :: 0 <= i < |entries| ==> xs[i] == entries[i].err
  {
    if entries == [] then [] else Errs(entries[..|entries| - 1]) + [entries[|entries| - 1].err]
  }

  // f names a failure by its path, "_" if it has none, and shows its message.
  ghost predicate Names(f: Field, en: Entry, g: Graph)
    requires Acyclic(g)
  {
    f.safe && f.value == Text(ErrorText(en.err, g)) && f.key == if en.path == "" then "_" else en.path
  }

  // rec is a VALIDATION error that lists the entries, error by error and field by field, and
  // has nothing else but its message and stack.
  ghost predicate Lists(rec: Record, entries: seq<Entry>, captured: seq<Frame>, g: Graph)
    requires Acyclic(g)
  {
    && rec.id == Identity("", "VALIDATION", EXPECTED, SEV_ERROR, false, 0)
    && rec.texts == Texts(Itoa(|entries|) + " validation error(s)", "", "", "", "", map[])
    && rec.cause == Nil && !rec.barrier && rec.origin == Origin(None, captured, [])
    && rec.traceID == rec.spanID == rec.fp == ""
    && |rec.suppressed| == |rec.fields| == |entries|
    && forall i :: 0 <= i < |entries| ==>
         rec.suppressed[i] == entries[i].err && Names(rec.fields[i], entries[i], g)
  }

  class Accumulator {
    var entries: seq<Entry>

    constructor ()
      ensures entries == []
    {
      entries := [];
    }

    method Add(path: string, err: Err)
      modifies this
      ensures entries == if err == Nil then old(entries) else old(entries) + [Entry(path, err)]
    {
      if err == Nil {
        return;
      }
      entries := entries + [Entry(path, err)];
    }

    method AddErr(err: Err)
      modifies this
      ensures entries == if err == Nil then old(entries) else old(entries) + [Entry("", err)]
    {
      Add("", err);
    }

    // Nil, or one fresh *Error that lists every failure in the order collected.
    method ErrorOrNil(captured: seq<Frame>, ghost g: Graph) returns (out: Err)
      requires Mirrors(g) && Sound(g) && AllKnown(Errs(entries), g.Keys)
      ensures out == Nil <==> entries == []
      ensures out != Nil ==> out.Structured? && fresh(out.e) && Lists(out.e.Value(), entries, captured, g)
    {
      if |entries| == 0 {
        return Nil;
      }
      var suppressed, fields := ListEntries(entries, g);
      var base := Fresh(Itoa(|entries|) + " validation error(s)", Nil, None, captured);
      var e := new Error(base.(id := base.id.(code := "VALIDATION"), suppressed := suppressed, fields := fields));
      out := Structured(e);
    }
  }

  // The loop over the entries.
  method ListEntries(entries: seq<Entry>, ghost g: Graph) returns (suppressed: seq<Err>, fields: seq<Field>)
    requires Mirrors(g) && Sound(g) && AllKnown(Errs(entries), g.Keys)
    ensures |suppressed| == |fields| == |entries|
    ensures forall k :: 0 <= k < |entries| ==>
      suppressed[k] == entries[k].err && Names(fields[k], entries[k], g)
  {
    suppressed, fields := [], [];
    for i := 0 to |entries|
      invariant |suppressed| == |fields| == i
      invariant forall k :: 0 <= k < i ==>
        suppressed[k] == entries[k].err && Names(fields[k], entries[k], g)
    {
      assert Errs(entries)[i] == entries[i].err;
      var field := FieldOf(entries[i], g);
      suppressed := suppressed + [entries[i].err];
      fields := fields + [field];
    }
  }

  method FieldOf(en: Entry, ghost g: Graph) returns (f: Field)
    requires Mirrors(g) && Sound(g) && Known(en.err, g.Keys)
    ensures Names(f, en, g)
  {
    var key := en.path;
    if key == "" {
      key := "_";
    }
    var text := ErrorString(en.err, g);
    f := Field(key, Text(text), true);
  }

  // The entries that AddErr makes.
  function Unnamed(xs: seq<Err>): (entries: seq<Entry>)
    ensures |entries| == |xs| && forall i :: 0 <= i < |xs| ==> entries[i] == Entry("", xs[i])
  {
    seq(|xs|, i requires 0 <= i < |xs| => Entry("", xs[i]))
  }

  // Accumulate: every result is looked at, the failures are kept in order.
  method Accumulate(results: seq<Err>, captured: seq<Frame>, ghost g: Graph) returns (out: Err)
    requires Mirrors(g) && Sound(g) && AllKnown(results, g.Keys)
    ensures out == Nil <==> NonNil(results) == []
    ensures out != Nil ==>
      out.Structured? && fresh(out.e) && Lists(out.e.Value(), Unnamed(NonNil(results)), captured, g)
  {
    var acc := CollectAll(results);
    NonNilMembers(results);
    ErrsOfUnnamed(NonNil(results));
    out := acc.ErrorOrNil(captured, g);
  }

  lemma CollectStep(results: seq<Err>, i: nat)
    requires i < |results|
    ensures Unnamed(NonNil(results[..i + 1]))
         == Unnamed(NonNil(results[..i])) + (if results[i] == Nil then [] else [Entry("", results[i])])
  {
    NonNilSnoc(results[..i], results[i]);
    assert results[..i + 1] == results[..i] + [results[i]];
  }

  method CollectAll(results: seq<Err>) returns (acc: Accumulator)
    ensures fresh(acc) && acc.entries == Unnamed(NonNil(results))
  {
    acc := new Accumulator();
    for i := 0 to |results|
      invariant acc.entries == Unnamed(NonNil(results[..i]))
    {
      CollectStep(results, i);
      acc.AddErr(results[i]);
    }
    assert results[..|results|] == results;
  }

  lemma ErrsOfUnnamed(xs: seq<Err>)
    ensures Errs(Unnamed(xs)) == xs
  {
  }

  lemma {:induction false} NonNilMembers(xs: seq<Err>)
    ensures forall x :: x in NonNil(xs) <==> x in xs && x != Nil
  {
    if xs != [] {
      NonNilMembers(xs[1..]);
      assert forall x :: x in xs <==> x == xs[0] || x in xs[1..];
    }
  }

  // ---- ParAccumulate -------------------------------------------------------------------

  // Where a goroutine stands: before its Add under the lock, between Add and Done, after Done.
  datatype Phase = Running | Added | Finished

  datatype State = State(entries: seq<Err>, phases: seq<Phase>, waiting: int, returned: bool)

  datatype Action = Collect(i: nat) | Finish(i: nat) | Return

  function Start(results: seq<Err>): State {
    State([], seq(|results|, _ => Running), |results|, false)
  }

  predicate Enabled(s: State, a: Action) {
    match a
    case Collect(i) => i < |s.phases| && s.phases[i] == Running
    case Finish(i) => i < |s.phases| && s.phases[i] == Added
    case Return => s.waiting == 0 && !s.returned
  }

  function Do(results: seq<Err>, s: State, a: Action): State
    requires |s.phases| == |results| && Enabled(s, a)
  {
    match a
    case Collect(i) =>
      s.(entries := if results[i] == Nil then s.entries else s.entries + [results[i]], phases := s.phases[i := Added])
    case Finish(i) => s.(phases := s.phases[i := Finished], waiting := s.waiting - 1)
    case Return => s.(returned := true)
  }

  // Where a schedule leads; None if it asks for a step that is not enabled.
  function After(results: seq<Err>, schedule: seq<Action>): Option<State>
    decreases |schedule|
  {
    if schedule == [] then Some(Start(results))
    else
      var n := |schedule| - 1;
      var p := After(results, schedule[..n]);
      if p.None? || |p.value.phases| != |results| || !Enabled(p.value, schedule[n]) then None
      else Some(Do(results, p.value, schedule[n]))
  }

  // What one goroutine should have contributed by now.
  function DueOne(result: Err, phase: Phase): multiset<Err> {
    if phase != Running && result != Nil then multiset{result} else multiset{}
  }

  // The failures that should have been collected by now.
  function Due(results: seq<Err>, phases: seq<Phase>): multiset<Err>
    requires |results| == |phases|
  {
    if results == [] then multiset{} else DueOne(results[0], phases[0]) + Due(results[1..], phases[1..])
  }

  function Unfinished(phases: seq<Phase>): nat {
    if phases == [] then 0 else (if phases[0] == Finished then 0 else 1) + Unfinished(phases[1..])
  }

  // Steps the goroutines still have to take.
  function Work(phases: seq<Phase>): nat {
    if phases == [] then 0
    else (match phases[0] case Running => 2 case Added => 1 case Finished => 0) + Work(phases[1..])
  }

  predicate IsNext(from: Phase, to: Phase) {
    (from == Running && to == Added) || (from == Added && to == Finished)
  }

  lemma {:induction false} DueChange(results: seq<Err>, phases: seq<Phase>, i: nat, to: Phase)
    requires |results| == |phases| && i < |phases| && IsNext(phases[i], to)
    ensures Due(results, phases[i := to])
         == Due(results, phases) + (if phases[i] == Running then DueOne(results[i], to) else multiset{})
  {
    var after, rest := phases[i := to], Due(results[1..], phases[1..]);
    var more := if phases[i] == Running then DueOne(results[i], to) else multiset{};
    if i > 0 {
      assert after[1..] == phases[1..][i - 1 := to];
      DueChange(results[1..], phases[1..], i - 1, to);
      Regroup(DueOne(results[0], phases[0]), rest, more);
    } else {
      assert after[1..] == phases[1..];
      assert DueOne(results[0], to) == DueOne(results[0], phases[0]) + more;
      Regroup(DueOne(results[0], phases[0]), rest, more);
    }
  }

  lemma Regroup<T>(a: multiset<T>, b: multiset<T>, c: multiset<T>)
    ensures a + (b + c) == a + b + c && a + c + b == a + b + c
  {
  }

  lemma {:induction false} PhaseChange(phases: seq<Phase>, i: nat, to: Phase)
    requires i < |phases| && IsNext(phases[i], to)
    ensures Unfinished(phases[i := to]) == Unfinished(phases) - (if to == Finished then 1 else 0)
    ensures Work(phases[i := to]) == Work(phases) - 1
  {
    if i > 0 {
      assert phases[i := to][1..] == phases[1..][i - 1 := to];
      PhaseChange(phases[1..], i - 1, to);
    } else {
      assert phases[i := to][1..] == phases[1..];
    }
  }

  ghost predicate Inv(results: seq<Err>, s: State) {
    && |s.phases| == |results|
    && multiset(s.entries) == Due(results, s.phases)
    && s.waiting == Unfinished(s.phases)
    && (s.returned ==> s.waiting == 0)
  }

  lemma {:induction false} StartHolds(results: seq<Err>, phases: seq<Phase>)
    requires |phases| == |results| && forall i :: 0 <= i < |phases| ==> phases[i] == Running
    ensures Due(results, phases) == multiset{} && Unfinished(phases) == |results|
  {
    if results != [] {
      StartHolds(results[1..], phases[1..]);
    }
  }

  /** Every step of every goroutine keeps: collected exactly what is due, counter exact. */
  lemma StepKeepsInv(results: seq<Err>, s: State, a: Action)
    requires Inv(results, s) && Enabled(s, a)
    ensures Inv(results, Do(results, s, a))
  {
    match a
    case Collect(i) =>
      DueChange(results, s.phases, i, Added);
      PhaseChange(s.phases, i, Added);
      PhasesLeft(s.phases, i);
    case Finish(i) =>
      DueChange(results, s.phases, i, Finished);
      PhaseChange(s.phases, i, Finished);
      PhasesLeft(s.phases, i);
    case Return =>
  }

  lemma {:induction false} PhasesLeft(phases: seq<Phase>, i: nat)
    requires i < |phases| && phases[i] != Finished
    ensures Unfinished(phases) > 0
  {
    if i > 0 {
      PhasesLeft(phases[1..], i - 1);
    }
  }

  lemma {:induction false} ScheduleKeepsInv(results: seq<Err>, schedule: seq<Action>, s: State)
    requires After(results, schedule) == Some(s)
    ensures Inv(results, s)
    decreases |schedule|
  {
    if schedule == [] {
      StartHolds(results, s.phases);
    } else {
      var n := |schedule| - 1;
      var p := After(results, schedule[..n]).value;
      ScheduleKeepsInv(results, schedule[..n], p);
      StepKeepsInv(results, p, schedule[n]);
    }
  }

  lemma {:induction false} AllDue(results: seq<Err>, phases: seq<Phase>)
    requires |results| == |phases| && Unfinished(phases) == 0
    ensures Due(results, phases) == multiset(NonNil(results))
  {
    if results != [] {
      AllDue(results[1..], phases[1..]);
      var head := if results[0] == Nil then [] else [results[0]];
      assert multiset(head + NonNil(results[1..])) == multiset(head) + multiset(NonNil(results[1..]));
    }
  }

  /** In every interleaving, when ParAccumulate returns it has collected each failure exactly as
      often as it was returned: the same multiset Accumulate collects, and none if none failed. */
  lemma ReturnsAllFailures(results: seq<Err>, schedule: seq<Action>, s: State)
    requires After(results, schedule) == Some(s) && s.returned
    ensures multiset(s.entries) == multiset(NonNil(results))
    ensures s.entries == [] <==> forall i :: 0 <= i < |results| ==> results[i] == Nil
  {
    ScheduleKeepsInv(results, schedule, s);
    AllDue(results, s.phases);
    NoFailures(results);
    assert |s.entries| == |multiset(s.entries)| == |multiset(NonNil(results))| == |NonNil(results)|;
  }

  lemma {:induction false} NoFailures(xs: seq<Err>)
    ensures NonNil(xs) == [] <==> forall i :: 0 <= i < |xs| ==> xs[i] == Nil
  {
    if xs != [] {
      NoFailures(xs[1..]);
      assert forall i :: 0 <= i < |xs| - 1 ==> xs[1..][i] == xs[i + 1];
    }
  }

  function Measure(s: State): nat {
    Work(s.phases) + (if s.returned then 0 else 1)
  }

  lemma {:induction false} SomeoneCanMove(phases: seq<Phase>) returns (i: nat)
    requires Unfinished(phases) > 0
    ensures i < |phases| && phases[i] != Finished
  {
    if phases[0] != Finished {
      i := 0;
    } else {
      i := SomeoneCanMove(phases[1..]);
      i := i + 1;
    }
  }

  /** No interleaving gets stuck or goes on for ever: before the return some step is enabled, and
      every step brings the return closer. */
  lemma NeverStuck(results: seq<Err>, schedule: seq<Action>, s: State)
    requires After(results, schedule) == Some(s)
    ensures !s.returned ==> exists a :: Enabled(s, a)
    ensures forall a :: Enabled(s, a) ==> Measure(Do(results, s, a)) < Measure(s)
  {
    ScheduleKeepsInv(results, schedule, s);
    if !s.returned {
      if s.waiting == 0 {
        assert Enabled(s, Return);
      } else {
        var i := SomeoneCanMove(s.phases);
        assert Enabled(s, if s.phases[i] == Running then Collect(i) else Finish(i));
      }
    }
    forall a | Enabled(s, a) ensures Measure(Do(results, s, a)) < Measure(s) {
      match a
      case Collect(i) => PhaseChange(s.phases, i, Added);
      case Finish(i) => PhaseChange(s.phases, i, Finished);
      case Return =>
    }
  }

  lemma {:induction false} PrefixRuns(results: seq<Err>, schedule: seq<Action>, k: nat)
    requires After(results, schedule).Some? && k <= |schedule|
    ensures After(results, schedule[..k]).Some?
    decreases |schedule|
  {
    if k < |schedule| {
      var n := |schedule| - 1;
      PrefixRuns(results, schedule[..n], k);
      assert schedule[..n][..k] == schedule[..k];
    } else {
      assert schedule[..k] == schedule;
    }
  }

  // One more action of a schedule.
  lemma AfterSnoc(results: seq<Err>, schedule: seq<Action>, k: nat)
    requires After(results, schedule).Some? && k < |schedule|
    ensures var p := After(results, schedule[..k]);
            p.Some? && |p.value.phases| == |results| && Enabled(p.value, schedule[k])
            && After(results, schedule[..k + 1]) == Some(Do(results, p.value, schedule[k]))
  {
    PrefixRuns(results, schedule, k + 1);
    assert schedule[..k + 1][..k] == schedule[..k];
  }

  /** ParAccumulate under any interleaving that returns: nil if nothing failed, else one error
      that lists, field by field, the failures in the order collected, each exactly as often as
      it was returned. */
  method ParAccumulate(results: seq<Err>, schedule: seq<Action>, captured: seq<Frame>, ghost g: Graph)
    returns (out: Err)
    requires Mirrors(g) && Sound(g) && AllKnown(results, g.Keys)
    requires After(results, schedule).Some? && After(results, schedule).value.returned
    ensures out == Nil <==> forall i :: 0 <= i < |results| ==> results[i] == Nil
    ensures out != Nil ==>
      out.Structured? && fresh(out.e)
      && Lists(out.e.Value(), Unnamed(After(results, schedule).value.entries), captured, g)
      && multiset(out.e.Value().suppressed) == multiset(NonNil(results))
  {
    var acc := RunSchedule(results, schedule);
    ghost var collected := After(results, schedule).value.entries;
    ReturnsAllFailures(results, schedule, After(results, schedule).value);
    CollectedIsKnown(results, collected, g.Keys);
    ErrsOfUnnamed(collected);
    out := acc.ErrorOrNil(captured, g);
    if out != Nil {
      ListedAreSuppressed(out.e.Value(), collected, captured, g);
    }
  }

  lemma CollectedIsKnown(results: seq<Err>, collected: seq<Err>, keys: set<Error>)
    requires AllKnown(results, keys) && multiset(collected) == multiset(NonNil(results))
    ensures AllKnown(collected, keys)
  {
    NonNilMembers(results);
    forall x | x in collected ensures x in results {
      assert x in multiset(collected);
    }
  }

  lemma ListedAreSuppressed(rec: Record, xs: seq<Err>, captured: seq<Frame>, g: Graph)
    requires Acyclic(g) && Lists(rec, Unnamed(xs), captured, g)
    ensures rec.suppressed == xs
  {
  }

  // What the goroutines do to the accumulator; Done and Wait only count.
  method RunSchedule(results: seq<Err>, schedule: seq<Action>) returns (acc: Accumulator)
    requires After(results, schedule).Some?
    ensures fresh(acc) && acc.entries == Unnamed(After(results, schedule).value.entries)
  {
    acc := new Accumulator();
    PrefixRuns(results, schedule, 0);
    for k := 0 to |schedule|
      invariant After(results, schedule[..k]).Some?
      invariant acc.entries == Unnamed(After(results, schedule[..k]).value.entries)
    {
      AfterSnoc(results, schedule, k);
      if schedule[k].Collect? {
        acc.AddErr(results[schedule[k].i]);
      }
    }
    assert schedule[..|schedule|] == schedule;
  }
}
