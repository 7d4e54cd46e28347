/**
 The rate limiter of sample.go as a pure state machine.

 `Decide` is what one call of allow does to one fingerprint's bucket; `Step` is
 the same call against the whole bucket map. Clock readings are unbounded
 integers (nanoseconds); they are read before the lock is taken, so a run is any
 list of calls in lock order whose readings may go backwards.
 */
module SamplerModel {
  import opened Common

  datatype Policy = Policy(window: int, burst: int) {
    predicate Enabled() {
      burst > 0 && window > 0
    }
  }

  // The value of one bucket.
  datatype Window = Window(start: int, count: int, dropped: int)

  // What allow returns: may the report pass, and how many drops it must announce.
  datatype Decision = Decision(forward: bool, carried: int)

  datatype Call = Call(fp: string, t: int)

  type Buckets = map<string, Window>

  function Decide(p: Policy, w: Option<Window>, t: int): (Window, Decision) {
    if w.None? || t - w.value.start >= p.window then
      (Window(t, 1, 0), Decision(true, if w.None? then 0 else w.value.dropped))
    else if w.value.count < p.burst then
      (w.value.(count := w.value.count + 1), Decision(true, 0))
    else
      (w.value.(dropped := w.value.dropped + 1), Decision(false, 0))
  }

  function Step(p: Policy, m: Buckets, c: Call): (Buckets, Decision) {
    if !p.Enabled() || c.fp == "" then
      (m, Decision(true, 0))
    else
      var (w, d) := Decide(p, Lookup(m, c.fp), c.t);
      (m[c.fp := w], d)
  }

  // A run of the keyed limiter, in lock order.
  function Run(p: Policy, m: Buckets, calls: seq<Call>): (r: (Buckets, seq<Decision>))
    ensures |r.1| == |calls|
    decreases |calls|
  {
    if calls == [] then (m, [])
    else
      var (m', d) := Step(p, m, calls[0]);
      var rest := Run(p, m', calls[1..]);
      (rest.0, [d] + rest.1)
  }

  // A run of a limiter that serves a single fingerprint.
  function Track(p: Policy, w: Option<Window>, ts: seq<int>): (r: (Option<Window>, seq<Decision>))
    ensures |r.1| == |ts|
    decreases |ts|
  {
    if ts == [] then (w, [])
    else
      var (w', d) := Decide(p, w, ts[0]);
      var rest := Track(p, Some(w'), ts[1..]);
      (rest.0, [d] + rest.1)
  }

  // The clock readings of the calls for one fingerprint.
  function TimesOf(calls: seq<Call>, fp: string): seq<int> {
    if calls == [] then []
    else (if calls[0].fp == fp then [calls[0].t] else []) + TimesOf(calls[1..], fp)
  }

  // The decisions that were given to one fingerprint.
  function DecisionsOf(calls: seq<Call>, ds: seq<Decision>, fp: string): seq<Decision>
    requires |calls| == |ds|
  {
    if calls == [] then []
    else (if calls[0].fp == fp then [ds[0]] else []) + DecisionsOf(calls[1..], ds[1..], fp)
  }

  // How many forwarded readings lie in [a, b).
  function Forwarded(ts: seq<int>, ds: seq<Decision>, a: int, b: int): nat
    requires |ts| == |ds|
  {
    if ts == [] then 0
    else (if ds[0].forward && a <= ts[0] < b then 1 else 0) + Forwarded(ts[1..], ds[1..], a, b)
  }

  // The same count, read off a keyed run: reports of `fp` forwarded in [a, b).
  function ForwardedFor(calls: seq<Call>, ds: seq<Decision>, fp: string, a: int, b: int): nat
    requires |calls| == |ds|
  {
    if calls == [] then 0
    else (if calls[0].fp == fp && ds[0].forward && a <= calls[0].t < b then 1 else 0)
         + ForwardedFor(calls[1..], ds[1..], fp, a, b)
  }

  function Drops(ds: seq<Decision>): nat {
    if ds == [] then 0 else (if ds[0].forward then 0 else 1) + Drops(ds[1..])
  }

  function Carried(ds: seq<Decision>): int {
    if ds == [] then 0 else ds[0].carried + Carried(ds[1..])
  }

  function Pending(w: Option<Window>): int {
    if w.None? then 0 else w.value.dropped
  }

  // The invariant of a bucket.
  predicate Sound(p: Policy, w: Window) {
    1 <= w.count <= p.burst && 0 <= w.dropped && (w.dropped > 0 ==> w.count == p.burst)
  }

  predicate SoundState(p: Policy, w: Option<Window>) {
    w.Some? ==> Sound(p, w.value)
  }

  // Readings may go backwards, but never by more than d.
  ghost predicate Skewed(ts: seq<int>, d: int) {
    forall i, j :: 0 <= i < j < |ts| ==> ts[i] - d <= ts[j]
  }
}
