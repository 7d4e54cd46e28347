/** Properties of every run of the rate limiter. */
module SamplerProofs {
  import opened Common
  import opened SamplerModel
  import opened Text

  // ---- independence of fingerprints ------------------------------------------

  /** In any interleaving, the decisions for one fingerprint and its bucket are those of a
      limiter that is fed only that fingerprint's calls, in lock order. */
  lemma {:induction false} FingerprintsAreIndependent(p: Policy, m: Buckets, calls: seq<Call>, fp: string)
    requires p.Enabled() && fp != ""
    ensures DecisionsOf(calls, Run(p, m, calls).1, fp) == Track(p, Lookup(m, fp), TimesOf(calls, fp)).1
    ensures Lookup(Run(p, m, calls).0, fp) == Track(p, Lookup(m, fp), TimesOf(calls, fp)).0
    decreases |calls|
  {
    if calls != [] {
      var (m', d) := Step(p, m, calls[0]);
      FingerprintsAreIndependent(p, m', calls[1..], fp);
      assert Run(p, m, calls).1[1..] == Run(p, m', calls[1..]).1;
      if calls[0].fp == fp {
        assert TimesOf(calls, fp)[1..] == TimesOf(calls[1..], fp);
      } else {
        assert TimesOf(calls, fp) == TimesOf(calls[1..], fp);
      }
    }
  }

  /** A report without a fingerprint, and every report under a policy that is off, passes and
      changes no bucket of any fingerprint. */
  lemma {:induction false} UnsampledCallsPass(p: Policy, m: Buckets, calls: seq<Call>, i: nat)
    requires i < |calls| && (!p.Enabled() || calls[i].fp == "")
    ensures Run(p, m, calls).1[i] == Decision(true, 0)
    ensures Run(p, m, calls[..i + 1]).0 == Run(p, m, calls[..i]).0
    ensures Lookup(Run(p, m, calls).0, calls[i].fp) == Lookup(m, calls[i].fp)
    decreases |calls|
  {
    var m' := Step(p, m, calls[0]).0;
    UntouchedBucket(p, m, calls, calls[i].fp);
    if i > 0 {
      UnsampledCallsPass(p, m', calls[1..], i - 1);
      assert calls[..i + 1][1..] == calls[1..][..i] && calls[..i][1..] == calls[1..][..i - 1];
    }
  }

  lemma {:induction false} UntouchedBucket(p: Policy, m: Buckets, calls: seq<Call>, fp: string)
    requires !p.Enabled() || fp == ""
    ensures Lookup(Run(p, m, calls).0, fp) == Lookup(m, fp)
    decreases |calls|
  {
    if calls != [] {
      UntouchedBucket(p, Step(p, m, calls[0]).0, calls[1..], fp);
    }
  }

  lemma {:induction false} ForwardedForIsForwarded(calls: seq<Call>, ds: seq<Decision>, fp: string, a: int, b: int)
    requires |calls| == |ds|
    ensures |DecisionsOf(calls, ds, fp)| == |TimesOf(calls, fp)|
    ensures ForwardedFor(calls, ds, fp, a, b) == Forwarded(TimesOf(calls, fp), DecisionsOf(calls, ds, fp), a, b)
  {
    if calls != [] {
      ForwardedForIsForwarded(calls[1..], ds[1..], fp, a, b);
      var ts, es := TimesOf(calls[1..], fp), DecisionsOf(calls[1..], ds[1..], fp);
      if calls[0].fp == fp {
        assert TimesOf(calls, fp)[1..] == ts && DecisionsOf(calls, ds, fp)[1..] == es;
      } else {
        assert TimesOf(calls, fp) == ts && DecisionsOf(calls, ds, fp) == es;
      }
    }
  }

  // ---- the forwarding bound --------------------------------------------------

  // Nothing counts once every remaining reading is at or after b.
  lemma {:induction false} NothingAfter(p: Policy, w: Option<Window>, ts: seq<int>, a: int, b: int)
    requires forall i :: 0 <= i < |ts| ==> b <= ts[i]
    ensures Forwarded(ts, Track(p, w, ts).1, a, b) == 0
    decreases |ts|
  {
    if ts != [] {
      NothingAfter(p, Some(Decide(p, w, ts[0]).0), ts[1..], a, b);
    }
  }

  // The current window opened at or after b, so only stale readings count; j more windows
  // at most can open before every reading has passed b.
  lemma {:induction false} BoundPast(p: Policy, w: Window, ts: seq<int>, d: nat, a: int, b: int, j: nat)
    requires p.Enabled() && Sound(p, w) && Skewed([w.start] + ts, d)
    requires b <= w.start < b + d && b + d - w.start <= (j + 1) * p.window
    ensures Forwarded(ts, Track(p, Some(w), ts).1, a, b) <= p.burst - w.count + j * (p.burst - 1)
    decreases |ts|
  {
    MulNonNegative(j, p.burst - 1);
    if ts != [] {
      var t, w' := ts[0], Decide(p, Some(w), ts[0]).0;
      SkewedTail(w.start, ts, d);
      if t - w.start < p.window {
        BoundPast(p, w', ts[1..], d, a, b, j);
      } else if t >= b + d {
        NothingAfter(p, Some(w'), ts[1..], a, b);
      } else {
        MulStep(j, p.window);
        assert j > 0;
        MulStep(j - 1, p.burst - 1);
        BoundPast(p, w', ts[1..], d, a, b, j - 1);
      }
    }
  }

  lemma MulNonNegative(x: nat, y: nat)
    ensures 0 <= x * y
  {
  }

  lemma MulStep(x: int, y: int)
    ensures (x + 1) * y == x * y + y
  {
  }

  lemma SkewedTail(s: int, ts: seq<int>, d: nat)
    requires ts != [] && Skewed([s] + ts, d)
    ensures Skewed([s] + ts[1..], d) && Skewed(ts, d)
    ensures Skewed([ts[0]] + ts[1..], d)
    ensures forall i :: 0 <= i < |ts[1..]| ==> ts[0] - d <= ts[1..][i]
  {
    var all := [s] + ts;
    forall i, j | 0 <= i < j < |ts| ensures ts[i] - d <= ts[j] {
      assert all[i + 1] == ts[i] && all[j + 1] == ts[j];
    }
    var shorter := [s] + ts[1..];
    forall i, j | 0 <= i < j < |shorter| ensures shorter[i] - d <= shorter[j] {
      assert shorter[j] == all[j + 1] && shorter[i] == all[if i == 0 then 0 else i + 1];
    }
    assert [ts[0]] + ts[1..] == ts;
  }

  lemma MulSum(x: nat, y: nat, z: nat)
    ensures (x + y) * z == x * z + y * z
  {
  }

  // The current window opened inside [a, b); m more windows at most can open before b, and k
  // more before every reading has passed b.
  lemma {:induction false} BoundInside(p: Policy, w: Window, ts: seq<int>, d: nat, a: int, b: int, m: nat, k: nat)
    requires p.Enabled() && Sound(p, w) && Skewed([w.start] + ts, d)
    requires w.start < b && b - w.start <= (m + 1) * p.window && b + d - w.start <= (k + m + 1) * p.window
    ensures Forwarded(ts, Track(p, Some(w), ts).1, a, b)
         <= p.burst - w.count + m * p.burst + k * (p.burst - 1)
    decreases |ts|
  {
    MulNonNegative(m, p.burst);
    MulNonNegative(k, p.burst - 1);
    if ts != [] {
      var t, w' := ts[0], Decide(p, Some(w), ts[0]).0;
      SkewedTail(w.start, ts, d);
      if t - w.start < p.window {
        BoundInside(p, w', ts[1..], d, a, b, m, k);
      } else {
        MulStep(m, p.window);
        MulStep(k + m, p.window);
        if t < b {
          assert m > 0;
          MulStep(m - 1, p.burst);
          BoundInside(p, w', ts[1..], d, a, b, m - 1, k);
        } else {
          BoundFrom(p, w', ts[1..], d, a, b, k + m);
          OnlyStale(k, m, p.burst);
        }
      }
    }
  }

  lemma OnlyStale(k: nat, m: nat, burst: nat)
    requires burst > 0
    ensures (k + m) * (burst - 1) <= m * burst + k * (burst - 1)
  {
    MulSum(k, m, burst - 1);
  }

  // A window that opened at or after b, and before every reading has passed b k windows at
  // most, lets through at most k * (B - 1) stale readings.
  lemma BoundFrom(p: Policy, w: Window, ts: seq<int>, d: nat, a: int, b: int, k: nat)
    requires p.Enabled() && Sound(p, w) && w.count == 1 && Skewed([w.start] + ts, d)
    requires b <= w.start && b + d - w.start <= k * p.window
    ensures Forwarded(ts, Track(p, Some(w), ts).1, a, b) <= k * (p.burst - 1)
  {
    assert 0 <= k * (p.burst - 1);
    if b + d <= w.start {
      forall i | 0 <= i < |ts| ensures b <= ts[i] {
        assert ([w.start] + ts)[0] == w.start && ([w.start] + ts)[i + 1] == ts[i];
      }
      NothingAfter(p, Some(w), ts, a, b);
    } else {
      assert k > 0;
      MulStep(k - 1, p.burst - 1);
      BoundPast(p, w, ts, d, a, b, k - 1);
    }
  }

  // A call that opens a window, followed by everything that can still count.
  lemma BoundOpening(p: Policy, t: int, ts: seq<int>, d: nat, a: int, n: nat, k: nat)
    requires p.Enabled() && Skewed([t] + ts, d) && a <= t && a + n * p.window + d - t <= (k + n) * p.window
    ensures (if t < a + n * p.window then 1 else 0)
          + Forwarded(ts, Track(p, Some(Window(t, 1, 0)), ts).1, a, a + n * p.window)
         <= n * p.burst + k * (p.burst - 1)
  {
    var b := a + n * p.window;
    assert 0 <= n * p.burst;
    if t < b {
      assert n > 0;
      MulStep(n - 1, p.burst);
      BoundInside(p, Window(t, 1, 0), ts, d, a, b, n - 1, k);
    } else {
      BoundFrom(p, Window(t, 1, 0), ts, d, a, b, k + n);
      OnlyStale(k, n, p.burst);
    }
  }

  // The current window opened before a and is still open at a.
  lemma {:induction false} BoundAcross(p: Policy, w: Window, ts: seq<int>, d: nat, a: int, n: nat, k: nat)
    requires p.Enabled() && Sound(p, w) && Skewed([w.start] + ts, d) && d <= k * p.window + 1
    requires w.start < a < w.start + p.window
    ensures Forwarded(ts, Track(p, Some(w), ts).1, a, a + n * p.window)
         <= p.burst - w.count + n * p.burst + k * (p.burst - 1)
    decreases |ts|
  {
    assert 0 <= n * p.burst && 0 <= k * (p.burst - 1);
    if ts != [] {
      SkewedTail(w.start, ts, d);
      if ts[0] - w.start < p.window {
        BoundAcross(p, Decide(p, Some(w), ts[0]).0, ts[1..], d, a, n, k);
      } else {
        MulSum(k, n, p.window);
        BoundOpening(p, ts[0], ts[1..], d, a, n, k);
      }
    }
  }

  // Any state reached before a reading at or after a has been charged.
  lemma {:induction false} BoundBefore(p: Policy, w: Option<Window>, ts: seq<int>, d: nat, a: int, n: nat, k: nat)
    requires p.Enabled() && SoundState(p, w) && Skewed(ts, d) && d <= k * p.window + 1
    requires w.Some? ==> Skewed([w.value.start] + ts, d) && w.value.start < a
    ensures Forwarded(ts, Track(p, w, ts).1, a, a + n * p.window)
         <= p.burst - 1 + n * p.burst + k * (p.burst - 1)
    decreases |ts|
  {
    assert 0 <= n * p.burst && 0 <= k * (p.burst - 1);
    if w.Some? && a < w.value.start + p.window {
      BoundAcross(p, w.value, ts, d, a, n, k);
    } else if ts != [] {
      var t, w' := ts[0], Decide(p, w, ts[0]).0;
      if w.Some? {
        SkewedTail(w.value.start, ts, d);
      } else {
        assert [t] + ts[1..] == ts;
      }
      if t < a {
        BoundBefore(p, Some(w'), ts[1..], d, a, n, k);
      } else {
        MulStep(k, p.window);
        MulStep(k, p.burst - 1);
        MulSum(k + 1, n, p.window);
        BoundOpening(p, t, ts[1..], d, a, n, k + 1);
      }
    }
  }

  /** The bound, for clock readings that never go back by more than d <= k * W + 1: a half-open
      interval of length n * W sees at most n * B + (k + 1) * (B - 1) forwarded reports of a
      fingerprint, whatever the other fingerprints do. */
  lemma ForwardingBound(p: Policy, calls: seq<Call>, fp: string, d: nat, a: int, n: nat, k: nat)
    requires p.Enabled() && fp != "" && Skewed(TimesOf(calls, fp), d) && d <= k * p.window + 1
    ensures ForwardedFor(calls, Run(p, map[], calls).1, fp, a, a + n * p.window)
         <= n * p.burst + (k + 1) * (p.burst - 1)
  {
    FingerprintsAreIndependent(p, map[], calls, fp);
    ForwardedForIsForwarded(calls, Run(p, map[], calls).1, fp, a, a + n * p.window);
    BoundBefore(p, None, TimesOf(calls, fp), d, a, n, k);
    assert (k + 1) * (p.burst - 1) == k * (p.burst - 1) + (p.burst - 1);
  }

  /** With readings that never go backwards the bound is (n + 1) * B - 1; 2 * B - 1 for one window. */
  lemma ForwardingBoundInOrder(p: Policy, calls: seq<Call>, fp: string, a: int, n: nat)
    requires p.Enabled() && fp != "" && Skewed(TimesOf(calls, fp), 0)
    ensures ForwardedFor(calls, Run(p, map[], calls).1, fp, a, a + n * p.window) <= (n + 1) * p.burst - 1
  {
    ForwardingBound(p, calls, fp, 0, a, n, 0);
    assert (n + 1) * p.burst == n * p.burst + p.burst;
  }

  function Readings(calls: seq<Call>): (ts: seq<int>)
    ensures |ts| == |calls| && forall i :: 0 <= i < |calls| ==> ts[i] == calls[i].t
  {
    seq(|calls|, i requires 0 <= i < |calls| => calls[i].t)
  }

  lemma {:induction false} TimesAreReadings(calls: seq<Call>, fp: string, i: nat)
    requires i < |TimesOf(calls, fp)|
    ensures exists j :: 0 <= j < |calls| && calls[j].t == TimesOf(calls, fp)[i]
  {
    var head := if calls[0].fp == fp then [calls[0].t] else [];
    if i < |head| {
      assert calls[0].t == TimesOf(calls, fp)[i];
    } else {
      TimesAreReadings(calls[1..], fp, i - |head|);
      var j :| 0 <= j < |calls[1..]| && calls[1..][j].t == TimesOf(calls[1..], fp)[i - |head|];
      assert calls[j + 1].t == TimesOf(calls, fp)[i];
    }
  }

  lemma {:induction false} TimesAreSkewed(calls: seq<Call>, fp: string, d: nat)
    requires Skewed(Readings(calls), d)
    ensures Skewed(TimesOf(calls, fp), d)
  {
    if calls != [] {
      var ts, rest := TimesOf(calls, fp), TimesOf(calls[1..], fp);
      assert Readings(calls)[1..] == Readings(calls[1..]);
      SkewedTail(calls[0].t, Readings(calls), d) by {
        FirstTwice(Readings(calls), d);
      }
      TimesAreSkewed(calls[1..], fp, d);
      forall i, j | 0 <= i < j < |ts| ensures ts[i] - d <= ts[j] {
        if calls[0].fp == fp {
          if i == 0 {
            TimesAreReadings(calls[1..], fp, j - 1);
            var l :| 0 <= l < |calls[1..]| && calls[1..][l].t == rest[j - 1];
            assert Readings(calls)[0] == ts[0] && Readings(calls)[l + 1] == ts[j];
          } else {
            assert ts[i] == rest[i - 1] && ts[j] == rest[j - 1];
          }
        } else {
          assert ts == rest;
        }
      }
    }
  }

  lemma FirstTwice(ts: seq<int>, d: nat)
    requires ts != [] && Skewed(ts, d)
    ensures Skewed([ts[0]] + ts, d)
  {
    var all := [ts[0]] + ts;
    forall i, j | 0 <= i < j < |all| ensures all[i] - d <= all[j] {
      assert all[j] == ts[j - 1] && all[i] == ts[if i == 0 then 0 else i - 1];
    }
  }

  /** Goroutines that read the clock before they take the lock: if none waits longer than d <= k * W + 1
      between the two, and locks are granted in time order, then for every fingerprint an interval
      of n * W holds at most n * B + (k + 1) * (B - 1) readings that were forwarded. */
  lemma ForwardingBoundForGoroutines(p: Policy, calls: seq<Call>, locks: seq<int>, fp: string,
                                     d: nat, a: int, n: nat, k: nat)
    requires p.Enabled() && fp != "" && d <= k * p.window + 1 && |locks| == |calls|
    requires forall i :: 0 <= i < |calls| ==> calls[i].t <= locks[i] <= calls[i].t + d
    requires forall i, j :: 0 <= i < j < |locks| ==> locks[i] <= locks[j]
    ensures ForwardedFor(calls, Run(p, map[], calls).1, fp, a, a + n * p.window)
         <= n * p.burst + (k + 1) * (p.burst - 1)
  {
    var ts := Readings(calls);
    forall i, j | 0 <= i < j < |ts| ensures ts[i] - d <= ts[j] {
      assert calls[i].t <= locks[i] <= locks[j] <= calls[j].t + d;
    }
    TimesAreSkewed(calls, fp, d);
    ForwardingBound(p, calls, fp, d, a, n, k);
  }

  // ---- the bound is reached --------------------------------------------------

  // Bursts of B calls at W, 2W, ..., nW.
  function Bursts(p: Policy, from: nat, n: nat): seq<int>
    requires p.Enabled()
    decreases n
  {
    if n == 0 then [] else Repeat(from * p.window, p.burst) + Bursts(p, from + 1, n - 1)
  }

  // k windows opened after the interval, each followed by readings that lag behind in it.
  function Lags(p: Policy, stale: int, from: nat, k: nat): seq<int>
    requires p.Enabled()
    decreases k
  {
    if k == 0 then [] else [from * p.window] + Repeat(stale, p.burst - 1) + Lags(p, stale, from + 1, k - 1)
  }

  // One call at 0, the rest of that window's budget at its last instant, then n full bursts.
  function OrderedRun(p: Policy, n: nat): seq<int>
    requires p.Enabled()
  {
    [0] + Repeat(p.window - 1, p.burst - 1) + Bursts(p, 1, n)
  }

  // The same, and then k windows that readings at the last instant of the interval are charged to.
  function WorstRun(p: Policy, n: nat, k: nat): seq<int>
    requires p.Enabled()
  {
    OrderedRun(p, n) + Lags(p, (n + 1) * p.window - 2, n + 1, k)
  }

  lemma {:induction false} TrackAppend(p: Policy, w: Option<Window>, xs: seq<int>, ys: seq<int>)
    ensures Track(p, w, xs + ys).1 == Track(p, w, xs).1 + Track(p, Track(p, w, xs).0, ys).1
    ensures Track(p, w, xs + ys).0 == Track(p, Track(p, w, xs).0, ys).0
    decreases |xs|
  {
    if xs == [] {
      assert xs + ys == ys;
    } else {
      assert (xs + ys)[1..] == xs[1..] + ys;
      TrackAppend(p, Some(Decide(p, w, xs[0]).0), xs[1..], ys);
    }
  }

  lemma {:induction false} ForwardedAppend(xs: seq<int>, ds: seq<Decision>, ys: seq<int>, es: seq<Decision>,
                                           a: int, b: int)
    requires |xs| == |ds| && |ys| == |es|
    ensures Forwarded(xs + ys, ds + es, a, b) == Forwarded(xs, ds, a, b) + Forwarded(ys, es, a, b)
  {
    if xs == [] {
      assert xs + ys == ys && ds + es == es;
    } else {
      assert (xs + ys)[1..] == xs[1..] + ys && (ds + es)[1..] == ds[1..] + es;
      ForwardedAppend(xs[1..], ds[1..], ys, es, a, b);
    }
  }

  lemma {:induction false} WithinBudget(p: Policy, w: Window, t: int, n: nat, a: int, b: int)
    requires p.Enabled() && t < w.start + p.window && w.count + n <= p.burst
    requires a <= t < b
    ensures Track(p, Some(w), Repeat(t, n)).0 == Some(w.(count := w.count + n))
    ensures Forwarded(Repeat(t, n), Track(p, Some(w), Repeat(t, n)).1, a, b) == n
    decreases n
  {
    if n > 0 {
      assert Repeat(t, n)[1..] == Repeat(t, n - 1);
      WithinBudget(p, w.(count := w.count + 1), t, n - 1, a, b);
    }
  }

  // One full burst in a new window.
  lemma BurstPasses(p: Policy, w: Window, t: int, a: int, b: int)
    requires p.Enabled() && w.start + p.window <= t && a <= t < b
    ensures var now := Repeat(t, p.burst);
            Track(p, Some(w), now).0 == Some(Window(t, p.burst, 0))
            && Forwarded(now, Track(p, Some(w), now).1, a, b) == p.burst
  {
    assert Repeat(t, p.burst)[1..] == Repeat(t, p.burst - 1);
    WithinBudget(p, Window(t, 1, 0), t, p.burst - 1, a, b);
  }

  lemma {:induction false} BurstsAllPass(p: Policy, w: Window, from: nat, n: nat, a: int, b: int)
    requires p.Enabled() && w.start <= (from - 1) * p.window
    requires a <= from * p.window && (from + n - 1) * p.window < b
    ensures var ts := Bursts(p, from, n); Forwarded(ts, Track(p, Some(w), ts).1, a, b) == n * p.burst
    decreases n
  {
    if n > 0 {
      var t, rest := from * p.window, Bursts(p, from + 1, n - 1);
      MulStep(from - 1, p.window);
      MulStep(from, p.window);
      MulMonotone(from, from + n - 1, p.window);
      MulStep(n - 1, p.burst);
      var now, end := Repeat(t, p.burst), Window(t, p.burst, 0);
      BurstPasses(p, w, t, a, b);
      TrackAppend(p, Some(w), now, rest);
      ForwardedAppend(now, Track(p, Some(w), now).1, rest, Track(p, Some(end), rest).1, a, b);
      BurstsAllPass(p, end, from + 1, n - 1, a, b);
    }
  }

  lemma {:induction false} BurstsInOrder(p: Policy, from: nat, n: nat)
    requires p.Enabled()
    ensures Skewed(Bursts(p, from, n), 0)
    ensures forall i :: 0 <= i < |Bursts(p, from, n)| ==>
      from * p.window <= Bursts(p, from, n)[i] <= (from + n - 1) * p.window
    decreases n
  {
    if n > 0 {
      BurstsInOrder(p, from + 1, n - 1);
      MulStep(from, p.window);
      MulMonotone(from, from + n - 1, p.window);
    }
  }

  lemma MulMonotone(x: int, y: int, z: nat)
    requires x <= y
    ensures x * z <= y * z
  {
  }

  lemma {:induction false} LagsRange(p: Policy, stale: int, from: nat, k: nat)
    requires p.Enabled() && stale <= from * p.window
    ensures forall i :: 0 <= i < |Lags(p, stale, from, k)| ==>
      stale <= Lags(p, stale, from, k)[i] <= (from + k - 1) * p.window
    decreases k
  {
    if k > 0 {
      MulStep(from, p.window);
      LagsRange(p, stale, from + 1, k - 1);
      MulMonotone(from, from + k - 1, p.window);
    }
  }

  // One window after the interval.
  lemma LagCount(p: Policy, w: Window, stale: int, t: int, a: int, b: int)
    requires p.Enabled() && w.start + p.window <= t && a <= stale < b <= t
    ensures var now := [t] + Repeat(stale, p.burst - 1);
            Track(p, Some(w), now).0 == Some(Window(t, p.burst, 0))
            && Forwarded(now, Track(p, Some(w), now).1, a, b) == p.burst - 1
  {
    var now := [t] + Repeat(stale, p.burst - 1);
    assert now[1..] == Repeat(stale, p.burst - 1);
    WithinBudget(p, Window(t, 1, 0), stale, p.burst - 1, a, b);
  }

  lemma {:induction false} LagsCount(p: Policy, w: Window, stale: int, from: nat, k: nat, a: int, b: int)
    requires p.Enabled() && w.start <= (from - 1) * p.window && a <= stale < b <= from * p.window
    ensures var ts := Lags(p, stale, from, k); Forwarded(ts, Track(p, Some(w), ts).1, a, b) == k * (p.burst - 1)
    decreases k
  {
    if k > 0 {
      var t, rest, end := from * p.window, Lags(p, stale, from + 1, k - 1), Window(from * p.window, p.burst, 0);
      MulStep(from - 1, p.window);
      MulStep(from, p.window);
      MulStep(k - 1, p.burst - 1);
      var now := [t] + Repeat(stale, p.burst - 1);
      LagCount(p, w, stale, t, a, b);
      TrackAppend(p, Some(w), now, rest);
      ForwardedAppend(now, Track(p, Some(w), now).1, rest, Track(p, Some(end), rest).1, a, b);
      LagsCount(p, end, stale, from + 1, k - 1, a, b);
    }
  }

  lemma OrderedRunCount(p: Policy, n: nat)
    requires p.Enabled() && p.window >= 2 && n >= 1
    ensures var ts, a := OrderedRun(p, n), p.window - 1;
            Forwarded(ts, Track(p, None, ts).1, a, a + n * p.window) == (n + 1) * p.burst - 1
  {
    var a := p.window - 1;
    var head, tail := [0] + Repeat(a, p.burst - 1), Bursts(p, 1, n);
    var w, b := Window(0, 1, 0), a + n * p.window;
    MulStep(n - 1, p.window);
    MulNonNegative(n - 1, p.window);
    assert head[1..] == Repeat(a, p.burst - 1);
    WithinBudget(p, w, a, p.burst - 1, a, b);
    var end := Track(p, None, head).0;
    assert end == Some(Window(0, p.burst, 0));
    TrackAppend(p, None, head, tail);
    ForwardedAppend(head, Track(p, None, head).1, tail, Track(p, end, tail).1, a, b);
    BurstsAllPass(p, end.value, 1, n, a, b);
    MulStep(n, p.burst);
  }

  // The last window of an ordered run opened at n * W at the latest.
  lemma {:induction false} LastStart(p: Policy, w: Option<Window>, ts: seq<int>, top: int)
    requires p.Enabled() && (w.Some? ==> w.value.start <= top) && forall i :: 0 <= i < |ts| ==> ts[i] <= top
    ensures var w' := Track(p, w, ts).0; (w'.Some? <==> w.Some? || ts != []) && (w'.Some? ==> w'.value.start <= top)
    decreases |ts|
  {
    if ts != [] {
      LastStart(p, Some(Decide(p, w, ts[0]).0), ts[1..], top);
    }
  }

  lemma OrderedRunRange(p: Policy, n: nat)
    requires p.Enabled() && n >= 1
    ensures Skewed(OrderedRun(p, n), 0)
    ensures forall i :: 0 <= i < |OrderedRun(p, n)| ==> 0 <= OrderedRun(p, n)[i] <= n * p.window
  {
    BurstsInOrder(p, 1, n);
    MulMonotone(1, n, p.window);
  }

  // How far the readings of a worst run go back.
  function SkewOf(p: Policy, k: nat): nat
    requires p.Enabled()
  {
    if k == 0 then 0 else (k - 1) * p.window + 2
  }

  lemma WorstRunSkew(p: Policy, n: nat, k: nat)
    requires p.Enabled() && p.window >= 2 && n >= 1
    ensures Skewed(WorstRun(p, n, k), SkewOf(p, k))
  {
    var first, stale := OrderedRun(p, n), (n + 1) * p.window - 2;
    OrderedRunRange(p, n);
    MulStep(n, p.window);
    if k > 0 {
      LagsRange(p, stale, n + 1, k);
      MulSum(n + 1, k - 1, p.window);
      MulNonNegative(k - 1, p.window);
    } else {
      assert WorstRun(p, n, 0) == first;
    }
  }

  /** No smaller bound holds: for W >= 2, every n >= 1 and every k there is a run that forwards
      n * B + (k + 1) * (B - 1) reports in an interval of length n * W, and whose readings go back
      by no more than is needed; with k = 0 it is ordered. */
  lemma ForwardingBoundIsReached(p: Policy, n: nat, k: nat)
    requires p.Enabled() && p.window >= 2 && n >= 1
    ensures Skewed(WorstRun(p, n, k), SkewOf(p, k))
    ensures var ts, a := WorstRun(p, n, k), p.window - 1;
            Forwarded(ts, Track(p, None, ts).1, a, a + n * p.window) == n * p.burst + (k + 1) * (p.burst - 1)
  {
    WorstRunSkew(p, n, k);
    var a, stale := p.window - 1, (n + 1) * p.window - 2;
    var first, lags := OrderedRun(p, n), Lags(p, stale, n + 1, k);
    OrderedRunRange(p, n);
    LastStart(p, None, first, n * p.window);
    var end := Track(p, None, first).0;
    OrderedRunCount(p, n);
    TrackAppend(p, None, first, lags);
    ForwardedAppend(first, Track(p, None, first).1, lags, Track(p, end, lags).1, a, a + n * p.window);
    MulStep(n, p.window);
    MulMonotone(1, n, p.window);
    LagsCount(p, end.value, stale, n + 1, k, a, a + n * p.window);
    MulStep(n, p.burst);
    MulStep(k, p.burst - 1);
  }

  // How many windows after the interval a skew of d lets stale readings be charged to.
  function Extra(p: Policy, d: nat): (k: nat)
    requires p.Enabled()
  {
    if d <= 1 then 0 else (d - 2) / p.window + 1
  }

  lemma ExtraIsExact(p: Policy, d: nat)
    requires p.Enabled()
    ensures SkewOf(p, Extra(p, d)) <= d <= Extra(p, d) * p.window + 1
  {
    if d > 1 {
      var q := (d - 2) / p.window;
      assert d - 2 == q * p.window + (d - 2) % p.window;
      MulStep(q, p.window);
    }
  }

  ghost predicate AtMost(p: Policy, ts: seq<int>, a: int, n: nat, most: int) {
    Forwarded(ts, Track(p, None, ts).1, a, a + n * p.window) <= most
  }

  ghost predicate Exactly(p: Policy, ts: seq<int>, a: int, n: nat, most: int) {
    Forwarded(ts, Track(p, None, ts).1, a, a + n * p.window) == most
  }

  /** For every skew d the maximum: no run whose readings go back by at most d forwards more in an
      interval of length n * W, and one forwards as much. */
  lemma ForwardingBoundIsExact(p: Policy, d: nat, n: nat)
    requires p.Enabled() && p.window >= 2 && n >= 1
    ensures var most := n * p.burst + (Extra(p, d) + 1) * (p.burst - 1);
            (forall ts, a :: Skewed(ts, d) ==> AtMost(p, ts, a, n, most))
            && exists ts, a :: Skewed(ts, d) && Exactly(p, ts, a, n, most)
  {
    var k := Extra(p, d);
    var most := n * p.burst + (k + 1) * (p.burst - 1);
    ExtraIsExact(p, d);
    MulStep(k, p.burst - 1);
    forall ts, a | Skewed(ts, d) ensures AtMost(p, ts, a, n, most) {
      BoundBefore(p, None, ts, d, a, n, k);
    }
    ForwardingBoundIsReached(p, n, k);
    var ts := WorstRun(p, n, k);
    assert Skewed(ts, d) && Exactly(p, ts, p.window - 1, n, most);
  }

  // The rate the sink's documentation announces: at most B reports in any W.
  ghost predicate WithinAnnouncedRate(p: Policy, ts: seq<int>, a: int) {
    Forwarded(ts, Track(p, None, ts).1, a, a + p.window) <= p.burst
  }

  // A window of length 1 covers one instant, so none that opened before a is still open at a.
  lemma {:induction false} UnitBoundBefore(p: Policy, w: Option<Window>, ts: seq<int>, d: nat, a: int, n: nat, k: nat)
    requires p.Enabled() && p.window == 1 && SoundState(p, w) && Skewed(ts, d) && d <= k
    requires w.Some? ==> Skewed([w.value.start] + ts, d) && w.value.start < a
    ensures Forwarded(ts, Track(p, w, ts).1, a, a + n) <= n * p.burst + k * (p.burst - 1)
    decreases |ts|
  {
    MulNonNegative(n, p.burst);
    MulNonNegative(k, p.burst - 1);
    if ts != [] {
      var t, w' := ts[0], Decide(p, w, ts[0]).0;
      if w.Some? {
        SkewedTail(w.value.start, ts, d);
      } else {
        assert [t] + ts[1..] == ts;
      }
      if t < a {
        UnitBoundBefore(p, Some(w'), ts[1..], d, a, n, k);
      } else {
        BoundOpening(p, t, ts[1..], d, a, n, k);
      }
    }
  }

  // A call at 0, then n full bursts, then k windows that stale readings are charged to.
  function UnitRun(p: Policy, n: nat, k: nat): seq<int>
    requires p.Enabled()
  {
    [0] + Bursts(p, 1, n) + Lags(p, n, n + 1, k)
  }

  /** For W = 1 the bound is lower by B - 1, and exact again. */
  lemma UnitWindowBound(p: Policy, calls: seq<Call>, fp: string, d: nat, a: int, n: nat, k: nat)
    requires p.Enabled() && p.window == 1 && fp != "" && Skewed(TimesOf(calls, fp), d) && d <= k
    ensures ForwardedFor(calls, Run(p, map[], calls).1, fp, a, a + n) <= n * p.burst + k * (p.burst - 1)
    ensures n >= 1 ==> Skewed(UnitRun(p, n, k), k)
    ensures n >= 1 ==> var ts := UnitRun(p, n, k);
                       Forwarded(ts, Track(p, None, ts).1, 1, 1 + n) == n * p.burst + k * (p.burst - 1)
  {
    FingerprintsAreIndependent(p, map[], calls, fp);
    ForwardedForIsForwarded(calls, Run(p, map[], calls).1, fp, a, a + n);
    UnitBoundBefore(p, None, TimesOf(calls, fp), d, a, n, k);
    if n >= 1 {
      UnitRunSkew(p, n, k);
      UnitRunCount(p, n, k);
    }
  }

  lemma UnitRunSkew(p: Policy, n: nat, k: nat)
    requires p.Enabled() && p.window == 1 && n >= 1
    ensures Skewed(UnitRun(p, n, k), k)
  {
    BurstsInOrder(p, 1, n);
    LagsRange(p, n, n + 1, k);
  }

  lemma UnitRunCount(p: Policy, n: nat, k: nat)
    requires p.Enabled() && p.window == 1 && n >= 1
    ensures var ts := UnitRun(p, n, k);
            Forwarded(ts, Track(p, None, ts).1, 1, 1 + n) == n * p.burst + k * (p.burst - 1)
  {
    var bursts, lags, w := Bursts(p, 1, n), Lags(p, n, n + 1, k), Window(0, 1, 0);
    assert UnitRun(p, n, k)[1..] == bursts + lags;
    BurstsInOrder(p, 1, n);
    BurstsAllPass(p, w, 1, n, 1, 1 + n);
    LastStart(p, Some(w), bursts, n);
    var end := Track(p, Some(w), bursts).0;
    TrackAppend(p, Some(w), bursts, lags);
    ForwardedAppend(bursts, Track(p, Some(w), bursts).1, lags, Track(p, end, lags).1, 1, 1 + n);
    LagsCount(p, end.value, n, n + 1, k, 1, 1 + n);
  }

  /** With an orderly clock that rate is kept by every run if and only if B = 1, or W = 1 and a
      window is a single instant. */
  lemma AnnouncedRateNeedsBurstOne(p: Policy)
    requires p.Enabled()
    ensures (forall ts, a :: Skewed(ts, 0) ==> WithinAnnouncedRate(p, ts, a)) <==> p.burst == 1 || p.window == 1
  {
    if p.burst == 1 {
      forall ts, a | Skewed(ts, 0) ensures WithinAnnouncedRate(p, ts, a) {
        BoundBefore(p, None, ts, 0, a, 1, 0);
      }
    } else if p.window == 1 {
      forall ts, a | Skewed(ts, 0) ensures WithinAnnouncedRate(p, ts, a) {
        UnitBoundBefore(p, None, ts, 0, a, 1, 0);
      }
    } else {
      ForwardingBoundIsReached(p, 1, 0);
      assert Skewed(WorstRun(p, 1, 0), 0) && !WithinAnnouncedRate(p, WorstRun(p, 1, 0), p.window - 1);
    }
  }

  // ---- windows of one fingerprint --------------------------------------------

  lemma {:induction false} TrackIsSound(p: Policy, w: Option<Window>, ts: seq<int>)
    requires p.Enabled() && SoundState(p, w)
    ensures SoundState(p, Track(p, w, ts).0)
    decreases |ts|
  {
    if ts != [] {
      TrackIsSound(p, Some(Decide(p, w, ts[0]).0), ts[1..]);
    }
  }

  /** Every bucket of every reachable state has 1 <= count <= B, and has dropped something
      only if it is full. */
  lemma ReachableBucketsAreSound(p: Policy, calls: seq<Call>, fp: string)
    requires p.Enabled() && fp != "" && fp in Run(p, map[], calls).0
    ensures Sound(p, Run(p, map[], calls).0[fp])
  {
    FingerprintsAreIndependent(p, map[], calls, fp);
    TrackIsSound(p, None, TimesOf(calls, fp));
  }

  /** Whatever order the readings arrive in, two windows of a fingerprint start at least W
      apart, and a window never moves backwards. */
  lemma {:induction false} WindowStartsAreSpaced(p: Policy, w: Window, ts: seq<int>)
    requires p.Enabled()
    ensures var w' := Track(p, Some(w), ts).0;
            w'.Some? && (w'.value.start == w.start || w'.value.start >= w.start + p.window)
    decreases |ts|
  {
    if ts != [] {
      WindowStartsAreSpaced(p, Decide(p, Some(w), ts[0]).0, ts[1..]);
    }
  }

  /** The same, between any two moments of a keyed run from the empty limiter. */
  lemma {:induction false} WindowStartsAreSpacedInRun(p: Policy, calls: seq<Call>, fp: string, i: nat)
    requires p.Enabled() && fp != "" && i <= |calls|
    requires fp in Run(p, map[], calls[..i]).0
    ensures fp in Run(p, map[], calls).0
    ensures var s, s' := Run(p, map[], calls[..i]).0[fp].start, Run(p, map[], calls).0[fp].start;
            s' == s || s' >= s + p.window
  {
    assert calls == calls[..i] + calls[i..];
    FingerprintsAreIndependent(p, map[], calls[..i], fp);
    FingerprintsAreIndependent(p, map[], calls, fp);
    TimesAppend(calls[..i], calls[i..], fp);
    TrackAppend(p, None, TimesOf(calls[..i], fp), TimesOf(calls[i..], fp));
    WindowStartsAreSpaced(p, Run(p, map[], calls[..i]).0[fp], TimesOf(calls[i..], fp));
  }

  lemma AppendAssoc(xs: seq<int>, ys: seq<int>, zs: seq<int>)
    ensures xs + (ys + zs) == xs + ys + zs
  {
  }

  lemma {:induction false} TimesAppend(xs: seq<Call>, ys: seq<Call>, fp: string)
    ensures TimesOf(xs + ys, fp) == TimesOf(xs, fp) + TimesOf(ys, fp)
  {
    if xs == [] {
      assert xs + ys == ys;
    } else {
      assert (xs + ys)[1..] == xs[1..] + ys;
      TimesAppend(xs[1..], ys, fp);
      AppendAssoc(if xs[0].fp == fp then [xs[0].t] else [], TimesOf(xs[1..], fp), TimesOf(ys, fp));
    }
  }

  /** A burst of readings that all lie before the end of the current window, stale ones
      included, is charged to that window and to nothing else. */
  lemma {:induction false} StaleReadingsAreCharged(p: Policy, w: Window, ts: seq<int>)
    requires p.Enabled() && Sound(p, w) && forall i :: 0 <= i < |ts| ==> ts[i] < w.start + p.window
    ensures var w' := Track(p, Some(w), ts).0;
            w'.Some? && w'.value.start == w.start
            && w'.value.count + w'.value.dropped == w.count + w.dropped + |ts|
            && w'.value.count == if w.count + |ts| <= p.burst then w.count + |ts| else p.burst
    ensures Drops(Track(p, Some(w), ts).1) == if w.count + |ts| <= p.burst then 0 else w.count + |ts| - p.burst
    decreases |ts|
  {
    if ts != [] {
      StaleReadingsAreCharged(p, Decide(p, Some(w), ts[0]).0, ts[1..]);
    }
  }

  // ---- conservation ----------------------------------------------------------

  lemma {:induction false} DropsAreConserved(p: Policy, w: Option<Window>, ts: seq<int>)
    ensures Carried(Track(p, w, ts).1) + Pending(Track(p, w, ts).0) == Pending(w) + Drops(Track(p, w, ts).1)
    decreases |ts|
  {
    if ts != [] {
      DropsAreConserved(p, Some(Decide(p, w, ts[0]).0), ts[1..]);
    }
  }

  /** For every fingerprint of every run, the drop counts announced so far plus the pending
      count of its bucket are exactly the reports dropped. */
  lemma DroppedReportsAreAccounted(p: Policy, calls: seq<Call>, fp: string)
    requires p.Enabled() && fp != ""
    ensures |DecisionsOf(calls, Run(p, map[], calls).1, fp)| == |TimesOf(calls, fp)|
    ensures var ds := DecisionsOf(calls, Run(p, map[], calls).1, fp);
            Carried(ds) + Pending(Lookup(Run(p, map[], calls).0, fp)) == Drops(ds)
  {
    FingerprintsAreIndependent(p, map[], calls, fp);
    DropsAreConserved(p, None, TimesOf(calls, fp));
  }
}
