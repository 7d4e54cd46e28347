/** The sink of sample.go: a map of bucket objects updated in place, and the report it forwards. */
module Sampler {
  import opened Common
  import opened Values
  import opened SamplerModel
  import opened SamplerProofs

  class Bucket {
    var windowStart: int
    var count: int
    var dropped: int

    constructor (t: int)
      ensures Value() == Window(t, 1, 0)
    {
      windowStart, count, dropped := t, 1, 0;
    }

    function Value(): Window
      reads this
    {
      Window(windowStart, count, dropped)
    }
  }

  // A Go slice of fields: a view of the first len elements of an array it may share.
  datatype Slice = Slice(backing: array<Field>, len: nat) {
    predicate Valid() {
      len <= backing.Length
    }

    function Contents(): seq<Field>
      requires Valid()
      reads backing
    {
      backing[..len]
    }
  }

  // append: into the spare room of the array if it suffices, else into a longer copy, whose
  // spare room may be anything.
  method Append(s: Slice, xs: seq<Field>) returns (r: Slice)
    requires s.Valid()
    modifies s.backing
    ensures r.Valid() && r.Contents() == old(s.Contents()) + xs
    ensures r.backing == s.backing <==> s.len + |xs| <= s.backing.Length
    ensures r.backing == s.backing || (fresh(r.backing) && unchanged(s.backing))
  {
    var n := s.len + |xs|;
    if n <= s.backing.Length {
      Store(s.backing, s.len, xs);
      return Slice(s.backing, n);
    }
    var room :| room >= 0;
    var grown := new Field[n + room];
    Store(grown, 0, s.backing[..s.len]);
    Store(grown, s.len, xs);
    r := Slice(grown, n);
  }

  method Store(a: array<Field>, at: nat, xs: seq<Field>)
    requires at + |xs| <= a.Length
    modifies a
    ensures a[..at] == old(a[..at]) && a[at..at + |xs|] == xs
    ensures a[at + |xs|..] == old(a[at + |xs|..])
  {
    forall i | 0 <= i < |xs| {
      a[at + i] := xs[i];
    }
  }

  // What a *Report points to: the fields sit in an array that copies of the struct share.
  class ReportCell {
    var head: Heading
    var fields: Slice
    var trail: Trail

    predicate Valid()
      reads this
    {
      fields.Valid()
    }

    function Value(): Report
      requires Valid()
      reads this, fields.backing
    {
      Report(head, fields.Contents(), trail)
    }

    constructor (head: Heading, fields: Slice, trail: Trail)
      requires fields.Valid()
      ensures Valid() && this.head == head && this.fields == fields && this.trail == trail
    {
      this.head, this.fields, this.trail := head, fields, trail;
    }
  }

  // What a sink was handed, and what it read there.
  datatype Receipt = Receipt(cell: ReportCell, report: Report)

  // The wrapped sink, seen through the reports it was given.
  class InnerSink {
    var received: seq<Receipt>

    constructor ()
      ensures received == []
    {
      received := [];
    }

    method Emit(r: ReportCell)
      requires r.Valid()
      modifies this
      ensures received == old(received) + [Receipt(r, r.Value())]
    {
      received := received + [Receipt(r, r.Value())];
    }
  }

  // The report as it is forwarded: announced drops ride in one extra safe field.
  function Announcing(r: Report, dropped: int): Report {
    r.(fields := r.fields + [Field("errx.sampled_dropped", Number(dropped), true)])
  }

  function Listed<T>(x: Option<T>): seq<T> {
    if x.Some? then [x.value] else []
  }

  // What reaches the inner sink.
  function Outgoing(r: Report, d: Decision): Option<Report> {
    if !d.forward then None else if d.carried > 0 then Some(Announcing(r, d.carried)) else Some(r)
  }

  // What reaches the inner sink after decision d on cell r with report v: nothing, that cell, or
  // another one whose report is v with one more field that carries the drops.
  ghost predicate IsSent(r: ReportCell, v: Report, d: Decision, sent: Option<Receipt>) {
    (sent.Some? <==> d.forward)
    && (sent.Some? ==>
          var out := sent.value.report;
          out.head == v.head && out.trail == v.trail && v.fields <= out.fields
          && (sent.value.cell == r <==> d.carried <= 0)
          && if d.carried > 0 then IsDropField(out.fields[|v.fields|..], d.carried) else out.fields == v.fields)
  }

  ghost predicate IsDropField(added: seq<Field>, dropped: int) {
    |added| == 1 && added[0].key == "errx.sampled_dropped" && added[0].value == Number(dropped) && added[0].safe
  }

  // The drops an outgoing report announces, read off its fields.
  function Announced(r: Report, out: Option<Report>): int {
    if out.None? || |out.value.fields| <= |r.fields| then 0
    else
      var f := out.value.fields[|r.fields|];
      if f.key == "errx.sampled_dropped" && f.value.Number? then f.value.n else 0
  }

  class SampledSink {
    const policy: Policy
    const inner: InnerSink
    var buckets: map<string, Bucket>

    // No two fingerprints share a bucket.
    ghost predicate Valid()
      reads this
    {
      forall a, b :: a in buckets && b in buckets && a != b ==> buckets[a] != buckets[b]
    }

    ghost function State(): Buckets
      reads this, buckets.Values
    {
      map fp | fp in buckets :: buckets[fp].Value()
    }

    constructor (inner: InnerSink, p: Policy)
      ensures Valid() && policy == p && this.inner == inner && State() == map[]
    {
      policy, this.inner, buckets := p, inner, map[];
    }

    // t is what the clock read before the lock was taken.
    method Allow(fp: string, t: int) returns (ok: bool, dropped: int)
      requires Valid()
      modifies this`buckets, buckets.Values
      ensures Valid() && fresh(buckets.Values - old(buckets.Values))
      ensures (State(), Decision(ok, dropped)) == Step(policy, old(State()), Call(fp, t))
      ensures policy.burst <= 0 || policy.window <= 0 || fp == "" ==> State() == old(State()) && ok && dropped == 0
      ensures policy.burst > 0 && policy.window > 0 && fp != "" ==>
        var m := old(State());
        if fp !in m then State() == m[fp := Window(t, 1, 0)] && ok && dropped == 0
        else
          var w := m[fp];
          if t - w.start >= policy.window then State() == m[fp := Window(t, 1, 0)] && ok && dropped == w.dropped
          else if w.count < policy.burst then
            State() == m[fp := Window(w.start, w.count + 1, w.dropped)] && ok && dropped == 0
          else State() == m[fp := Window(w.start, w.count, w.dropped + 1)] && !ok && dropped == 0
    {
      if policy.burst <= 0 || policy.window <= 0 || fp == "" {
        return true, 0;
      }
      if fp !in buckets || t - buckets[fp].windowStart >= policy.window {
        var prevDropped := 0;
        if fp in buckets {
          prevDropped := buckets[fp].dropped;
        }
        Open(fp, t);
        return true, prevDropped;
      }
      ok := Charge(fp);
      dropped := 0;
    }

    // A new window, in a new bucket.
    method Open(fp: string, t: int)
      requires Valid()
      modifies this`buckets
      ensures Valid() && fresh(buckets.Values - old(buckets.Values))
      ensures State() == old(State())[fp := Window(t, 1, 0)]
    {
      var b := new Bucket(t);
      buckets := buckets[fp := b];
    }

    // One more report in an open window: counted if there is room, else dropped.
    method Charge(fp: string) returns (ok: bool)
      requires Valid() && fp in buckets
      modifies buckets[fp]
      ensures Valid() && ok == (old(buckets[fp].count) < policy.burst)
      ensures State() == old(State())[fp := if ok then old(buckets[fp].Value()).(count := old(buckets[fp].count) + 1)
                                             else old(buckets[fp].Value()).(dropped := old(buckets[fp].dropped) + 1)]
    {
      var b := buckets[fp];
      if b.count < policy.burst {
        b.count := b.count + 1;
        return true;
      }
      b.dropped := b.dropped + 1;
      return false;
    }

    // The inner sink gets nothing, the caller's very report, or a copy in an array of its own
    // that says how many were dropped. The caller's report and the whole array behind its
    // fields, spare room included, are not written.
    method Emit(r: ReportCell, t: int) returns (ghost sent: Option<Receipt>)
      requires Valid() && r.Valid()
      modifies this`buckets, buckets.Values, inner
      ensures Valid() && fresh(buckets.Values - old(buckets.Values))
      ensures unchanged(r) && unchanged(r.fields.backing)
      ensures State() == Step(policy, old(State()), Call(r.head.fingerprint, t)).0
      ensures IsSent(r, r.Value(), Step(policy, old(State()), Call(r.head.fingerprint, t)).1, sent)
      ensures var d := Step(policy, old(State()), Call(r.head.fingerprint, t)).1;
              (sent.Some? <==> d.forward)
              && (sent.Some? ==>
                    var out, v := sent.value.report, r.Value();
                    out.head == v.head && out.trail == v.trail && v.fields <= out.fields
                    && |out.fields| == |v.fields| + if d.carried > 0 then 1 else 0)
      ensures var d := Step(policy, old(State()), Call(r.head.fingerprint, t)).1;
              sent.Some? && d.carried > 0 ==>
                sent.value.report.fields[|r.Value().fields|]
                == Field("errx.sampled_dropped", Number(d.carried), true)
      ensures inner.received == old(inner.received) + Listed(sent)
      ensures sent.Some? && sent.value.cell != r ==>
        fresh(sent.value.cell) && fresh(sent.value.cell.fields.backing)
    {
      var ok, dropped := Allow(r.head.fingerprint, t);
      sent := Forward(r, ok, dropped);
    }

    // What follows the decision.
    method Forward(r: ReportCell, ok: bool, dropped: int) returns (ghost sent: Option<Receipt>)
      requires r.Valid()
      modifies inner
      ensures inner.received == old(inner.received) + Listed(sent)
      ensures IsSent(r, r.Value(), Decision(ok, dropped), sent)
      ensures sent.Some? && sent.value.cell != r ==>
        fresh(sent.value.cell) && fresh(sent.value.cell.fields.backing)
    {
      if !ok {
        return None;
      }
      var cp := r;
      if dropped > 0 {
        cp := WithDropped(r, dropped);
      }
      inner.Emit(cp);
      sent := Some(Receipt(cp, cp.Value()));
    }
  }

  // A copy of the struct whose fields are copied out of the shared array before the new one is
  // appended.
  method WithDropped(r: ReportCell, dropped: int) returns (cp: ReportCell)
    requires r.Valid()
    ensures cp.Valid() && fresh(cp) && fresh(cp.fields.backing)
    ensures cp.Value() == Announcing(r.Value(), dropped)
  {
    var none := new Field[0];
    var copied := Append(Slice(none, 0), r.fields.backing[..r.fields.len]);
    var extended := Append(copied, [Field("errx.sampled_dropped", Number(dropped), true)]);
    cp := new ReportCell(r.head, extended, r.trail);
  }

  // The calls that emitting reports makes.
  function CallsOf(reports: seq<Report>, ts: seq<int>): (calls: seq<Call>)
    requires |reports| == |ts|
    ensures |calls| == |reports|
  {
    if reports == [] then [] else [Call(reports[0].head.fingerprint, ts[0])] + CallsOf(reports[1..], ts[1..])
  }

  /** The reports of `Outgoing` are those that are sent. */
  lemma OutgoingIsSent(r: ReportCell, v: Report, d: Decision, sent: Option<Receipt>)
    requires IsSent(r, v, d, sent)
    ensures Outgoing(v, d) == if sent.Some? then Some(sent.value.report) else None
  {
    if sent.Some? {
      var out := sent.value.report;
      assert out.fields == v.fields + out.fields[|v.fields|..];
      if d.carried > 0 {
        assert out.fields[|v.fields|..] == [Field("errx.sampled_dropped", Number(d.carried), true)];
      }
    }
  }

  // All drops announced to the inner sink for one fingerprint.
  function TotalAnnounced(reports: seq<Report>, ds: seq<Decision>, fp: string): int
    requires |reports| == |ds|
  {
    if reports == [] then 0
    else
      (if reports[0].head.fingerprint == fp then Announced(reports[0], Outgoing(reports[0], ds[0])) else 0)
      + TotalAnnounced(reports[1..], ds[1..], fp)
  }

  // What the decisions carry is what the reports announce.
  lemma {:induction false} AnnouncedIsCarried(reports: seq<Report>, ts: seq<int>, ds: seq<Decision>, fp: string)
    requires |reports| == |ts| == |ds|
    requires forall i :: 0 <= i < |ds| ==> ds[i].carried >= 0 && (ds[i].carried > 0 ==> ds[i].forward)
    ensures TotalAnnounced(reports, ds, fp) == Carried(DecisionsOf(CallsOf(reports, ts), ds, fp))
  {
    if reports != [] {
      AnnouncedIsCarried(reports[1..], ts[1..], ds[1..], fp);
      var calls := CallsOf(reports, ts);
      assert calls[1..] == CallsOf(reports[1..], ts[1..]);
      var rest := DecisionsOf(calls[1..], ds[1..], fp);
      if calls[0].fp == fp {
        assert DecisionsOf(calls, ds, fp)[1..] == rest;
      } else {
        assert DecisionsOf(calls, ds, fp) == rest;
      }
    }
  }

  lemma {:induction false} CarriedIsNonNegative(p: Policy, m: Buckets, calls: seq<Call>)
    requires forall k :: k in m ==> m[k].dropped >= 0
    ensures forall i :: 0 <= i < |calls| ==>
      var d := Run(p, m, calls).1[i]; d.carried >= 0 && (d.carried > 0 ==> d.forward)
    decreases |calls|
  {
    if calls != [] {
      var (m', d) := Step(p, m, calls[0]);
      CarriedIsNonNegative(p, m', calls[1..]);
      var ds, rest := Run(p, m, calls).1, Run(p, m', calls[1..]).1;
      assert ds == [d] + rest;
    }
  }

  /** Suppression is visible: in every run of Emit calls, the drop counts that reached the inner
      sink for a fingerprint, plus those still waiting in its bucket, are exactly the reports of
      that fingerprint that were dropped. */
  lemma AnnouncedDropsAreExact(p: Policy, reports: seq<Report>, ts: seq<int>, fp: string)
    requires p.Enabled() && fp != "" && |reports| == |ts|
    ensures var calls := CallsOf(reports, ts);
            var (m, ds) := Run(p, map[], calls);
            TotalAnnounced(reports, ds, fp) + Pending(Lookup(m, fp)) == Drops(DecisionsOf(calls, ds, fp))
  {
    var calls := CallsOf(reports, ts);
    CarriedIsNonNegative(p, map[], calls);
    AnnouncedIsCarried(reports, ts, Run(p, map[], calls).1, fp);
    DroppedReportsAreAccounted(p, calls, fp);
  }
}
