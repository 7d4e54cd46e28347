/**
 Fan-out of one report to plain and rate-limited sinks (report.go over sample.go). Every sink
 is handed the same *Report, and none of them, limiters included, disturbs what the next one
 reads.
 */
module Delivery {
  import opened Common
  import opened Values
  import opened SamplerModel
  import opened Sampler

  // A registered sink. The same one may be registered more than once.
  datatype Sink = Plain(inner: InnerSink) | Sampled(limiter: SampledSink) {
    // Where a report that passes ends up.
    function Target(): InnerSink {
      if Plain? then inner else limiter.inner
    }
  }

  // ---- the sinks as values ---------------------------------------------------------------

  // The buckets of every limiter, and what every inner sink has received.
  datatype World = World(states: map<SampledSink, Buckets>, mail: map<InnerSink, seq<Receipt>>)

  ghost predicate Serves(w: World, k: Sink) {
    k.Target() in w.mail && (k.Sampled? ==> k.limiter in w.states)
  }

  // What sink k lets through of the report v in cell r at time t.
  ghost predicate LetThrough(w: World, k: Sink, r: ReportCell, v: Report, t: int, sent: Option<Receipt>)
    requires Serves(w, k)
  {
    if k.Plain? then sent == Some(Receipt(r, v))
    else IsSent(r, v, Step(k.limiter.policy, w.states[k.limiter], Call(v.head.fingerprint, t)).1, sent)
  }

  ghost function Stepped(w: World, k: Sink, c: Call, sent: Option<Receipt>): World
    requires Serves(w, k)
  {
    World(
      if k.Plain? then w.states
      else w.states[k.limiter := Step(k.limiter.policy, w.states[k.limiter], c).0],
      w.mail[k.Target() := w.mail[k.Target()] + Listed(sent)])
  }

  // Sink k was handed the report: from world w to world w'.
  ghost predicate Next(w: World, w': World, k: Sink, r: ReportCell, v: Report, t: int, sent: Option<Receipt>) {
    Serves(w, k) && LetThrough(w, k, r, v, t, sent) && w' == Stepped(w, k, Call(v.head.fingerprint, t), sent)
  }

  // ---- the sinks on the heap ---------------------------------------------------------------

  // Limiters are valid and share no bucket; all their buckets are in own.
  ghost predicate Ready(ls: set<SampledSink>, own: set<Bucket>)
    reads ls
  {
    (forall s :: s in ls ==> s.Valid() && s.buckets.Values <= own)
    && forall s, u :: s in ls && u in ls && s != u ==> s.buckets.Values !! u.buckets.Values
  }

  // The heap holds w.
  ghost predicate Holds(w: World, own: set<Bucket>)
    reads w.states.Keys, own, w.mail.Keys
  {
    Ready(w.states.Keys, own)
    && (forall s :: s in w.states ==> s.State() == w.states[s])
    && forall p :: p in w.mail ==> p.received == w.mail[p]
  }

  // The limiter's step, from the state m that it holds.
  method EmitLimited(s: SampledSink, r: ReportCell, t: int, ghost v: Report, ghost m: Buckets)
    returns (ghost sent: Option<Receipt>)
    requires r.Valid() && r.Value() == v && s.Valid() && s.State() == m
    modifies s`buckets, s.buckets.Values, s.inner
    ensures s.Valid() && fresh(s.buckets.Values - old(s.buckets.Values))
    ensures s.State() == Step(s.policy, m, Call(v.head.fingerprint, t)).0
    ensures s.inner.received == old(s.inner.received) + Listed(sent)
    ensures IsSent(r, v, Step(s.policy, m, Call(v.head.fingerprint, t)).1, sent)
  {
    sent := s.Emit(r, t);
  }

  method EmitPlain(p: InnerSink, r: ReportCell, t: int, ghost v: Report, ghost w: World, ghost own: set<Bucket>)
    returns (ghost sent: Option<Receipt>, ghost w': World)
    requires r.Valid() && r.Value() == v && Holds(w, own) && p in w.mail
    modifies p
    ensures Next(w, w', Plain(p), r, v, t, sent) && Holds(w', own)
  {
    p.Emit(r);
    sent := Some(Receipt(r, v));
    w' := Stepped(w, Plain(p), Call(v.head.fingerprint, t), sent);
  }

  twostate lemma StateStays(u: SampledSink)
    requires unchanged(u) && unchanged(u.buckets.Values)
    ensures u.State() == old(u.State())
  {
  }

  // The other limiters keep their state: they share no bucket with s.
  method EmitApart(s: SampledSink, r: ReportCell, t: int, ghost v: Report, ghost states: map<SampledSink, Buckets>,
                   ghost own: set<Bucket>)
    returns (ghost sent: Option<Receipt>)
    requires r.Valid() && r.Value() == v && Ready(states.Keys, own) && s in states
    requires forall u :: u in states ==> u.State() == states[u]
    modifies s`buckets, s.buckets.Values, s.inner
    ensures s.Valid() && fresh(s.buckets.Values - old(s.buckets.Values))
    ensures s.State() == Step(s.policy, states[s], Call(v.head.fingerprint, t)).0
    ensures forall u :: u in states && u != s ==> u.State() == states[u]
    ensures s.inner.received == old(s.inner.received) + Listed(sent)
    ensures IsSent(r, v, Step(s.policy, states[s], Call(v.head.fingerprint, t)).1, sent)
  {
    ghost var mine := s.buckets.Values;
    assert forall u :: u in states && u != s ==> u.buckets.Values !! mine;
    sent := EmitLimited(s, r, t, v, states[s]);
    forall u | u in states && u != s ensures u.State() == states[u] {
      StateStays(u);
    }
  }

  // And still no two limiters share a bucket.
  method EmitReady(s: SampledSink, r: ReportCell, t: int, ghost v: Report, ghost states: map<SampledSink, Buckets>,
                   ghost own: set<Bucket>)
    returns (ghost sent: Option<Receipt>, ghost own': set<Bucket>)
    requires r.Valid() && r.Value() == v && Ready(states.Keys, own) && s in states
    requires forall u :: u in states ==> u.State() == states[u]
    modifies s`buckets, s.buckets.Values, s.inner
    ensures own <= own' && fresh(own' - own) && Ready(states.Keys, own')
    ensures s.State() == Step(s.policy, states[s], Call(v.head.fingerprint, t)).0
    ensures forall u :: u in states && u != s ==> u.State() == states[u]
    ensures s.inner.received == old(s.inner.received) + Listed(sent)
    ensures IsSent(r, v, Step(s.policy, states[s], Call(v.head.fingerprint, t)).1, sent)
  {
    ghost var mine, others := s.buckets.Values, states.Keys - {s};
    assert Ready(others, own) && forall u :: u in others ==> u.buckets.Values !! mine;
    sent := EmitApart(s, r, t, v, states, own);
    ghost var more := s.buckets.Values - mine;
    own' := own + more;
    ReadyAgain(states.Keys, own, s, mine, more);
  }

  lemma ReadyAgain(ls: set<SampledSink>, own: set<Bucket>, s: SampledSink, mine: set<Bucket>, more: set<Bucket>)
    requires s in ls && s.Valid() && s.buckets.Values <= mine + more && mine <= own && more !! own
    requires Ready(ls - {s}, own) && forall u :: u in ls - {s} ==> u.buckets.Values !! mine
    ensures Ready(ls, own + more)
  {
    assert forall u :: u in ls ==> u == s || u in ls - {s};
  }

  method EmitAmong(s: SampledSink, r: ReportCell, t: int, ghost v: Report, ghost w: World, ghost own: set<Bucket>)
    returns (ghost sent: Option<Receipt>, ghost w': World, ghost own': set<Bucket>)
    requires r.Valid() && r.Value() == v && Holds(w, own) && s in w.states && s.inner in w.mail
    modifies s`buckets, s.buckets.Values, s.inner
    ensures own <= own' && fresh(own' - own)
    ensures Next(w, w', Sampled(s), r, v, t, sent) && Holds(w', own')
  {
    sent, own' := EmitReady(s, r, t, v, w.states, own);
    w' := Stepped(w, Sampled(s), Call(v.head.fingerprint, t), sent);
    assert w'.states.Keys == w.states.Keys;
  }

  // One sink is handed the report at time t.
  method EmitTo(k: Sink, r: ReportCell, t: int, ghost v: Report, ghost w: World, ghost own: set<Bucket>)
    returns (ghost sent: Option<Receipt>, ghost w': World, ghost own': set<Bucket>)
    requires r.Valid() && r.Value() == v && Holds(w, own) && Serves(w, k)
    modifies w.states.Keys`buckets, own, w.mail.Keys
    ensures own <= own' && fresh(own' - own)
    ensures Next(w, w', k, r, v, t, sent) && Holds(w', own')
    ensures w'.states.Keys == w.states.Keys && w'.mail.Keys == w.mail.Keys
  {
    own' := own;
    match k
    case Plain(p) => sent, w' := EmitPlain(p, r, t, v, w, own);
    case Sampled(s) => sent, w', own' := EmitAmong(s, r, t, v, w, own);
  }

  // Sink i leads from the i-th world to the next.
  ghost predicate LeadsAt(worlds: seq<World>, sinks: seq<Sink>, r: ReportCell, v: Report, ts: seq<int>,
                          log: seq<Option<Receipt>>, i: int)
    requires |worlds| == |log| + 1 && |log| <= |sinks| == |ts| && 0 <= i < |log|
  {
    Next(worlds[i], worlds[i + 1], sinks[i], r, v, ts[i], log[i])
  }

  // The worlds that the first |log| sinks lead through.
  ghost predicate Leads(worlds: seq<World>, sinks: seq<Sink>, r: ReportCell, v: Report, ts: seq<int>,
                        log: seq<Option<Receipt>>)
  {
    |worlds| == |log| + 1 && |log| <= |sinks| == |ts|
    && forall i :: 0 <= i < |log| ==> LeadsAt(worlds, sinks, r, v, ts, log, i)
  }

  lemma LeadsOn(worlds: seq<World>, sinks: seq<Sink>, r: ReportCell, v: Report, ts: seq<int>,
                log: seq<Option<Receipt>>, now: World, sent: Option<Receipt>)
    requires Leads(worlds, sinks, r, v, ts, log) && |log| < |sinks|
    requires Next(worlds[|log|], now, sinks[|log|], r, v, ts[|log|], sent)
    ensures Leads(worlds + [now], sinks, r, v, ts, log + [sent])
  {
    var ws, l := worlds + [now], log + [sent];
    forall i | 0 <= i < |l| ensures LeadsAt(ws, sinks, r, v, ts, l, i) {
      if i < |log| {
        assert LeadsAt(worlds, sinks, r, v, ts, log, i);
        assert ws[i] == worlds[i] && ws[i + 1] == worlds[i + 1] && l[i] == log[i];
      }
    }
  }

  // The turn of sink i.
  method EmitNext(sinks: seq<Sink>, r: ReportCell, ts: seq<int>, i: nat, ghost v: Report,
                  ghost log: seq<Option<Receipt>>, ghost worlds: seq<World>, ghost own: set<Bucket>)
    returns (ghost log': seq<Option<Receipt>>, ghost worlds': seq<World>, ghost own': set<Bucket>)
    requires r.Valid() && r.Value() == v && Leads(worlds, sinks, r, v, ts, log) && i == |log| < |sinks|
    requires Holds(worlds[i], own) && Serves(worlds[i], sinks[i])
    modifies worlds[i].states.Keys`buckets, own, worlds[i].mail.Keys
    ensures |log'| == i + 1 && Leads(worlds', sinks, r, v, ts, log') && worlds'[0] == worlds[0]
    ensures worlds'[i + 1].states.Keys == worlds[i].states.Keys && worlds'[i + 1].mail.Keys == worlds[i].mail.Keys
    ensures own <= own' && fresh(own' - own) && Holds(worlds'[i + 1], own')
  {
    ghost var sent, now;
    sent, now, own' := EmitTo(sinks[i], r, ts[i], v, worlds[i], own);
    LeadsOn(worlds, sinks, r, v, ts, log, now, sent);
    log', worlds' := log + [sent], worlds + [now];
  }

  /** Report's loop. Every plain sink, wherever it stands, reads the very report that was handed
      in; a limited one gets nothing, that report, or a copy with one more field, as its own state
      machine decides. Neither the report nor the array behind its fields is ever written. */
  method ReportAll(sinks: seq<Sink>, r: ReportCell, ts: seq<int>, ghost w: World, ghost own: set<Bucket>)
    returns (ghost log: seq<Option<Receipt>>, ghost worlds: seq<World>, ghost own': set<Bucket>)
    requires r.Valid() && |ts| == |sinks| && Holds(w, own)
    requires forall i :: 0 <= i < |sinks| ==> Serves(w, sinks[i])
    modifies w.states.Keys`buckets, own, w.mail.Keys
    ensures unchanged(r) && unchanged(r.fields.backing)
    ensures |log| == |sinks| && Leads(worlds, sinks, r, r.Value(), ts, log) && worlds[0] == w
    ensures fresh(own' - own) && Holds(worlds[|sinks|], own')
  {
    ghost var v := r.Value();
    log, worlds, own' := [], [w], own;
    for i := 0 to |sinks|
      invariant |log| == i && Leads(worlds, sinks, r, v, ts, log) && worlds[0] == w
      invariant worlds[i].states.Keys == w.states.Keys && worlds[i].mail.Keys == w.mail.Keys
      invariant fresh(own' - own) && Holds(worlds[i], own')
    {
      log, worlds, own' := EmitNext(sinks, r, ts, i, v, log, worlds, own');
    }
  }

  // ---- what that means for one sink --------------------------------------------------------

  // What the first n sinks sent to p, in order.
  ghost function SentTo(p: InnerSink, sinks: seq<Sink>, log: seq<Option<Receipt>>, n: nat): seq<Receipt>
    requires n <= |log| <= |sinks|
  {
    if n == 0 then []
    else SentTo(p, sinks, log, n - 1) + (if sinks[n - 1].Target() == p then Listed(log[n - 1]) else [])
  }

  /** An inner sink receives what is sent to it, once for each time it is registered, in order,
      whoever else is served in between. */
  lemma {:induction false} MailArrives(worlds: seq<World>, sinks: seq<Sink>, r: ReportCell, v: Report, ts: seq<int>,
                                       log: seq<Option<Receipt>>, p: InnerSink, n: nat)
    requires Leads(worlds, sinks, r, v, ts, log) && n <= |log| && p in worlds[0].mail
    ensures p in worlds[n].mail && worlds[n].mail[p] == worlds[0].mail[p] + SentTo(p, sinks, log, n)
  {
    if n > 0 {
      MailArrives(worlds, sinks, r, v, ts, log, p, n - 1);
      MailStep(worlds, sinks, r, v, ts, log, p, n - 1);
      AppendAssoc(worlds[0].mail[p], SentTo(p, sinks, log, n - 1),
                  if sinks[n - 1].Target() == p then Listed(log[n - 1]) else []);
    }
  }

  lemma MailStep(worlds: seq<World>, sinks: seq<Sink>, r: ReportCell, v: Report, ts: seq<int>,
                 log: seq<Option<Receipt>>, p: InnerSink, i: nat)
    requires Leads(worlds, sinks, r, v, ts, log) && i < |log| && p in worlds[i].mail
    ensures p in worlds[i + 1].mail
    ensures worlds[i + 1].mail[p]
         == worlds[i].mail[p] + (if sinks[i].Target() == p then Listed(log[i]) else [])
  {
    assert LeadsAt(worlds, sinks, r, v, ts, log, i);
  }

  lemma AppendAssoc<T>(a: seq<T>, b: seq<T>, c: seq<T>)
    ensures a + b + c == a + (b + c)
  {
  }

  // The calls that the first n sinks make on limiter s.
  ghost function CallsOn(s: SampledSink, sinks: seq<Sink>, fp: string, ts: seq<int>, n: nat): seq<Call>
    requires n <= |sinks| == |ts|
  {
    if n == 0 then []
    else CallsOn(s, sinks, fp, ts, n - 1) + (if sinks[n - 1] == Sampled(s) then [Call(fp, ts[n - 1])] else [])
  }

  lemma {:induction false} RunSnoc(p: Policy, m: Buckets, calls: seq<Call>, c: Call)
    ensures Run(p, m, calls + [c]).0 == Step(p, Run(p, m, calls).0, c).0
    decreases |calls|
  {
    if calls == [] {
      assert calls + [c] == [c];
    } else {
      assert (calls + [c])[1..] == calls[1..] + [c];
      RunSnoc(p, Step(p, m, calls[0]).0, calls[1..], c);
    }
  }

  lemma StateStep(worlds: seq<World>, sinks: seq<Sink>, r: ReportCell, v: Report, ts: seq<int>,
                  log: seq<Option<Receipt>>, s: SampledSink, i: nat)
    requires Leads(worlds, sinks, r, v, ts, log) && i < |log| && s in worlds[i].states
    ensures s in worlds[i + 1].states
    ensures worlds[i + 1].states[s]
         == if sinks[i] == Sampled(s) then Step(s.policy, worlds[i].states[s], Call(v.head.fingerprint, ts[i])).0
            else worlds[i].states[s]
  {
    assert LeadsAt(worlds, sinks, r, v, ts, log, i);
  }

  lemma RunMore(s: SampledSink, sinks: seq<Sink>, fp: string, ts: seq<int>, n: nat, m: Buckets)
    requires n < |sinks| == |ts|
    ensures var m' := Run(s.policy, m, CallsOn(s, sinks, fp, ts, n)).0;
            Run(s.policy, m, CallsOn(s, sinks, fp, ts, n + 1)).0
            == if sinks[n] == Sampled(s) then Step(s.policy, m', Call(fp, ts[n])).0 else m'
  {
    var calls := CallsOn(s, sinks, fp, ts, n);
    RunSnoc(s.policy, m, calls, Call(fp, ts[n]));
    assert calls + [] == calls;
  }

  /** Each limiter runs on its own: where it stands, and so what it decides next, is the run of
      the calls that were meant for it. */
  lemma {:induction false} LimitersRunAlone(worlds: seq<World>, sinks: seq<Sink>, r: ReportCell, v: Report,
                                            ts: seq<int>, log: seq<Option<Receipt>>, s: SampledSink, n: nat)
    requires Leads(worlds, sinks, r, v, ts, log) && n <= |log| && s in worlds[0].states
    ensures s in worlds[n].states
    ensures worlds[n].states[s]
         == Run(s.policy, worlds[0].states[s], CallsOn(s, sinks, v.head.fingerprint, ts, n)).0
  {
    if n > 0 {
      LimitersRunAlone(worlds, sinks, r, v, ts, log, s, n - 1);
      StateStep(worlds, sinks, r, v, ts, log, s, n - 1);
      RunMore(s, sinks, v.head.fingerprint, ts, n - 1, worlds[0].states[s]);
    }
  }

  /** A sink that only reads gets exactly the report that was handed to the first one: its last
      receipt so far is that cell, and what it read there is the original report. */
  lemma PlainSinkReadsOriginal(worlds: seq<World>, sinks: seq<Sink>, r: ReportCell, v: Report, ts: seq<int>,
                               log: seq<Option<Receipt>>, i: nat)
    requires Leads(worlds, sinks, r, v, ts, log) && i < |log| && sinks[i].Plain?
    ensures sinks[i].inner in worlds[i].mail && sinks[i].inner in worlds[i + 1].mail
    ensures worlds[i + 1].mail[sinks[i].inner] == worlds[i].mail[sinks[i].inner] + [Receipt(r, v)]
  {
    assert LeadsAt(worlds, sinks, r, v, ts, log, i);
    MailStep(worlds, sinks, r, v, ts, log, sinks[i].inner, i);
  }
}
