/**
 What a flush emits, field by field, told of the records behind it and of the
 samples they bring.
 */
module FlushReports {
  import opened Prelude
  import opened Summaries
  import opened Aggregator
  import opened AggregatorHistory

  /** Counted in some of the records. */
  predicate Occurs(mode: Mode, rs: seq<Record>, c: Counter) { Sum(mode, rs, c) > 0 }

  ghost predicate Summarises(rs: seq<Record>, a: Aggregate) {
    && SummaryOf(ConnectTimes(rs), a.connect)
    && SummaryOf(HandshakeTimes(rs), a.tls)
    && SummaryOf(RoundTrips(rs), a.rtt)
  }

  /** The counts, and entries just for what was counted. */
  ghost predicate CountsUp(mode: Mode, rs: seq<Record>, a: Aggregate) {
    && (forall c :: Read(a, c) == Sum(mode, rs, c))
    && (forall cause :: cause in a.failures <==> Occurs(mode, rs, Failures(cause)))
    && (forall phase :: phase in a.resets <==> Occurs(mode, rs, Resets(phase)))
    && (forall variant :: variant in a.sni <==> Occurs(mode, rs, SniSamples(variant)))
  }

  /** a is what has to be reported on k for the minute. */
  ghost predicate Portrays(h: History, minute: int, k: Key, a: Aggregate) {
    var rs := Unreported(h, k);
    && a.minute == minute && a.key == k
    && Summarises(rs, a) && CountsUp(k.mode, rs, a)
    && a.tcp == LastTcp(rs) && a.cert == LastCert(rs)
    && (a.idle.Some? <==> k.mode == Idle)
    && (a.idle.Some? ==> a.idle.value.survived == SurvivedAt(h, k.target) && a.idle.value.died == LastDeath(rs))
  }

  lemma {:induction false} EmitSummarises(mode: Mode, rs: seq<Record>, minute: int, k: Key, survived: int)
    ensures Summarises(rs, Emit(Recount(mode, rs), minute, k, survived))
  {
    SummaryDescribes(ConnectTimes(rs));
    SummaryDescribes(HandshakeTimes(rs));
    SummaryDescribes(RoundTrips(rs));
  }

  lemma {:induction false} EmitCountsUp(mode: Mode, rs: seq<Record>, minute: int, k: Key, survived: int)
    ensures CountsUp(mode, rs, Emit(Recount(mode, rs), minute, k, survived))
  {
    forall c
      ensures Read(Emit(Recount(mode, rs), minute, k, survived), c) == Sum(mode, rs, c)
    {
      ReadRecount(mode, rs, minute, k, survived, c);
    }
    EntriesOccur(mode, rs);
  }

  lemma {:induction false} EntriesOccur(mode: Mode, rs: seq<Record>)
    ensures forall cause :: cause in FailureCounts(mode, rs) <==> Occurs(mode, rs, Failures(cause))
    ensures forall phase :: phase in ResetCounts(mode, rs) <==> Occurs(mode, rs, Resets(phase))
    ensures forall variant :: variant in SniCounts(mode, rs) <==> Occurs(mode, rs, SniSamples(variant))
  {
  }

  lemma {:induction false} ReportPortrays(h: History, minute: int, k: Key)
    ensures Portrays(h, minute, k, ReportOf(h, minute, k, false))
  {
    EmitSummarises(k.mode, Unreported(h, k), minute, k, SurvivedAt(h, k.target));
    EmitCountsUp(k.mode, Unreported(h, k), minute, k, SurvivedAt(h, k.target));
  }

  /** The i-th aggregate is a, and the first one on k. */
  ghost predicate FirstOn(k: Key, out: seq<Aggregate>, i: nat, a: Aggregate) {
    i < |out| && out[i] == a && forall j :: 0 <= j < i ==> out[j].key != k
  }

  lemma {:induction false} FirstAfter(k: Key, before: seq<Aggregate>, more: seq<Aggregate>, n: nat, a: Aggregate)
    requires forall j :: 0 <= j < |before| ==> before[j].key != k
    requires FirstOn(k, more, n, a)
    ensures FirstOn(k, before + more, |before| + n, a)
  {
    assert forall j :: |before| <= j < |before| + n ==> (before + more)[j] == more[j - |before|];
    assert (before + more)[|before| + n] == more[n];
  }

  lemma {:induction false} FirstStays(k: Key, before: seq<Aggregate>, more: seq<Aggregate>, n: nat, a: Aggregate)
    requires FirstOn(k, before, n, a)
    ensures FirstOn(k, before + more, n, a)
  {
  }

  lemma {:induction false} ModesReport(h: History, minute: int, t: Target, modes: seq<Mode>, m: Mode)
    returns (i: nat)
    requires m in modes
    ensures FirstOn(Key(t, m), ReportModes(h, minute, t, modes), i, ReportOf(h, minute, Key(t, m), false))
  {
    var init, last := modes[..|modes| - 1], modes[|modes| - 1];
    assert modes == init + [last];
    var before := ReportModes(h, minute, t, init);
    var one := [ReportOf(h, minute, Key(t, last), last in init)];
    if m in init {
      i := ModesReport(h, minute, t, init, m);
      FirstStays(Key(t, m), before, one, i, ReportOf(h, minute, Key(t, m), false));
    } else {
      i := |before|;
      ModesOnly(h, minute, t, init);
      FirstAfter(Key(t, m), before, one, 0, one[0]);
    }
  }

  lemma {:induction false} ModesOnly(h: History, minute: int, t: Target, modes: seq<Mode>)
    ensures forall j :: 0 <= j < |ReportModes(h, minute, t, modes)| ==>
              var a := ReportModes(h, minute, t, modes)[j];
              a.minute == minute && a.key.target == t && a.key.mode in modes
  {
    if modes != [] {
      var init := modes[..|modes| - 1];
      assert modes == init + [modes[|modes| - 1]];
      ModesOnly(h, minute, t, init);
    }
  }

  lemma {:induction false} TargetsOnly(h: History, minute: int, ts: seq<Target>)
    ensures forall j :: 0 <= j < |Report(h, minute, ts)| ==>
              var a := Report(h, minute, ts)[j];
              a.minute == minute && a.key.target in ts && a.key.mode in ModesAt(h, a.key.target)
  {
    if ts != [] {
      var init, t := ts[..|ts| - 1], ts[|ts| - 1];
      assert ts == init + [t];
      TargetsOnly(h, minute, init);
      ModesOnly(h, minute, t, ModesAt(h, t));
    }
  }

  lemma {:induction false} NotYet(h: History, minute: int, ts: seq<Target>, k: Key)
    requires k.target !in ts
    ensures forall j :: 0 <= j < |Report(h, minute, ts)| ==> Report(h, minute, ts)[j].key != k
  {
    TargetsOnly(h, minute, ts);
  }

  lemma {:induction false} ReportOneMoreTarget(h: History, minute: int, init: seq<Target>, t: Target)
    ensures Report(h, minute, init + [t]) == Report(h, minute, init) + ReportModes(h, minute, t, ModesAt(h, t))
  {
    assert (init + [t])[..|init|] == init;
  }

  lemma Regroup(a: seq<Aggregate>, b: seq<Aggregate>, c: seq<Aggregate>)
    ensures a + b + c == a + (b + c)
  {
  }

  lemma {:induction false} ReportJoin(h: History, minute: int, a: seq<Target>, b: seq<Target>)
    ensures Report(h, minute, a + b) == Report(h, minute, a) + Report(h, minute, b)
  {
    if b == [] {
      assert a + b == a;
      NothingMore(Report(h, minute, a));
    } else {
      var init, t := b[..|b| - 1], b[|b| - 1];
      assert a + b == (a + init) + [t] && b == init + [t];
      ReportJoin(h, minute, a, init);
      ReportOneMoreTarget(h, minute, a + init, t);
      ReportOneMoreTarget(h, minute, init, t);
      Regroup(Report(h, minute, a), Report(h, minute, init), ReportModes(h, minute, t, ModesAt(h, t)));
    }
  }

  lemma NothingMore(a: seq<Aggregate>)
    ensures a + [] == a
  {
  }

  lemma {:induction false} FirstPlace(ts: seq<Target>, t: Target) returns (p: nat)
    requires t in ts
    ensures p < |ts| && ts[p] == t && t !in ts[..p]
  {
    var init := ts[..|ts| - 1];
    assert ts == init + [ts[|ts| - 1]];
    if t in init {
      p := FirstPlace(init, t);
      assert ts[..p] == init[..p];
    } else {
      p := |init|;
    }
  }

  lemma {:induction false} TargetsReport(h: History, minute: int, ts: seq<Target>, k: Key) returns (i: nat)
    requires k.target in ts && k.mode in ModesAt(h, k.target)
    ensures FirstOn(k, Report(h, minute, ts), i, ReportOf(h, minute, k, false))
  {
    var p := FirstPlace(ts, k.target);
    var n := ModesReport(h, minute, k.target, ModesAt(h, k.target), k.mode);
    NotYet(h, minute, ts[..p], k);
    ReportSplit(h, minute, ts, p);
    i := PlaceFirst(k, Report(h, minute, ts[..p]), ReportModes(h, minute, k.target, ModesAt(h, k.target)),
                    Report(h, minute, ts[p + 1..]), n, ReportOf(h, minute, k, false));
  }

  lemma {:induction false} ReportSplit(h: History, minute: int, ts: seq<Target>, p: nat)
    requires p < |ts|
    ensures Report(h, minute, ts) ==
            Report(h, minute, ts[..p]) + ReportModes(h, minute, ts[p], ModesAt(h, ts[p])) + Report(h, minute, ts[p + 1..])
  {
    assert ts == (ts[..p] + [ts[p]]) + ts[p + 1..];
    ReportJoin(h, minute, ts[..p] + [ts[p]], ts[p + 1..]);
    ReportOneMoreTarget(h, minute, ts[..p], ts[p]);
  }

  lemma {:induction false} PlaceFirst(k: Key, before: seq<Aggregate>, more: seq<Aggregate>, after: seq<Aggregate>,
                                      n: nat, a: Aggregate)
    returns (i: nat)
    requires forall j :: 0 <= j < |before| ==> before[j].key != k
    requires FirstOn(k, more, n, a)
    ensures FirstOn(k, before + more + after, i, a)
  {
    i := |before| + n;
    FirstAfter(k, before, more, n, a);
    FirstStays(k, before + more, after, i, a);
  }

  /**
   After any history, a flush emits on every reported key an aggregate with the
   flush's minute, the summaries of exactly the connect times, handshake times
   and round trips recorded since the last report, their counts, the last
   readings, and for the idle mode and no other the survival.
   */
  lemma FlushPortrays(h: History, minute: int, k: Key) returns (out: seq<Aggregate>, i: nat)
    requires Reported(h, k)
    ensures Outputs(Then(h, Flush(minute))) == Outputs(h) + out
    ensures i < |out| && Portrays(h, minute, k, out[i])
    ensures forall j :: 0 <= j < i ==> out[j].key != k
  {
    FlushReportsHistory(h, minute);
    out := Report(h, minute, InOrder(h));
    OrderAgrees(h);
    TargetAgrees(h, k.target);
    i := TargetsReport(h, minute, InOrder(h), k);
    ReportPortrays(h, minute, k);
  }

  /** It emits on nothing else, and for no other minute. */
  lemma FlushEmitsReported(h: History, minute: int, j: nat)
    requires |Outputs(h)| <= j < |Outputs(Then(h, Flush(minute)))|
    ensures var a := Outputs(Then(h, Flush(minute)))[j];
            a.minute == minute && Reported(h, a.key)
  {
    FlushReportsHistory(h, minute);
    var out := Report(h, minute, InOrder(h));
    TargetsOnly(h, minute, InOrder(h));
    var a := out[j - |Outputs(h)|];
    OrderAgrees(h);
    TargetAgrees(h, a.key.target);
  }

  /** A key has one portrait: no two sets of numbers are right. */
  lemma OnePortrait(h: History, minute: int, k: Key, a: Aggregate, b: Aggregate)
    requires Portrays(h, minute, k, a) && Portrays(h, minute, k, b)
    ensures a.connect == b.connect && a.tls == b.tls && a.rtt == b.rtt
    ensures a.samples == b.samples && a.losses == b.losses
    ensures a.drops == b.drops && a.serverClosed == b.serverClosed
    ensures a.tcp == b.tcp && a.cert == b.cert && a.idle == b.idle
  {
    var rs := Unreported(h, k);
    OneSummary(ConnectTimes(rs), a.connect, b.connect);
    OneSummary(HandshakeTimes(rs), a.tls, b.tls);
    OneSummary(RoundTrips(rs), a.rtt, b.rtt);
    assert a.samples == Read(a, Samples) && b.samples == Read(b, Samples);
    assert a.losses == Read(a, Losses) && b.losses == Read(b, Losses);
    assert a.drops == Read(a, Drops) && b.drops == Read(b, Drops);
    assert a.serverClosed == Read(a, ServerCloses) && b.serverClosed == Read(b, ServerCloses);
  }

  lemma OneSummary(samples: seq<real>, a: Option<Stats>, b: Option<Stats>)
    requires SummaryOf(samples, a) && SummaryOf(samples, b)
    ensures a == b
  {
    if a.Some? {
      OneDescription(samples, a.value, b.value);
    }
  }
}
