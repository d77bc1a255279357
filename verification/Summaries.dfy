/** One minute of latency samples reduced to min, percentiles, max and jitter. */
module Summaries {
  import opened Prelude

  /** All fields in milliseconds. */
  datatype Stats = Stats(min: real, p50: real, p95: real, p99: real, max: real, jitter: real)

  function Abs(x: real): real { if x < 0.0 then -x else x }

  /** A duration in milliseconds. */
  function Ms(d: int): real { d as real / MILLISECOND as real }

  lemma MsIs(d: int)
    ensures Ms(d) == d as real / 1_000_000.0
  {
  }

  // ----- rounding to microseconds, halves away from zero

  function Round(v: real): real {
    if v >= 0.0 then (v * 1000.0 + 0.5).Floor as real / 1000.0
    else -((-v * 1000.0 + 0.5).Floor as real / 1000.0)
  }

  lemma RoundKeepsOrder(a: real, b: real)
    requires a <= b
    ensures Round(a) <= Round(b)
  {
    if 0.0 <= a {
      FloorKeepsOrder(a * 1000.0 + 0.5, b * 1000.0 + 0.5);
    } else if b < 0.0 {
      FloorKeepsOrder(-b * 1000.0 + 0.5, -a * 1000.0 + 0.5);
    }
  }

  lemma FloorKeepsOrder(x: real, y: real)
    requires x <= y
    ensures x.Floor <= y.Floor
  {
  }

  predicate IsWhole(x: real) { x == x.Floor as real }

  /** The nearest whole number of thousandths. */
  lemma RoundIsNearest(v: real)
    ensures Abs(Round(v) - v) <= 0.0005
    ensures IsWhole(Round(v) * 1000.0)
  {
    var scaled := if v >= 0.0 then v * 1000.0 + 0.5 else -v * 1000.0 + 0.5;
    assert scaled - 1.0 < scaled.Floor as real <= scaled;
    var whole := if v >= 0.0 then scaled.Floor else -scaled.Floor;
    assert Round(v) * 1000.0 == whole as real;
  }

  /** Halves are rounded away from zero. */
  lemma HalvesLeaveZero(v: real)
    ensures v >= 0.0 ==> v - Round(v) < 0.0005
    ensures v < 0.0 ==> Round(v) - v < 0.0005
  {
    var scaled := if v >= 0.0 then v * 1000.0 + 0.5 else -v * 1000.0 + 0.5;
    assert scaled - 1.0 < scaled.Floor as real;
  }

  // ----- sorting

  predicate Below(x: real, s: seq<real>) {
    forall i :: 0 <= i < |s| ==> x <= s[i]
  }

  predicate Ascending(s: seq<real>) {
    s == [] || (Below(s[0], s[1..]) && Ascending(s[1..]))
  }

  lemma {:induction false} AscendingAt(s: seq<real>, i: nat, j: nat)
    requires Ascending(s) && i <= j < |s|
    ensures s[i] <= s[j]
  {
    if 0 < i {
      AscendingAt(s[1..], i - 1, j - 1);
    } else if 0 < j {
      assert s[j] == s[1..][j - 1];
    }
  }

  function Insert(x: real, s: seq<real>): (r: seq<real>)
    requires Ascending(s)
    ensures Ascending(r)
    ensures forall i :: 0 <= i < |r| ==> r[i] == x || r[i] in s
    ensures multiset(r) == multiset(s) + multiset{x}
  {
    if s == [] then [x]
    else if x <= s[0] then
      assert ([x] + s)[1..] == s;
      [x] + s
    else
      assert s == [s[0]] + s[1..];
      var r := [s[0]] + Insert(x, s[1..]);
      assert r[1..] == Insert(x, s[1..]);
      r
  }

  function Sort(s: seq<real>): (r: seq<real>)
    ensures Ascending(r)
    ensures multiset(r) == multiset(s)
    ensures |r| == |s|
  {
    if s == [] then []
    else
      assert s == [s[0]] + s[1..];
      var r := Insert(s[0], Sort(s[1..]));
      assert |multiset(r)| == |r| && |multiset(s)| == |s|;
      r
  }

  lemma {:induction false} SortedIsUnique(a: seq<real>, b: seq<real>)
    requires Ascending(a) && Ascending(b) && multiset(a) == multiset(b)
    ensures a == b
  {
    assert |multiset(a)| == |a| && |multiset(b)| == |b|;
    if a != [] {
      FirstIsLeast(a, b);
      FirstIsLeast(b, a);
      DropFirst(a);
      DropFirst(b);
      SortedIsUnique(a[1..], b[1..]);
      assert a == [a[0]] + a[1..] && b == [b[0]] + b[1..];
    }
  }

  lemma FirstIsLeast(a: seq<real>, b: seq<real>)
    requires Ascending(a) && multiset(a) == multiset(b) && a != [] && b != []
    ensures a[0] <= b[0]
  {
    assert b[0] in b;
    SameElements(b, a, b[0]);
    var k :| 0 <= k < |a| && a[k] == b[0];
    AscendingAt(a, 0, k);
  }

  lemma SameElements(a: seq<real>, b: seq<real>, x: real)
    requires multiset(a) == multiset(b) && x in a
    ensures x in b
  {
    assert x in multiset(a);
  }

  lemma DropFirst(a: seq<real>)
    requires a != []
    ensures multiset(a[1..]) == multiset(a) - multiset{a[0]}
  {
    assert a == [a[0]] + a[1..];
  }

  // ----- percentiles

  /** The nearest rank of percentile p among n samples, counted from 1. */
  function Rank(p: nat, n: nat): nat {
    Max((p * n + 99) / 100, 1)
  }

  function Percentile(sorted: seq<real>, p: nat): real
    requires sorted != [] && p <= 100
  {
    RankInRange(p, |sorted|);
    sorted[Rank(p, |sorted|) - 1]
  }

  lemma {:induction false} RankInRange(p: nat, n: nat)
    requires p <= 100 && 0 < n
    ensures 1 <= Rank(p, n) <= n
    ensures p * n <= 100 * Rank(p, n)
    ensures 1 < Rank(p, n) ==> 100 * (Rank(p, n) - 1) < p * n
  {
    assert p * n <= 100 * n;
  }

  function AtMost(s: seq<real>, v: real): nat {
    if s == [] then 0 else (if s[0] <= v then 1 else 0) + AtMost(s[1..], v)
  }

  function AtLeast(s: seq<real>, v: real): nat {
    if s == [] then 0 else (if s[0] >= v then 1 else 0) + AtLeast(s[1..], v)
  }

  lemma {:induction false} SortedCounts(s: seq<real>, v: real, k: nat)
    requires Ascending(s) && k < |s|
    ensures AtMost(s, v) >= k + 1 <==> s[k] <= v
    ensures AtLeast(s, v) >= |s| - k <==> s[k] >= v
  {
    CountsInRange(s[1..], v);
    if k > 0 {
      SortedCounts(s[1..], v, k - 1);
    } else if v < s[0] {
      forall i | 0 <= i < |s| ensures s[0] <= s[i] {
        AscendingAt(s, 0, i);
      }
      NoneAtMost(s, v);
    }
    if k == 0 && v <= s[0] {
      forall i | 0 <= i < |s| ensures s[0] <= s[i] {
        AscendingAt(s, 0, i);
      }
      AllAtLeast(s, v);
    }
  }

  lemma {:induction false} CountsInRange(s: seq<real>, v: real)
    ensures AtMost(s, v) <= |s| && AtLeast(s, v) <= |s|
  {
    if s != [] {
      CountsInRange(s[1..], v);
    }
  }

  lemma {:induction false} NoneAtMost(s: seq<real>, v: real)
    requires forall i :: 0 <= i < |s| ==> v < s[i]
    ensures AtMost(s, v) == 0
  {
    if s != [] {
      NoneAtMost(s[1..], v);
    }
  }

  lemma {:induction false} AllAtLeast(s: seq<real>, v: real)
    requires Below(v, s)
    ensures AtLeast(s, v) == |s|
  {
    if s != [] {
      AllAtLeast(s[1..], v);
    }
  }

  lemma {:induction false} InsertCounts(x: real, s: seq<real>, v: real)
    requires Ascending(s)
    ensures AtMost(Insert(x, s), v) == AtMost([x] + s, v)
    ensures AtLeast(Insert(x, s), v) == AtLeast([x] + s, v)
  {
    assert ([x] + s)[1..] == s;
    if s != [] && !(x <= s[0]) {
      InsertCounts(x, s[1..], v);
      assert ([x] + s[1..])[1..] == s[1..];
      assert Insert(x, s)[1..] == Insert(x, s[1..]);
    } else if s != [] {
      assert ([x] + s)[1..] == s;
    }
  }

  lemma {:induction false} SortKeepsCounts(s: seq<real>, v: real)
    ensures AtMost(Sort(s), v) == AtMost(s, v)
    ensures AtLeast(Sort(s), v) == AtLeast(s, v)
  {
    if s != [] {
      SortKeepsCounts(s[1..], v);
      InsertCounts(s[0], Sort(s[1..]), v);
      assert ([s[0]] + Sort(s[1..]))[1..] == Sort(s[1..]);
    }
  }

  /** A percentile is the one value that enough samples do not exceed and enough samples reach. */
  lemma PercentileIsNearestRank(samples: seq<real>, p: nat, v: real)
    requires samples != [] && p <= 100
    ensures Percentile(Sort(samples), p) == v
            <==> AtMost(samples, v) >= Rank(p, |samples|)
                 && AtLeast(samples, v) >= |samples| - Rank(p, |samples|) + 1
  {
    var sorted := Sort(samples);
    RankInRange(p, |samples|);
    SortedCounts(sorted, v, Rank(p, |samples|) - 1);
    SortKeepsCounts(samples, v);
  }

  // ----- jitter

  /** The sum of the absolute differences between neighbours. */
  function Variation(s: seq<real>): real {
    if |s| < 2 then 0.0
    else Variation(s[..|s| - 1]) + Abs(s[|s| - 1] - s[|s| - 2])
  }

  function Mean(total: real, n: nat): real
    requires n > 0
  {
    total / n as real
  }

  function Jitter(s: seq<real>): real {
    if |s| < 2 then 0.0 else Mean(Variation(s), |s| - 1)
  }

  lemma {:induction false} VariationCoversSpread(s: seq<real>, i: nat, j: nat)
    requires i < |s| && j < |s|
    ensures Abs(s[i] - s[j]) <= Variation(s)
  {
    if |s| >= 2 {
      var init := s[..|s| - 1];
      var last := |s| - 1;
      if i < last && j < last {
        VariationCoversSpread(init, i, j);
      } else if i < last {
        VariationCoversSpread(init, i, last - 1);
      } else if j < last {
        VariationCoversSpread(init, last - 1, j);
      } else {
        VariationCoversSpread(init, 0, 0);
      }
    }
  }

  ghost predicate Within(s: seq<real>, spread: real) {
    forall i, j :: 0 <= i < |s| && 0 <= j < |s| ==> Abs(s[i] - s[j]) <= spread
  }

  function Times(n: nat, x: real): real {
    if n == 0 then 0.0 else Times(n - 1, x) + x
  }

  lemma {:induction false} TimesIsProduct(n: nat, x: real)
    ensures Times(n, x) == n as real * x
  {
    if n > 0 {
      TimesIsProduct(n - 1, x);
      assert n as real * x == (n - 1) as real * x + x;
    }
  }

  lemma {:induction false} VariationBoundedBySpread(s: seq<real>, spread: real)
    requires |s| >= 1 && Within(s, spread)
    ensures Variation(s) <= Times(|s| - 1, spread)
  {
    if |s| >= 2 {
      var init := s[..|s| - 1];
      assert Within(init, spread);
      VariationBoundedBySpread(init, spread);
      assert Abs(s[|s| - 1] - s[|s| - 2]) <= spread;
    }
  }

  lemma BetweenSortedEnds(s: seq<real>, x: real)
    requires Ascending(s) && x in s
    ensures s[0] <= x <= s[|s| - 1]
  {
    var k :| 0 <= k < |s| && s[k] == x;
    AscendingAt(s, 0, k);
    AscendingAt(s, k, |s| - 1);
  }

  lemma BetweenEnds(samples: seq<real>, sorted: seq<real>, i: nat)
    requires i < |samples| && Ascending(sorted) && multiset(sorted) == multiset(samples)
    ensures sorted != [] && sorted[0] <= samples[i] <= sorted[|sorted| - 1]
  {
    SameElements(samples, sorted, samples[i]);
    BetweenSortedEnds(sorted, samples[i]);
  }

  lemma IndexOf(s: seq<real>, x: real) returns (i: nat)
    requires x in s
    ensures i < |s| && s[i] == x
  {
    i :| i < |s| && s[i] == x;
  }

  lemma {:induction false} SortedEnds(samples: seq<real>) returns (low: nat, high: nat)
    requires samples != []
    ensures low < |samples| && samples[low] == Sort(samples)[0]
    ensures high < |samples| && samples[high] == Sort(samples)[|samples| - 1]
    ensures 0.0 <= samples[high] - samples[low]
    ensures Within(samples, samples[high] - samples[low])
  {
    var sorted := Sort(samples);
    SameElements(sorted, samples, sorted[0]);
    SameElements(sorted, samples, sorted[|samples| - 1]);
    low := IndexOf(samples, sorted[0]);
    high := IndexOf(samples, sorted[|samples| - 1]);
    forall i | 0 <= i < |samples|
      ensures samples[low] <= samples[i] <= samples[high]
    {
      BetweenEnds(samples, sorted, i);
    }
  }

  lemma {:induction false} TimesAscends(n: nat, a: real, b: real)
    requires 0 < n && a < b
    ensures Times(n, a) < Times(n, b)
  {
    if 1 < n {
      TimesAscends(n - 1, a, b);
    }
  }

  lemma MeanBounds(total: real, n: nat, spread: real)
    requires n > 0 && total <= Times(n, spread)
    ensures Mean(total, n) <= spread
    ensures Times(n, Mean(total, n)) == total
  {
    TimesIsProduct(n, Mean(total, n));
    if spread < Mean(total, n) {
      TimesAscends(n, spread, Mean(total, n));
    }
  }

  /** The spread of the minute lies between jitter and (n-1) times jitter. */
  lemma JitterBounds(samples: seq<real>)
    requires |samples| >= 2
    ensures var sorted := Sort(samples);
            var spread := sorted[|samples| - 1] - sorted[0];
            Jitter(samples) <= spread <= Times(|samples| - 1, Jitter(samples))
  {
    var low, high := SortedEnds(samples);
    var spread := samples[high] - samples[low];
    assert Variation(samples) >= spread by {
      VariationCoversSpread(samples, high, low);
    }
    VariationBoundedBySpread(samples, spread);
    MeanBounds(Variation(samples), |samples| - 1, spread);
  }

  // ----- the summary

  function Summary(samples: seq<real>): Option<Stats> {
    if samples == [] then None
    else
      var sorted := Sort(samples);
      Some(Stats(Round(sorted[0]), Round(Percentile(sorted, 50)), Round(Percentile(sorted, 95)),
                 Round(Percentile(sorted, 99)), Round(sorted[|sorted| - 1]), Round(Jitter(samples))))
  }

  // ----- what a summary says, told of the samples alone

  /** v is the k-th smallest sample. */
  predicate IsKth(samples: seq<real>, k: int, v: real) {
    AtMost(samples, v) >= k && AtLeast(samples, v) >= |samples| - k + 1
  }

  /** k is the least rank that covers p percent of n. */
  predicate IsRank(k: int, p: nat, n: nat) {
    1 <= k <= n && p * n <= 100 * k && 100 * (k - 1) < p * n
  }

  /** The sum of the absolute differences between neighbours, from the front. */
  function Differences(s: seq<real>): real {
    if |s| < 2 then 0.0 else (if s[1] < s[0] then s[0] - s[1] else s[1] - s[0]) + Differences(s[1..])
  }

  ghost predicate RoundedKth(samples: seq<real>, k: int, x: real) {
    exists v :: IsKth(samples, k, v) && x == Round(v)
  }

  ghost predicate RoundedPercentile(samples: seq<real>, p: nat, x: real) {
    exists k :: IsRank(k, p, |samples|) && RoundedKth(samples, k, x)
  }

  /** s is what the samples have to be summarised as. */
  ghost predicate Describes(samples: seq<real>, s: Stats) {
    var n := |samples|;
    && n > 0
    && RoundedKth(samples, 1, s.min)
    && RoundedPercentile(samples, 50, s.p50)
    && RoundedPercentile(samples, 95, s.p95)
    && RoundedPercentile(samples, 99, s.p99)
    && RoundedKth(samples, n, s.max)
    && s.jitter == if n == 1 then 0.0 else Round(Differences(samples) / (n - 1) as real)
  }

  /** stats summarises the samples, and there are none without stats. */
  ghost predicate SummaryOf(samples: seq<real>, stats: Option<Stats>) {
    if stats.None? then samples == [] else Describes(samples, stats.value)
  }

  /** There is one k-th smallest sample. */
  lemma {:induction false} OneKth(samples: seq<real>, k: int, v: real, w: real)
    requires IsKth(samples, k, v) && IsKth(samples, k, w) && 1 <= k <= |samples|
    ensures v == w
  {
    var sorted := Sort(samples);
    SortedCounts(sorted, v, k - 1);
    SortedCounts(sorted, w, k - 1);
    SortKeepsCounts(samples, v);
    SortKeepsCounts(samples, w);
  }

  lemma {:induction false} KthIs(samples: seq<real>, k: nat)
    requires 1 <= k <= |samples|
    ensures RoundedKth(samples, k, Round(Sort(samples)[k - 1]))
  {
    SortedIsKth(samples, k);
    KthRounded(samples, k, Sort(samples)[k - 1]);
  }

  lemma {:induction false} SortedIsKth(samples: seq<real>, k: nat)
    requires 1 <= k <= |samples|
    ensures IsKth(samples, k, Sort(samples)[k - 1])
  {
    ElementIsKth(Sort(samples), k - 1);
    SortKeepsCounts(samples, Sort(samples)[k - 1]);
  }

  lemma {:induction false} ElementIsKth(sorted: seq<real>, i: nat)
    requires Ascending(sorted) && i < |sorted|
    ensures IsKth(sorted, i + 1, sorted[i])
  {
    SortedCounts(sorted, sorted[i], i);
  }

  lemma {:induction false} KthRounded(samples: seq<real>, k: nat, v: real)
    requires IsKth(samples, k, v)
    ensures RoundedKth(samples, k, Round(v))
  {
  }

  lemma {:induction false} PercentileIs(samples: seq<real>, p: nat)
    requires samples != [] && 0 < p <= 100
    ensures RoundedPercentile(samples, p, Round(Percentile(Sort(samples), p)))
  {
    RankIs(p, |samples|);
    KthIs(samples, Rank(p, |samples|));
  }

  lemma OneRank(j: int, k: int, p: nat, n: nat)
    requires IsRank(j, p, n) && IsRank(k, p, n)
    ensures j == k
  {
  }

  lemma RankIs(p: nat, n: nat)
    requires 0 < p <= 100 && 0 < n
    ensures IsRank(Rank(p, n), p, n)
  {
    RankInRange(p, n);
    assert 0 < p * n;
  }

  lemma {:induction false} VariationOneMore(s: seq<real>)
    requires |s| >= 2
    ensures Variation(s) == Abs(s[1] - s[0]) + Variation(s[1..])
  {
    if |s| > 2 {
      var init := s[..|s| - 1];
      VariationOneMore(init);
      assert init[1..] == s[1..][..|s| - 2];
    }
  }

  lemma {:induction false} VariationIsDifferences(s: seq<real>)
    ensures Variation(s) == Differences(s)
  {
    if |s| >= 2 {
      VariationOneMore(s);
      VariationIsDifferences(s[1..]);
    }
  }

  lemma {:induction false} SummaryDescribes(samples: seq<real>)
    ensures SummaryOf(samples, Summary(samples))
  {
    if samples != [] {
      var n, sorted := |samples|, Sort(samples);
      KthIs(samples, 1);
      KthIs(samples, n);
      PercentileIs(samples, 50);
      PercentileIs(samples, 95);
      PercentileIs(samples, 99);
      VariationIsDifferences(samples);
      NoJitterOfOne(samples);
    }
  }

  lemma NoJitterOfOne(samples: seq<real>)
    ensures |samples| == 1 ==> Round(Jitter(samples)) == 0.0
    ensures |samples| >= 2 ==> Jitter(samples) == Variation(samples) / (|samples| - 1) as real
  {
  }

  /** No other numbers describe the samples. */
  lemma OneDescription(samples: seq<real>, a: Stats, b: Stats)
    requires Describes(samples, a) && Describes(samples, b)
    ensures a == b
  {
    var n := |samples|;
    SameKth(samples, 1, a.min, b.min);
    SameKth(samples, n, a.max, b.max);
    SamePercentile(samples, 50, a.p50, b.p50);
    SamePercentile(samples, 95, a.p95, b.p95);
    SamePercentile(samples, 99, a.p99, b.p99);
  }

  lemma {:induction false} SameKth(samples: seq<real>, k: int, x: real, y: real)
    requires 1 <= k <= |samples| && RoundedKth(samples, k, x) && RoundedKth(samples, k, y)
    ensures x == y
  {
    var v :| IsKth(samples, k, v) && x == Round(v);
    var w :| IsKth(samples, k, w) && y == Round(w);
    OneKth(samples, k, v, w);
  }

  lemma {:induction false} SamePercentile(samples: seq<real>, p: nat, x: real, y: real)
    requires RoundedPercentile(samples, p, x) && RoundedPercentile(samples, p, y)
    ensures x == y
  {
    var j :| IsRank(j, p, |samples|) && RoundedKth(samples, j, x);
    var k :| IsRank(k, p, |samples|) && RoundedKth(samples, k, y);
    OneRank(j, k, p, |samples|);
    SameKth(samples, j, x, y);
  }

  method Summarise(samples: seq<real>) returns (stats: Option<Stats>)
    ensures stats == Summary(samples)
    ensures SummaryOf(samples, stats)
  {
    SummaryDescribes(samples);
    if |samples| == 0 {
      return None;
    }
    var jitter := 0.0;
    for i := 1 to |samples|
      invariant jitter == Variation(samples[..i])
    {
      jitter := jitter + Abs(samples[i] - samples[i - 1]);
      assert samples[..i + 1][..i] == samples[..i];
    }
    assert samples[..|samples|] == samples;
    if |samples| > 1 {
      jitter := Mean(jitter, |samples| - 1);
    }
    var sorted := Sort(samples);
    stats := Some(Stats(Round(sorted[0]), Round(Percentile(sorted, 50)), Round(Percentile(sorted, 95)),
                        Round(Percentile(sorted, 99)), Round(sorted[|sorted| - 1]), Round(jitter)));
  }

  /** Even after rounding the reported order statistics are ordered. */
  lemma SummaryIsOrdered(samples: seq<real>)
    requires samples != []
    ensures var s := Summary(samples).value; s.min <= s.p50 <= s.p95 <= s.p99 <= s.max
  {
    var sorted := Sort(samples);
    PercentileInside(sorted, 50);
    PercentilesAscend(sorted, 50, 95);
    PercentilesAscend(sorted, 95, 99);
    PercentileInside(sorted, 99);
    RoundKeepsOrder(sorted[0], Percentile(sorted, 50));
    RoundKeepsOrder(Percentile(sorted, 50), Percentile(sorted, 95));
    RoundKeepsOrder(Percentile(sorted, 95), Percentile(sorted, 99));
    RoundKeepsOrder(Percentile(sorted, 99), sorted[|sorted| - 1]);
  }

  lemma PercentilesAscend(sorted: seq<real>, p: nat, q: nat)
    requires sorted != [] && Ascending(sorted) && p <= q <= 100
    ensures Percentile(sorted, p) <= Percentile(sorted, q)
  {
    RankInRange(p, |sorted|);
    RankInRange(q, |sorted|);
    RankAscends(p, q, |sorted|);
    AscendingAt(sorted, Rank(p, |sorted|) - 1, Rank(q, |sorted|) - 1);
  }

  lemma ProductAscends(p: nat, q: nat, n: nat)
    requires p <= q
    ensures p * n <= q * n
  {
    assert (q - p) * n >= 0;
  }

  lemma RankAscends(p: nat, q: nat, n: nat)
    requires p <= q
    ensures Rank(p, n) <= Rank(q, n)
  {
    ProductAscends(p, q, n);
  }

  lemma PercentileInside(sorted: seq<real>, p: nat)
    requires sorted != [] && Ascending(sorted) && p <= 100
    ensures sorted[0] <= Percentile(sorted, p) <= sorted[|sorted| - 1]
  {
    RankInRange(p, |sorted|);
    AscendingAt(sorted, 0, Rank(p, |sorted|) - 1);
    AscendingAt(sorted, Rank(p, |sorted|) - 1, |sorted| - 1);
  }

  /** Only the jitter depends on the order the samples arrived in. */
  lemma ArrivalOrderOnlyMovesJitter(a: seq<real>, b: seq<real>)
    requires a != [] && multiset(a) == multiset(b)
    ensures b != []
    ensures Summary(a).value.(jitter := 0.0) == Summary(b).value.(jitter := 0.0)
  {
    assert |multiset(a)| == |a| && |multiset(b)| == |b|;
    SortedIsUnique(Sort(a), Sort(b));
  }
}
