/** The run summary: counters accumulated over probe cycles. */
module RunReport {
  import opened Prelude

  datatype Outcome = Outcome(target: string, stage: string, ok: bool)

  /** Instants are counted from 0, the zero time. */
  datatype Cycle = Cycle(at: int, targets: seq<string>, results: seq<Outcome>)

  datatype Stat = Stat(ok: nat, total: nat, failed: seq<string>)

  datatype Counter = Counter(ok: nat, total: nat)

  datatype State = State(
    cycles: nat, clean: nat, degraded: nat, cumulative: map<string, Counter>,
    lastOK: map<string, bool>, lastFail: map<string, int>, failingSince: int, anyFailed: bool)

  const FRESH: State := State(0, 0, 0, map[], map[], map[], 0, false)

  predicate AllOK(rs: seq<Outcome>) {
    rs == [] || (AllOK(rs[..|rs| - 1]) && rs[|rs| - 1].ok)
  }

  // ----- one cycle's tally

  function StatOf(stats: map<string, Stat>, name: string): Stat {
    if name in stats then stats[name] else Stat(0, 0, [])
  }

  function Tallied(s: Stat, r: Outcome): Stat {
    if r.ok then Stat(s.ok + 1, s.total + 1, s.failed)
    else Stat(s.ok, s.total + 1, if r.stage in s.failed then s.failed else s.failed + [r.stage])
  }

  /** The targets in order, configured ones first, and each one's tally. */
  function Tally(targets: seq<string>, rs: seq<Outcome>): (seq<string>, map<string, Stat>) {
    if rs == [] then (targets, map name | name in targets :: Stat(0, 0, []))
    else
      var (order, stats) := Tally(targets, rs[..|rs| - 1]);
      var r := rs[|rs| - 1];
      (if r.target in stats then order else order + [r.target],
       stats[r.target := Tallied(StatOf(stats, r.target), r)])
  }

  method TallyCycle(c: Cycle) returns (order: seq<string>, stats: map<string, Stat>)
    ensures (order, stats) == Tally(c.targets, c.results)
  {
    order := c.targets;
    stats := map name | name in c.targets :: Stat(0, 0, []);
    for i := 0 to |c.results|
      invariant (order, stats) == Tally(c.targets, c.results[..i])
    {
      var r := c.results[i];
      assert c.results[..i + 1][..i] == c.results[..i];
      var stat := Stat(0, 0, []);
      if r.target in stats {
        stat := stats[r.target];
      } else {
        order := order + [r.target];
      }
      stats := stats[r.target := Tallied(stat, r)];
    }
    assert c.results[..|c.results|] == c.results;
  }

  // ----- accumulating

  function CounterOf(cumulative: map<string, Counter>, name: string): Counter {
    if name in cumulative then cumulative[name] else Counter(0, 0)
  }

  function AddTarget(s: State, name: string, stat: Stat, at: int): State {
    var sum := CounterOf(s.cumulative, name);
    s.(cumulative := s.cumulative[name := Counter(sum.ok + stat.ok, sum.total + stat.total)],
       lastOK := s.lastOK[name := stat.ok == stat.total],
       lastFail := if stat.ok == stat.total then s.lastFail else s.lastFail[name := at])
  }

  function AddTargets(s: State, order: seq<string>, stats: map<string, Stat>, at: int): State {
    if order == [] then s
    else
      var name := order[|order| - 1];
      AddTarget(AddTargets(s, order[..|order| - 1], stats, at), name, StatOf(stats, name), at)
  }

  function CountCycle(s: State, c: Cycle): State {
    if AllOK(c.results) then s.(cycles := s.cycles + 1, clean := s.clean + 1, failingSince := 0)
    else s.(cycles := s.cycles + 1, degraded := s.degraded + 1, anyFailed := true,
            failingSince := if s.failingSince == 0 then c.at else s.failingSince)
  }

  function AddCycle(s: State, c: Cycle): State {
    var (order, stats) := Tally(c.targets, c.results);
    AddTargets(CountCycle(s, c), order, stats, c.at)
  }

  function After(cs: seq<Cycle>): State {
    if cs == [] then FRESH else AddCycle(After(cs[..|cs| - 1]), cs[|cs| - 1])
  }

  class Run {
    const targets: seq<string>
    var cycles: nat
    var clean: nat
    var degraded: nat
    var cumulative: map<string, Counter>
    var lastOK: map<string, bool>
    var lastFail: map<string, int>
    var failingSince: int
    var anyFailed: bool

    function View(): State
      reads this
    {
      State(cycles, clean, degraded, cumulative, lastOK, lastFail, failingSince, anyFailed)
    }

    constructor (targets: seq<string>)
      ensures this.targets == targets && View() == FRESH
    {
      this.targets := targets;
      cycles, clean, degraded := 0, 0, 0;
      cumulative, lastOK, lastFail := map[], map[], map[];
      failingSince, anyFailed := 0, false;
    }

    method IsClean(c: Cycle) returns (ok: bool)
      ensures ok == AllOK(c.results)
    {
      ok := true;
      for i := 0 to |c.results|
        invariant ok == AllOK(c.results[..i]) && ok
      {
        assert c.results[..i + 1][..i] == c.results[..i];
        if !c.results[i].ok {
          SomeFailed(c.results, i);
          return false;
        }
      }
      assert c.results[..|c.results|] == c.results;
    }

    /** Records a cycle; overall is the block's last row. */
    method Add(c: Cycle) returns (overall: Counter)
      modifies this
      ensures View() == AddCycle(old(View()), c)
      ensures var (order, stats) := Tally(c.targets, c.results); overall == Overall(order, stats)
    {
      var order, stats := TallyCycle(c);
      cycles := cycles + 1;
      var ok := IsClean(c);
      if ok {
        clean, failingSince := clean + 1, 0;
      } else {
        degraded, anyFailed := degraded + 1, true;
        if failingSince == 0 {
          failingSince := c.at;
        }
      }
      AddRows(order, stats, c.at);
      overall := OverallRow(order, stats);
    }

    method AddRows(order: seq<string>, stats: map<string, Stat>, at: int)
      modifies this`cumulative, this`lastOK, this`lastFail
      ensures View() == AddTargets(old(View()), order, stats, at)
    {
      for i := 0 to |order|
        invariant View() == AddTargets(old(View()), order[..i], stats, at)
      {
        AddOneMore(old(View()), order, stats, at, i);
        AddRow(order[i], StatOf(stats, order[i]), at);
      }
      assert order[..|order|] == order;
    }

    method AddRow(name: string, stat: Stat, at: int)
      modifies this`cumulative, this`lastOK, this`lastFail
      ensures View() == AddTarget(old(View()), name, stat, at)
    {
      var sum := CounterOf(cumulative, name);
      cumulative := cumulative[name := Counter(sum.ok + stat.ok, sum.total + stat.total)];
      lastOK := lastOK[name := stat.ok == stat.total];
      if stat.ok != stat.total {
        lastFail := lastFail[name := at];
      }
    }

    /** The rows of the run's summary: the configured targets, then whatever else turned up, in any order. */
    method SummaryOrder() returns (order: seq<string>)
      ensures targets <= order
      ensures forall name :: Occurrences(order, name) == SummaryListings(targets, cumulative, name)
    {
      order := targets;
      var seen, todo := (set name | name in targets), cumulative.Keys;
      forall name
        ensures Occurrences(targets, name) > 0 <==> name in targets
      {
        OccursIffIn(targets, name);
      }
      while todo != {}
        invariant todo <= cumulative.Keys && targets <= order
        invariant forall name ::
          Occurrences(order, name) == SummaryListings(targets, cumulative - todo, name)
        invariant forall name :: name in seen <==> SummaryListings(targets, cumulative - todo, name) > 0
        decreases todo
      {
        var name :| name in todo;
        ghost var before := order;
        forall other
          ensures SummaryListings(targets, cumulative - (todo - {name}), other) ==
                  if other == name && name !in seen then 1 else SummaryListings(targets, cumulative - todo, other)
        {
          OccursIffIn(targets, other);
        }
        todo := todo - {name};
        if name !in seen {
          seen, order := seen + {name}, order + [name];
          assert order[..|before|] == before;
        }
      }
      assert cumulative - todo == cumulative;
    }

    /** The last row of the run's summary. */
    method SummaryRow(order: seq<string>) returns (overall: Counter)
      ensures overall == SumCounters(cumulative, order)
    {
      overall := Counter(0, 0);
      for i := 0 to |order|
        invariant overall == SumCounters(cumulative, order[..i])
      {
        assert order[..i + 1][..i] == order[..i];
        var sum := CounterOf(cumulative, order[i]);
        overall := Counter(overall.ok + sum.ok, overall.total + sum.total);
      }
      assert order[..|order|] == order;
    }

    /** The run's summary: its rows and the counts of its last row. */
    method Summary() returns (order: seq<string>, overall: Counter)
      ensures targets <= order && overall == SumCounters(cumulative, order)
      ensures forall name :: Occurrences(order, name) == SummaryListings(targets, cumulative, name)
    {
      order := SummaryOrder();
      overall := SummaryRow(order);
    }
  }

  lemma AddOneMore(s: State, order: seq<string>, stats: map<string, Stat>, at: int, i: nat)
    requires i < |order|
    ensures AddTargets(s, order[..i + 1], stats, at)
         == AddTarget(AddTargets(s, order[..i], stats, at), order[i], StatOf(stats, order[i]), at)
  {
    assert order[..i + 1][..i] == order[..i];
  }

  method OverallRow(order: seq<string>, stats: map<string, Stat>) returns (overall: Counter)
    ensures overall == Overall(order, stats)
  {
    overall := Counter(0, 0);
    for i := 0 to |order|
      invariant overall == Overall(order[..i], stats)
    {
      assert order[..i + 1][..i] == order[..i];
      var stat := StatOf(stats, order[i]);
      overall := Counter(overall.ok + stat.ok, overall.total + stat.total);
    }
    assert order[..|order|] == order;
  }

  function Overall(order: seq<string>, stats: map<string, Stat>): Counter {
    if order == [] then Counter(0, 0)
    else
      var before, stat := Overall(order[..|order| - 1], stats), StatOf(stats, order[|order| - 1]);
      Counter(before.ok + stat.ok, before.total + stat.total)
  }

  lemma {:induction false} SomeFailed(rs: seq<Outcome>, i: nat)
    requires i < |rs| && !rs[i].ok
    ensures !AllOK(rs)
  {
    if i < |rs| - 1 {
      SomeFailed(rs[..|rs| - 1], i);
    }
  }

  // ----- counting without the accumulator

  function Tried(rs: seq<Outcome>, name: string): nat {
    if rs == [] then 0
    else Tried(rs[..|rs| - 1], name) + if rs[|rs| - 1].target == name then 1 else 0
  }

  function Passed(rs: seq<Outcome>, name: string): nat {
    if rs == [] then 0
    else Passed(rs[..|rs| - 1], name) + if rs[|rs| - 1].target == name && rs[|rs| - 1].ok then 1 else 0
  }

  function PassedAll(rs: seq<Outcome>): nat {
    if rs == [] then 0 else PassedAll(rs[..|rs| - 1]) + if rs[|rs| - 1].ok then 1 else 0
  }

  function Occurrences(s: seq<string>, name: string): nat {
    if s == [] then 0 else Occurrences(s[..|s| - 1], name) + if s[|s| - 1] == name then 1 else 0
  }

  /** n copies of x added up. */
  function Copies(n: nat, x: nat): nat {
    if n == 0 then 0 else Copies(n - 1, x) + x
  }

  /** How often a cycle's block lists a name: as often as it is configured, and once if it only turns up. */
  function Listings(c: Cycle, name: string): nat {
    if Occurrences(c.targets, name) > 0 then Occurrences(c.targets, name)
    else if Tried(c.results, name) > 0 then 1 else 0
  }

  lemma {:induction false} OccursIffIn(s: seq<string>, name: string)
    ensures Occurrences(s, name) > 0 <==> name in s
  {
    if s != [] {
      OccursIffIn(s[..|s| - 1], name);
      assert s == s[..|s| - 1] + [s[|s| - 1]];
    }
  }

  lemma {:induction false} TallyCounts(targets: seq<string>, rs: seq<Outcome>, name: string)
    ensures var (order, stats) := Tally(targets, rs);
            && (name in stats <==> name in targets || Tried(rs, name) > 0)
            && StatOf(stats, name).total == Tried(rs, name)
            && StatOf(stats, name).ok == Passed(rs, name)
            && Occurrences(order, name) == Listings(Cycle(0, targets, rs), name)
  {
    OccursIffIn(targets, name);
    if rs != [] {
      var init, r := rs[..|rs| - 1], rs[|rs| - 1];
      TallyCounts(targets, init, name);
      var (order, stats) := Tally(targets, init);
      assert (order + [r.target])[..|order|] == order;
    }
  }

  function FailOf(s: State, name: string): Option<int> {
    if name in s.lastFail then Some(s.lastFail[name]) else None
  }

  lemma {:induction false} AddTargetsCounts(s: State, order: seq<string>, stats: map<string, Stat>, at: int, name: string)
    ensures var after, stat, n := AddTargets(s, order, stats, at), StatOf(stats, name), Occurrences(order, name);
            && CounterOf(after.cumulative, name) ==
               Counter(CounterOf(s.cumulative, name).ok + Copies(n, stat.ok),
                       CounterOf(s.cumulative, name).total + Copies(n, stat.total))
            && (n > 0 ==> name in after.lastOK && after.lastOK[name] == (stat.ok == stat.total))
            && (n == 0 ==> (name in after.lastOK <==> name in s.lastOK)
                           && (name in s.lastOK ==> after.lastOK[name] == s.lastOK[name]))
            && FailOf(after, name) == (if n > 0 && stat.ok != stat.total then Some(at) else FailOf(s, name))
            && after.cycles == s.cycles && after.clean == s.clean && after.degraded == s.degraded
            && after.failingSince == s.failingSince && after.anyFailed == s.anyFailed
  {
    if order != [] {
      AddTargetsCounts(s, order[..|order| - 1], stats, at, name);
    }
  }

  /** What one cycle adds to a target: its results, once per listing. */
  lemma CycleCounts(s: State, c: Cycle, name: string)
    ensures var after, n := AddCycle(s, c), Listings(c, name);
            && CounterOf(after.cumulative, name).total ==
               CounterOf(s.cumulative, name).total + Copies(n, Tried(c.results, name))
            && CounterOf(after.cumulative, name).ok ==
               CounterOf(s.cumulative, name).ok + Copies(n, Passed(c.results, name))
  {
    var (order, stats) := Tally(c.targets, c.results);
    TallyCounts(c.targets, c.results, name);
    AddTargetsCounts(CountCycle(s, c), order, stats, c.at, name);
  }

  lemma CycleFlags(s: State, c: Cycle)
    ensures var after, counted := AddCycle(s, c), CountCycle(s, c);
            && after.cycles == counted.cycles && after.clean == counted.clean && after.degraded == counted.degraded
            && after.failingSince == counted.failingSince && after.anyFailed == counted.anyFailed
  {
    var (order, stats) := Tally(c.targets, c.results);
    AddTargetsCounts(CountCycle(s, c), order, stats, c.at, "");
  }

  // ----- whole runs

  /** All results of all cycles. */
  function AllResults(cs: seq<Cycle>): seq<Outcome> {
    if cs == [] then [] else AllResults(cs[..|cs| - 1]) + cs[|cs| - 1].results
  }

  lemma {:induction false} CountsJoin(a: seq<Outcome>, b: seq<Outcome>, name: string)
    ensures Tried(a + b, name) == Tried(a, name) + Tried(b, name)
    ensures Passed(a + b, name) == Passed(a, name) + Passed(b, name)
  {
    if b == [] {
      assert a + b == a;
    } else {
      CountsJoin(a, b[..|b| - 1], name);
      assert (a + b)[..|a + b| - 1] == a + b[..|b| - 1];
    }
  }

  /** name is configured at most once wherever it has results. */
  ghost predicate ListedOnce(c: Cycle, name: string) {
    Tried(c.results, name) == 0 || Occurrences(c.targets, name) <= 1
  }

  lemma {:induction false} CopiesGrow(n: nat, x: nat)
    ensures n >= 1 ==> Copies(n, x) >= x
    ensures n >= 2 && x > 0 ==> Copies(n, x) > x
    ensures x == 0 ==> Copies(n, x) == 0
  {
    if n > 0 {
      CopiesGrow(n - 1, x);
    }
  }

  lemma {:induction false} CumulativeAtLeast(cs: seq<Cycle>, name: string)
    ensures var sum, all := CounterOf(After(cs).cumulative, name), AllResults(cs);
            && sum.total >= Tried(all, name)
            && (sum.total == Tried(all, name) <==> forall i :: 0 <= i < |cs| ==> ListedOnce(cs[i], name))
  {
    if cs != [] {
      var init, c := cs[..|cs| - 1], cs[|cs| - 1];
      CumulativeAtLeast(init, name);
      CycleCounts(After(init), c, name);
      CountsJoin(AllResults(init), c.results, name);
      CycleAtLeast(c, name);
      ListedOneMore(cs, name);
    }
  }

  lemma ListedOneMore(cs: seq<Cycle>, name: string)
    requires cs != []
    ensures var init, c := cs[..|cs| - 1], cs[|cs| - 1];
            (forall i :: 0 <= i < |cs| ==> ListedOnce(cs[i], name))
            <==> (forall i :: 0 <= i < |init| ==> ListedOnce(init[i], name)) && ListedOnce(c, name)
  {
    var init := cs[..|cs| - 1];
    assert forall i :: 0 <= i < |init| ==> init[i] == cs[i];
  }

  lemma CycleAtLeast(c: Cycle, name: string)
    ensures Copies(Listings(c, name), Tried(c.results, name)) >= Tried(c.results, name)
    ensures Copies(Listings(c, name), Tried(c.results, name)) == Tried(c.results, name) <==> ListedOnce(c, name)
  {
    CopiesGrow(Listings(c, name), Tried(c.results, name));
    if Listings(c, name) == 1 {
      assert Copies(1, Tried(c.results, name)) == Copies(0, Tried(c.results, name)) + Tried(c.results, name);
    }
  }

  /**
   A target's cumulative count is the number of its results over the whole run,
   unless some cycle lists it twice: then, and only then, it counts too many.
   */
  lemma CumulativeCountsEveryResult(cs: seq<Cycle>, name: string)
    ensures CounterOf(After(cs).cumulative, name).total == Tried(AllResults(cs), name)
            <==> forall i :: 0 <= i < |cs| ==> ListedOnce(cs[i], name)
  {
    CumulativeAtLeast(cs, name);
  }

  lemma {:induction false} CumulativeCountsPasses(cs: seq<Cycle>, name: string)
    requires forall i :: 0 <= i < |cs| ==> ListedOnce(cs[i], name)
    ensures CounterOf(After(cs).cumulative, name).ok == Passed(AllResults(cs), name)
  {
    if cs != [] {
      var init, c := cs[..|cs| - 1], cs[|cs| - 1];
      assert forall i :: 0 <= i < |init| ==> init[i] == cs[i];
      CumulativeCountsPasses(init, name);
      CycleCounts(After(init), c, name);
      CountsJoin(AllResults(init), c.results, name);
      PassedIsTried(c.results, name);
      CopiesGrow(Listings(c, name), Passed(c.results, name));
      assert ListedOnce(c, name);
      if Listings(c, name) == 1 {
        assert Copies(1, Passed(c.results, name)) == Copies(0, Passed(c.results, name)) + Passed(c.results, name);
      }
    }
  }

  lemma {:induction false} PassedIsTried(rs: seq<Outcome>, name: string)
    ensures Passed(rs, name) <= Tried(rs, name)
  {
    if rs != [] {
      PassedIsTried(rs[..|rs| - 1], name);
    }
  }

  // ----- streaks

  /** The cycles of the unbroken failing streak the run is in. */
  function Streak(cs: seq<Cycle>): seq<Cycle> {
    if cs == [] || AllOK(cs[|cs| - 1].results) then [] else Streak(cs[..|cs| - 1]) + [cs[|cs| - 1]]
  }

  /** The first start that is not the zero time, 0 if all are. */
  function FirstStart(cs: seq<Cycle>): int {
    if cs == [] then 0
    else if FirstStart(cs[..|cs| - 1]) != 0 then FirstStart(cs[..|cs| - 1])
    else cs[|cs| - 1].at
  }

  function CleanOnes(cs: seq<Cycle>): nat {
    if cs == [] then 0 else CleanOnes(cs[..|cs| - 1]) + if AllOK(cs[|cs| - 1].results) then 1 else 0
  }

  /** The cycle counters, the exit status and the start of the current failing streak. */
  lemma {:induction false} RunFlags(cs: seq<Cycle>)
    ensures var s := After(cs);
            && s.cycles == |cs| && s.clean + s.degraded == s.cycles
            && s.clean == CleanOnes(cs)
            && (s.anyFailed <==> exists i :: 0 <= i < |cs| && !AllOK(cs[i].results))
            && s.failingSince == FirstStart(Streak(cs))
  {
    if cs != [] {
      var init, c := cs[..|cs| - 1], cs[|cs| - 1];
      RunFlags(init);
      CycleFlags(After(init), c);
      assert forall i :: 0 <= i < |init| ==> init[i] == cs[i];
      if After(init).anyFailed {
        var i :| 0 <= i < |init| && !AllOK(init[i].results);
        assert !AllOK(cs[i].results);
      }
      if !AllOK(c.results) {
        assert Streak(cs)[..|Streak(cs)| - 1] == Streak(init);
      }
    }
  }

  /** With proper start times, the failing streak starts where it is said to. */
  lemma {:induction false} FailingSinceIsStreakStart(cs: seq<Cycle>)
    requires forall i :: 0 <= i < |cs| ==> cs[i].at != 0
    ensures var streak := Streak(cs);
            && After(cs).failingSince == (if streak == [] then 0 else streak[0].at)
            && (After(cs).failingSince == 0 <==> cs == [] || AllOK(cs[|cs| - 1].results))
            && |streak| <= |cs| && streak == cs[|cs| - |streak|..]
  {
    RunFlags(cs);
    StreakIsSuffix(cs);
    FirstOfStreak(Streak(cs));
  }

  lemma {:induction false} StreakIsSuffix(cs: seq<Cycle>)
    ensures |Streak(cs)| <= |cs| && Streak(cs) == cs[|cs| - |Streak(cs)|..]
  {
    if cs != [] && !AllOK(cs[|cs| - 1].results) {
      StreakIsSuffix(cs[..|cs| - 1]);
    }
  }

  lemma {:induction false} FirstOfStreak(cs: seq<Cycle>)
    requires forall i :: 0 <= i < |cs| ==> cs[i].at != 0
    ensures FirstStart(cs) == if cs == [] then 0 else cs[0].at
  {
    if cs != [] {
      FirstOfStreak(cs[..|cs| - 1]);
    }
  }

  // ----- what the last columns say

  /** The last cycle that lists name. */
  function LastListing(cs: seq<Cycle>, name: string): Option<Cycle> {
    if cs == [] then None
    else if Listings(cs[|cs| - 1], name) > 0 then Some(cs[|cs| - 1])
    else LastListing(cs[..|cs| - 1], name)
  }

  /** The start of the last cycle in which name failed. */
  function LastFailure(cs: seq<Cycle>, name: string): Option<int> {
    if cs == [] then None
    else if Passed(cs[|cs| - 1].results, name) < Tried(cs[|cs| - 1].results, name) then Some(cs[|cs| - 1].at)
    else LastFailure(cs[..|cs| - 1], name)
  }

  /** A target's status is that of the last cycle listing it, its last failure that of the last cycle it failed in. */
  lemma {:induction false} LastColumns(cs: seq<Cycle>, name: string)
    ensures var s, last := After(cs), LastListing(cs, name);
            && (name in s.lastOK <==> last.Some?)
            && (last.Some? ==> s.lastOK[name] == (Passed(last.value.results, name) == Tried(last.value.results, name)))
            && FailOf(s, name) == LastFailure(cs, name)
  {
    if cs != [] {
      var init, c := cs[..|cs| - 1], cs[|cs| - 1];
      LastColumns(init, name);
      var (order, stats) := Tally(c.targets, c.results);
      TallyCounts(c.targets, c.results, name);
      AddTargetsCounts(CountCycle(After(init), c), order, stats, c.at, name);
      PassedIsTried(c.results, name);
    }
  }

  // ----- the order of the rows and of the failed stages

  /** xs without repetition, everything where it comes first. */
  function Firsts(xs: seq<string>): seq<string> {
    if xs == [] then []
    else
      var before, last := Firsts(xs[..|xs| - 1]), xs[|xs| - 1];
      if last in before then before else before + [last]
  }

  /** p is where x comes first. */
  predicate ComesFirst(xs: seq<string>, x: string, p: nat) {
    p < |xs| && xs[p] == x && x !in xs[..p]
  }

  /** The same elements, each once, in the order in which they come first. */
  lemma {:induction false} FirstsAre(xs: seq<string>) returns (places: seq<nat>)
    ensures Distinct(Firsts(xs)) && forall x :: x in Firsts(xs) <==> x in xs
    ensures |places| == |Firsts(xs)|
    ensures forall i :: 0 <= i < |places| ==> ComesFirst(xs, Firsts(xs)[i], places[i])
    ensures forall i, j :: 0 <= i < j < |places| ==> places[i] < places[j]
  {
    places := [];
    if xs != [] {
      var init, last := xs[..|xs| - 1], xs[|xs| - 1];
      places := FirstsAre(init);
      assert xs == init + [last];
      forall i | 0 <= i < |places|
        ensures ComesFirst(xs, Firsts(init)[i], places[i])
      {
        assert xs[..places[i]] == init[..places[i]];
      }
      if last !in Firsts(init) {
        places := places + [|init|];
      }
    }
  }

  /** The targets of the results that are not configured. */
  function Unlisted(targets: seq<string>, rs: seq<Outcome>): seq<string> {
    if rs == [] then []
    else
      var r := rs[|rs| - 1];
      Unlisted(targets, rs[..|rs| - 1]) + if r.target in targets then [] else [r.target]
  }

  /** The stages that failed for name. */
  function FailedStages(rs: seq<Outcome>, name: string): seq<string> {
    if rs == [] then []
    else
      var r := rs[|rs| - 1];
      FailedStages(rs[..|rs| - 1], name) + if r.target == name && !r.ok then [r.stage] else []
  }

  lemma {:induction false} FirstsOneMore(xs: seq<string>, x: string)
    ensures Firsts(xs + [x]) == if x in xs then Firsts(xs) else Firsts(xs) + [x]
  {
    assert (xs + [x])[..|xs|] == xs;
    var _ := FirstsAre(xs);
  }

  lemma {:induction false} UnlistedHas(targets: seq<string>, rs: seq<Outcome>, name: string)
    ensures name in Unlisted(targets, rs) <==> name !in targets && Tried(rs, name) > 0
  {
    if rs != [] {
      UnlistedHas(targets, rs[..|rs| - 1], name);
    }
  }

  lemma {:induction false} TallyOneMore(targets: seq<string>, init: seq<Outcome>, r: Outcome)
    ensures var (order, stats) := Tally(targets, init);
            Tally(targets, init + [r]) ==
            (if r.target in stats then order else order + [r.target],
             stats[r.target := Tallied(StatOf(stats, r.target), r)])
  {
    assert (init + [r])[..|init|] == init;
  }

  lemma {:induction false} UnlistedOneMore(targets: seq<string>, init: seq<Outcome>, r: Outcome)
    ensures Unlisted(targets, init + [r]) == Unlisted(targets, init) + if r.target in targets then [] else [r.target]
    ensures r.target in targets ==> Unlisted(targets, init + [r]) == Unlisted(targets, init)
  {
    assert (init + [r])[..|init|] == init;
  }

  /** A block has the configured targets first, in their order, then the others as they first turn up. */
  lemma {:induction false} TallyOrder(targets: seq<string>, rs: seq<Outcome>)
    ensures Tally(targets, rs).0 == targets + Firsts(Unlisted(targets, rs))
  {
    if rs == [] {
      assert targets + [] == targets;
    } else {
      var init, r := rs[..|rs| - 1], rs[|rs| - 1];
      assert rs == init + [r];
      TallyOrder(targets, init);
      TallyOneMore(targets, init, r);
      TallyCounts(targets, init, r.target);
      UnlistedHas(targets, init, r.target);
      UnlistedOneMore(targets, init, r);
      FirstsOneMore(Unlisted(targets, init), r.target);
      Regroup(targets, Firsts(Unlisted(targets, init)), r.target);
    }
  }

  lemma Regroup(a: seq<string>, b: seq<string>, x: string)
    ensures a + (b + [x]) == (a + b) + [x]
  {
  }

  /** A target's failed stages come as they first failed. */
  lemma {:induction false} TallyFailed(targets: seq<string>, rs: seq<Outcome>, name: string)
    ensures StatOf(Tally(targets, rs).1, name).failed == Firsts(FailedStages(rs, name))
  {
    if rs != [] {
      var init, r := rs[..|rs| - 1], rs[|rs| - 1];
      assert rs == init + [r];
      TallyFailed(targets, init, name);
      TallyOneMore(targets, init, r);
      FailedOneMore(init, r, name);
    }
  }

  lemma {:induction false} FailedOneMore(init: seq<Outcome>, r: Outcome, name: string)
    ensures Firsts(FailedStages(init + [r], name)) ==
            if r.target == name && !r.ok && r.stage !in Firsts(FailedStages(init, name))
            then Firsts(FailedStages(init, name)) + [r.stage] else Firsts(FailedStages(init, name))
  {
    assert (init + [r])[..|init|] == init;
    FirstsOneMore(FailedStages(init, name), r.stage);
    var _ := FirstsAre(FailedStages(init, name));
    assert FailedStages(init, name) + [] == FailedStages(init, name);
  }

  // ----- the last row of a cycle's block

  lemma {:induction false} OverallUpdate(order: seq<string>, stats: map<string, Stat>, name: string, r: Outcome)
    ensures var after := stats[name := Tallied(StatOf(stats, name), r)];
            var n := Occurrences(order, name);
            && Overall(order, after).total == Overall(order, stats).total + n
            && Overall(order, after).ok == Overall(order, stats).ok + if r.ok then n else 0
  {
    if order != [] {
      OverallUpdate(order[..|order| - 1], stats, name, r);
    }
  }

  lemma {:induction false} OverallOfNothing(order: seq<string>, stats: map<string, Stat>)
    requires forall name :: name in stats ==> stats[name] == Stat(0, 0, [])
    ensures Overall(order, stats) == Counter(0, 0)
  {
    if order != [] {
      OverallOfNothing(order[..|order| - 1], stats);
    }
  }

  /** The overall row counts every result of the cycle once, unless a target with a result is listed twice. */
  lemma {:induction false} OverallCountsEveryResult(targets: seq<string>, rs: seq<Outcome>)
    ensures var (order, stats) := Tally(targets, rs);
            var overall := Overall(order, stats);
            && overall.total >= |rs|
            && (overall.total == |rs| <==> AllListedOnce(targets, rs))
            && (overall.total == |rs| ==> overall.ok == PassedAll(rs))
  {
    if rs == [] {
      OverallOfNothing(targets, map name | name in targets :: Stat(0, 0, []));
    } else {
      var init, r := rs[..|rs| - 1], rs[|rs| - 1];
      OverallCountsEveryResult(targets, init);
      var (before, stats) := Tally(targets, init);
      var (order, after) := Tally(targets, rs);
      TallyCounts(targets, init, r.target);
      TallyCounts(targets, rs, r.target);
      OccursIffIn(targets, r.target);
      OverallUpdate(order, stats, r.target, r);
      if r.target !in stats {
        assert (before + [r.target])[..|before|] == before;
        assert StatOf(stats, r.target) == Stat(0, 0, []);
      }
    }
  }

  predicate AllListedOnce(targets: seq<string>, rs: seq<Outcome>) {
    rs == [] || (AllListedOnce(targets, rs[..|rs| - 1]) && Occurrences(targets, rs[|rs| - 1].target) <= 1)
  }

  // ----- the last row of the run's summary

  function SummaryListings(targets: seq<string>, cumulative: map<string, Counter>, name: string): nat {
    if name in targets then Occurrences(targets, name) else if name in cumulative then 1 else 0
  }

  function SumCounters(cumulative: map<string, Counter>, order: seq<string>): Counter {
    if order == [] then Counter(0, 0)
    else
      var before, sum := SumCounters(cumulative, order[..|order| - 1]), CounterOf(cumulative, order[|order| - 1]);
      Counter(before.ok + sum.ok, before.total + sum.total)
  }

  function TriedIn(rs: seq<Outcome>, order: seq<string>): nat {
    if order == [] then 0 else TriedIn(rs, order[..|order| - 1]) + Tried(rs, order[|order| - 1])
  }

  function PassedIn(rs: seq<Outcome>, order: seq<string>): nat {
    if order == [] then 0 else PassedIn(rs, order[..|order| - 1]) + Passed(rs, order[|order| - 1])
  }

  lemma {:induction false} OneMoreResult(rs: seq<Outcome>, r: Outcome, order: seq<string>)
    ensures TriedIn(rs + [r], order) == TriedIn(rs, order) + Occurrences(order, r.target)
    ensures PassedIn(rs + [r], order) == PassedIn(rs, order) + if r.ok then Occurrences(order, r.target) else 0
  {
    if order != [] {
      OneMoreResult(rs, r, order[..|order| - 1]);
      assert (rs + [r])[..|rs|] == rs;
    }
  }

  lemma {:induction false} NoResults(order: seq<string>)
    ensures TriedIn([], order) == PassedIn([], order) == 0
  {
    if order != [] {
      NoResults(order[..|order| - 1]);
    }
  }

  /** Every result's target is named at most once. */
  ghost predicate NamedOnce(rs: seq<Outcome>, names: seq<string>) {
    forall i :: 0 <= i < |rs| ==> Occurrences(names, rs[i].target) <= 1
  }

  /** Rows that name every target with a result share out the results just when they name each once. */
  lemma {:induction false} RowsShareResults(rs: seq<Outcome>, order: seq<string>)
    requires forall i :: 0 <= i < |rs| ==> Occurrences(order, rs[i].target) >= 1
    ensures TriedIn(rs, order) >= |rs|
    ensures TriedIn(rs, order) == |rs| <==> NamedOnce(rs, order)
    ensures NamedOnce(rs, order) ==> PassedIn(rs, order) == PassedAll(rs)
  {
    if rs == [] {
      NoResults(order);
    } else {
      var init, r := rs[..|rs| - 1], rs[|rs| - 1];
      assert forall i :: 0 <= i < |init| ==> init[i] == rs[i];
      RowsShareResults(init, order);
      OneMoreResult(init, r, order);
      assert rs == init + [r];
      assert NamedOnce(rs, order) <==> NamedOnce(init, order) && Occurrences(order, r.target) <= 1;
    }
  }

  /** No cycle lists one of these names twice where it has results. */
  ghost predicate NoneTwice(cs: seq<Cycle>, order: seq<string>) {
    forall n, i :: 0 <= n < |order| && 0 <= i < |cs| ==> ListedOnce(cs[i], order[n])
  }

  lemma {:induction false} RowsAtLeast(cs: seq<Cycle>, order: seq<string>)
    ensures var sum, all := SumCounters(After(cs).cumulative, order), AllResults(cs);
            && sum.total >= TriedIn(all, order)
            && (sum.total == TriedIn(all, order) <==> NoneTwice(cs, order))
            && (NoneTwice(cs, order) ==> sum.ok == PassedIn(all, order))
  {
    if order != [] {
      var init, name := order[..|order| - 1], order[|order| - 1];
      RowsAtLeast(cs, init);
      CumulativeAtLeast(cs, name);
      NoneTwiceOneMore(cs, order);
      if forall i :: 0 <= i < |cs| ==> ListedOnce(cs[i], name) {
        CumulativeCountsPasses(cs, name);
      }
    }
  }

  lemma NoneTwiceOneMore(cs: seq<Cycle>, order: seq<string>)
    requires order != []
    ensures NoneTwice(cs, order) <==>
            NoneTwice(cs, order[..|order| - 1])
            && forall i :: 0 <= i < |cs| ==> ListedOnce(cs[i], order[|order| - 1])
  {
    var init := order[..|order| - 1];
    assert forall n :: 0 <= n < |init| ==> init[n] == order[n];
    assert forall n :: 0 <= n < |order| ==> n < |init| || order[n] == order[|order| - 1];
  }

  lemma EveryResultHasARow(cs: seq<Cycle>, i: nat)
    requires i < |AllResults(cs)|
    ensures AllResults(cs)[i].target in After(cs).cumulative
  {
    TriedAt(AllResults(cs), i);
    CumulativeAtLeast(cs, AllResults(cs)[i].target);
  }

  lemma {:induction false} TriedAt(rs: seq<Outcome>, i: nat)
    requires i < |rs|
    ensures Tried(rs, rs[i].target) > 0
  {
    if i < |rs| - 1 {
      TriedAt(rs[..|rs| - 1], i);
    }
  }

  /**
   The last row of the run's summary counts every result of every cycle once if
   and only if neither the run nor any cycle lists a target with results twice.
   */
  lemma SummaryCountsEveryResult(cs: seq<Cycle>, targets: seq<string>, order: seq<string>)
    requires forall name :: Occurrences(order, name) == SummaryListings(targets, After(cs).cumulative, name)
    ensures var overall, all := SumCounters(After(cs).cumulative, order), AllResults(cs);
            && overall.total >= |all|
            && (overall.total == |all| <==> NamedOnce(all, targets) && NoneTwice(cs, order))
            && (overall.total == |all| ==> overall.ok == PassedAll(all))
  {
    var all := AllResults(cs);
    forall i | 0 <= i < |all|
      ensures Occurrences(order, all[i].target) == Max(1, Occurrences(targets, all[i].target))
    {
      EveryResultHasARow(cs, i);
      OccursIffIn(targets, all[i].target);
    }
    RowsShareResults(all, order);
    RowsAtLeast(cs, order);
  }

  /** A cycle is clean just when every result passed. */
  lemma {:induction false} CleanIffAllPassed(rs: seq<Outcome>)
    ensures PassedAll(rs) <= |rs|
    ensures AllOK(rs) <==> PassedAll(rs) == |rs|
  {
    if rs != [] {
      CleanIffAllPassed(rs[..|rs| - 1]);
    }
  }
}
