/**
 The long-poll truncation detector, judged against the polls that really took
 place: what the server reports about a poller is when its open poll started.
 */
module LongPoll {
  import opened Prelude

  const LONG_POLL: int := 60 * SECOND

  /** A poll on the server; end is None while it is open for good. */
  datatype Poll = Poll(id: nat, identity: string, start: int, end: Option<int>)

  datatype Info = Info(identity: string, lastAccess: int)

  datatype Observation = Observation(pollers: seq<Info>, now: int)

  datatype State = State(lastHeld: int, lastSeen: Option<int>, truncations: nat)

  const FRESH: State := State(0, None, 0)

  // ----- the detector

  /** The longest age of our pollers, and whether there is one. */
  function Held(pollers: seq<Info>, identity: string, now: int): (r: (int, bool))
    ensures 0 <= r.0
  {
    if pollers == [] then (0, false)
    else
      var (held, found) := Held(pollers[..|pollers| - 1], identity, now);
      var last := pollers[|pollers| - 1];
      if last.identity != identity then (held, found)
      else (Max(held, now - last.lastAccess), true)
  }

  function Observe(s: State, identity: string, o: Observation): State {
    var (held, found) := Held(o.pollers, identity, o.now);
    if !found then s
    else
      var truncated := s.lastSeen.Some? && held < s.lastHeld
                       && s.lastHeld + (o.now - s.lastSeen.value) < LONG_POLL;
      State(held, Some(o.now), if truncated then s.truncations + 1 else s.truncations)
  }

  class Poller {
    const identity: string
    var lastHeld: int
    var lastSeen: Option<int>
    var truncations: nat

    function View(): State
      reads this
    {
      State(lastHeld, lastSeen, truncations)
    }

    constructor (identity: string)
      ensures this.identity == identity && View() == FRESH
    {
      this.identity, lastHeld, lastSeen, truncations := identity, 0, None, 0;
    }

    method ObserveResponse(o: Observation) returns (held: int, found: bool)
      modifies this
      ensures View() == Observe(old(View()), identity, o)
      ensures found == Held(o.pollers, identity, o.now).1
      ensures held == if found then Held(o.pollers, identity, o.now).0 else 0
    {
      held, found := 0, false;
      for i := 0 to |o.pollers|
        invariant (held, found) == Held(o.pollers[..i], identity, o.now)
      {
        assert o.pollers[..i + 1][..i] == o.pollers[..i];
        var info := o.pollers[i];
        if info.identity != identity {
          continue;
        }
        found := true;
        var age := o.now - info.lastAccess;
        if age > held {
          held := age;
        }
      }
      assert o.pollers[..|o.pollers|] == o.pollers;
      if !found {
        return 0, false;
      }
      if lastSeen.Some? && held < lastHeld {
        if lastHeld + (o.now - lastSeen.value) < LONG_POLL {
          truncations := truncations + 1;
        }
      }
      lastHeld, lastSeen := held, Some(o.now);
    }
  }

  // ----- the polls that took place

  predicate OpenAt(p: Poll, now: int) {
    p.start <= now && (p.end.Some? ==> now < p.end.value)
  }

  predicate Ours(p: Poll, identity: string, now: int) {
    p.identity == identity && OpenAt(p, now)
  }

  ghost predicate Backed(polls: set<Poll>, info: Info, now: int) {
    exists p :: p in polls && Ours(p, info.identity, now) && p.start == info.lastAccess
  }

  /** The response lists the open polls, by their start, and nothing else. */
  ghost predicate Truthful(o: Observation, polls: set<Poll>) {
    && (forall i {:trigger Backed(polls, o.pollers[i], o.now)} ::
          0 <= i < |o.pollers| ==> Backed(polls, o.pollers[i], o.now))
    && (forall p {:trigger Info(p.identity, p.start) in o.pollers} ::
          p in polls && OpenAt(p, o.now) ==> Info(p.identity, p.start) in o.pollers)
  }

  /** held is the age of our oldest open poll, 0 if none is older. */
  ghost predicate Oldest(polls: set<Poll>, identity: string, now: int, held: int) {
    && (forall p :: p in polls && Ours(p, identity, now) ==> now - p.start <= held)
    && (held > 0 ==> exists p :: p in polls && Ours(p, identity, now) && now - p.start == held)
  }

  lemma {:induction false} HeldBounds(pollers: seq<Info>, identity: string, now: int)
    ensures var (held, found) := Held(pollers, identity, now);
            && (found <==> exists i :: 0 <= i < |pollers| && pollers[i].identity == identity)
            && (forall i :: 0 <= i < |pollers| && pollers[i].identity == identity ==> now - pollers[i].lastAccess <= held)
            && (held > 0 ==>
                  exists i :: 0 <= i < |pollers| && pollers[i].identity == identity && now - pollers[i].lastAccess == held)
  {
    if pollers != [] {
      var init, last := pollers[..|pollers| - 1], |pollers| - 1;
      HeldBounds(init, identity, now);
      assert forall i :: 0 <= i < last ==> init[i] == pollers[i];
      var (held, found) := Held(init, identity, now);
      if found {
        var i :| 0 <= i < last && init[i].identity == identity;
        assert pollers[i].identity == identity;
      }
      if held > 0 {
        var i :| 0 <= i < last && init[i].identity == identity && now - init[i].lastAccess == held;
        assert pollers[i].identity == identity && now - pollers[i].lastAccess == held;
      }
      assert pollers[last].identity == identity ==> now - pollers[last].lastAccess <= Held(pollers, identity, now).0;
    }
  }

  /** A truthful response shows our oldest open poll, and some poll just when one is open. */
  lemma HeldIsOldest(polls: set<Poll>, identity: string, o: Observation)
    requires Truthful(o, polls)
    ensures Oldest(polls, identity, o.now, Held(o.pollers, identity, o.now).0)
    ensures Held(o.pollers, identity, o.now).1 <==> exists p :: p in polls && Ours(p, identity, o.now)
  {
    HeldBounds(o.pollers, identity, o.now);
    var (held, found) := Held(o.pollers, identity, o.now);
    forall p | p in polls && Ours(p, identity, o.now)
      ensures o.now - p.start <= held && found
    {
      assert Info(p.identity, p.start) in o.pollers;
      var i :| 0 <= i < |o.pollers| && o.pollers[i] == Info(p.identity, p.start);
    }
    if held > 0 {
      var i :| 0 <= i < |o.pollers| && o.pollers[i].identity == identity && o.now - o.pollers[i].lastAccess == held;
      assert Backed(polls, o.pollers[i], o.now);
    }
    if found {
      var i :| 0 <= i < |o.pollers| && o.pollers[i].identity == identity;
      assert Backed(polls, o.pollers[i], o.now);
    }
  }

  // ----- whole runs

  function Run(identity: string, os: seq<Observation>): State {
    if os == [] then FRESH else Observe(Run(identity, os[..|os| - 1]), identity, os[|os| - 1])
  }

  /** Observations in order of time, each truthful. */
  ghost predicate Possible(os: seq<Observation>, polls: set<Poll>) {
    && (forall i :: 0 <= i < |os| ==> Truthful(os[i], polls))
    && (forall i, j :: 0 <= i < j < |os| ==> os[i].now <= os[j].now)
  }

  predicate EndedEarly(p: Poll, identity: string) {
    p.identity == identity && p.end.Some? && p.end.value - p.start < LONG_POLL
  }

  predicate EndedBy(p: Poll, seen: Option<int>) {
    p.end.Some? && seen.Some? && p.end.value <= seen.value
  }

  lemma {:induction false} SeenBefore(identity: string, os: seq<Observation>, polls: set<Poll>, now: int)
    requires Possible(os, polls)
    requires forall i :: 0 <= i < |os| ==> os[i].now <= now
    ensures var s := Run(identity, os);
            s.lastSeen.Some? ==> s.lastSeen.value <= now && Oldest(polls, identity, s.lastSeen.value, s.lastHeld)
    ensures Run(identity, os).lastSeen.None? ==> Run(identity, os).truncations == 0
  {
    if os != [] {
      var last := os[|os| - 1];
      SeenBefore(identity, os[..|os| - 1], polls, last.now);
      HeldIsOldest(polls, identity, last);
    }
  }

  /** When a truncation is counted, the poll last seen oldest has since ended early. */
  lemma OldestWasTruncated(polls: set<Poll>, identity: string, s: State, o: Observation) returns (p: Poll)
    requires s.lastSeen.Some? && s.lastSeen.value <= o.now && Oldest(polls, identity, s.lastSeen.value, s.lastHeld)
    requires Truthful(o, polls)
    requires Observe(s, identity, o).truncations > s.truncations
    ensures p in polls && EndedEarly(p, identity)
    ensures s.lastSeen.value < p.end.value <= o.now
  {
    HeldIsOldest(polls, identity, o);
    p :| p in polls && Ours(p, identity, s.lastSeen.value) && s.lastSeen.value - p.start == s.lastHeld;
    assert !Ours(p, identity, o.now);
  }

  /**
   Every counted truncation is charged to a poll of ours that really ended
   before the long poll could have run out, a different one each time.
   */
  lemma {:induction false} TruncationsAreReal(identity: string, os: seq<Observation>, polls: set<Poll>)
    returns (charged: set<Poll>)
    requires Possible(os, polls)
    ensures charged <= polls && |charged| == Run(identity, os).truncations
    ensures forall p :: p in charged ==> EndedEarly(p, identity)
    ensures forall p :: p in charged ==> EndedBy(p, Run(identity, os).lastSeen)
  {
    if os == [] {
      charged := {};
    } else {
      var init, last := os[..|os| - 1], os[|os| - 1];
      charged := TruncationsAreReal(identity, init, polls);
      var s := Run(identity, init);
      SeenBefore(identity, init, polls, last.now);
      if Observe(s, identity, last).truncations > s.truncations {
        var p := OldestWasTruncated(polls, identity, s, last);
        assert p !in charged;
        charged := charged + {p};
      }
    }
  }

  /** So there are never more truncations than polls cut short. */
  lemma NeverMoreThanCutShort(identity: string, os: seq<Observation>, polls: set<Poll>)
    requires Possible(os, polls)
    ensures Run(identity, os).truncations <= |set p | p in polls && EndedEarly(p, identity)|
  {
    var charged := TruncationsAreReal(identity, os, polls);
    SubsetIsSmaller(charged, set p | p in polls && EndedEarly(p, identity));
  }

  lemma {:induction false} SubsetIsSmaller(a: set<Poll>, b: set<Poll>)
    requires a <= b
    ensures |a| <= |b|
  {
    if a != {} {
      var p :| p in a;
      SubsetIsSmaller(a - {p}, b - {p});
    }
  }

  /** The oldest poll last seen is still open just when the oldest now is older by the time that passed. */
  lemma StillOpenIffAged(polls: set<Poll>, identity: string, seen: int, lastHeld: int, o: Observation)
    requires seen <= o.now && lastHeld > 0 && Oldest(polls, identity, seen, lastHeld) && Truthful(o, polls)
    ensures var held := Held(o.pollers, identity, o.now).0;
            && held <= lastHeld + (o.now - seen)
            && (held == lastHeld + (o.now - seen) <==>
                exists p :: p in polls && Ours(p, identity, seen) && seen - p.start == lastHeld && OpenAt(p, o.now))
  {
    HeldIsOldest(polls, identity, o);
    var held := Held(o.pollers, identity, o.now).0;
    if held > 0 {
      var q :| q in polls && Ours(q, identity, o.now) && o.now - q.start == held;
      if q.start <= seen {
        assert Ours(q, identity, seen);
      }
    }
    if p :| p in polls && Ours(p, identity, seen) && seen - p.start == lastHeld && OpenAt(p, o.now) {
      assert Ours(p, identity, o.now);
    }
  }

  /** A poll of ours that was the oldest at seen. */
  predicate SeenOldest(p: Poll, identity: string, seen: int, lastHeld: int) {
    Ours(p, identity, seen) && seen - p.start == lastHeld
  }

  /** Every poll that was the oldest when last seen has ended early, and the code's arithmetic can tell. */
  ghost predicate CertainlyCut(polls: set<Poll>, identity: string, seen: int, lastHeld: int, now: int) {
    && lastHeld > 0 && lastHeld + (now - seen) < LONG_POLL
    && forall p :: p in polls && SeenOldest(p, identity, seen, lastHeld) ==> !OpenAt(p, now)
  }

  /** A poll of ours open now that is as old as the oldest was. */
  predicate AsOld(p: Poll, identity: string, lastHeld: int, now: int) {
    Ours(p, identity, now) && now - p.start >= lastHeld
  }

  /**
   A certain truncation goes uncounted if and only if no poll of ours is open
   to be seen, or one is open that is already as old as the one cut short was.
   */
  lemma UncountedIff(polls: set<Poll>, identity: string, s: State, o: Observation)
    requires s.lastSeen.Some? && s.lastSeen.value <= o.now
    requires Oldest(polls, identity, s.lastSeen.value, s.lastHeld) && Truthful(o, polls)
    requires CertainlyCut(polls, identity, s.lastSeen.value, s.lastHeld, o.now)
    ensures Observe(s, identity, o).truncations == s.truncations <==>
            || (forall p :: p in polls ==> !Ours(p, identity, o.now))
            || (exists p :: p in polls && AsOld(p, identity, s.lastHeld, o.now))
  {
    HeldIsOldest(polls, identity, o);
    var held := Held(o.pollers, identity, o.now).0;
    if held >= s.lastHeld {
      var p :| p in polls && Ours(p, identity, o.now) && o.now - p.start == held;
      assert AsOld(p, identity, s.lastHeld, o.now);
    }
  }

  /** What is counted is certain: at a count, every poll that was the oldest when last seen has ended early. */
  lemma CountedIsCertain(polls: set<Poll>, identity: string, s: State, o: Observation)
    requires s.lastSeen.Some? && s.lastSeen.value <= o.now
    requires Oldest(polls, identity, s.lastSeen.value, s.lastHeld) && Truthful(o, polls)
    requires Observe(s, identity, o).truncations > s.truncations
    ensures CertainlyCut(polls, identity, s.lastSeen.value, s.lastHeld, o.now)
  {
    HeldIsOldest(polls, identity, o);
    forall p | p in polls && SeenOldest(p, identity, s.lastSeen.value, s.lastHeld)
      ensures !OpenAt(p, o.now)
    {
      assert OpenAt(p, o.now) ==> Ours(p, identity, o.now);
    }
  }

  // ----- the state and the count, read off the observations

  /** The observation lists one of our pollers. */
  predicate Lists(o: Observation, identity: string) {
    exists i :: 0 <= i < |o.pollers| && o.pollers[i].identity == identity
  }

  /** age is the longest age of our pollers in the observation, 0 if none is older. */
  ghost predicate LongestAge(o: Observation, identity: string, age: int) {
    && age >= 0
    && (forall i :: 0 <= i < |o.pollers| && o.pollers[i].identity == identity ==> o.now - o.pollers[i].lastAccess <= age)
    && (age > 0 ==> exists i :: 0 <= i < |o.pollers| && o.pollers[i].identity == identity
                                && o.now - o.pollers[i].lastAccess == age)
  }

  /** The j-th is the last observation before the n-th that lists one of our pollers. */
  ghost predicate LastListing(identity: string, os: seq<Observation>, n: nat, j: nat)
    requires n <= |os|
  {
    j < n && Lists(os[j], identity) && forall m :: j < m < n ==> !Lists(os[m], identity)
  }

  lemma HeldIsLongest(o: Observation, identity: string)
    ensures var (held, found) := Held(o.pollers, identity, o.now);
            (found <==> Lists(o, identity)) && LongestAge(o, identity, held)
    ensures forall age :: LongestAge(o, identity, age) ==> age == Held(o.pollers, identity, o.now).0
  {
    HeldBounds(o.pollers, identity, o.now);
  }

  /**
   In every run, whatever the responses say: what is remembered is the time of
   the last observation that listed one of our pollers, and the longest age then.
   */
  lemma {:induction false} RemembersLastListing(identity: string, os: seq<Observation>)
    ensures Run(identity, os).lastSeen.None? <==> forall m :: 0 <= m < |os| ==> !Lists(os[m], identity)
    ensures forall j: nat :: LastListing(identity, os, |os|, j) ==>
              Run(identity, os).lastSeen == Some(os[j].now) && LongestAge(os[j], identity, Run(identity, os).lastHeld)
  {
    if os != [] {
      var init, last := os[..|os| - 1], |os| - 1;
      RemembersLastListing(identity, init);
      HeldIsLongest(os[last], identity);
      assert forall m :: 0 <= m < last ==> init[m] == os[m];
      forall j: nat | LastListing(identity, os, |os|, j)
        ensures Run(identity, os).lastSeen == Some(os[j].now)
        ensures LongestAge(os[j], identity, Run(identity, os).lastHeld)
      {
        if !Lists(os[last], identity) {
          assert LastListing(identity, init, last, j);
        }
      }
    }
  }

  lemma {:induction false} SomeLastListing(identity: string, os: seq<Observation>, n: nat) returns (j: nat)
    requires n <= |os| && exists m :: 0 <= m < n && Lists(os[m], identity)
    ensures LastListing(identity, os, n, j)
  {
    if Lists(os[n - 1], identity) {
      j := n - 1;
    } else {
      j := SomeLastListing(identity, os, n - 1);
    }
  }

  /** The n-th observation has to count: the longest age fell, and the one before cannot have reached the long poll. */
  ghost predicate Falls(identity: string, os: seq<Observation>, n: nat)
    requires n < |os|
  {
    Lists(os[n], identity) &&
    exists j: nat, before, now :: LastListing(identity, os, n, j) && FallsFrom(identity, os[j], os[n], before, now)
  }

  ghost predicate FallsFrom(identity: string, earlier: Observation, later: Observation, before: int, now: int) {
    && LongestAge(earlier, identity, before) && LongestAge(later, identity, now)
    && now < before && before + (later.now - earlier.now) < 60_000_000_000
  }

  /** The indices of the observations that have to count. */
  ghost function Falling(identity: string, os: seq<Observation>, n: nat): set<nat>
    requires n <= |os|
  {
    set m: nat | m < n && Falls(identity, os, m)
  }

  /** Falls, said of the last listing before and the two longest ages. */
  lemma FallsWhen(identity: string, os: seq<Observation>, n: nat, j: nat, before: int, now: int)
    requires n < |os| && LastListing(identity, os, n, j) && Lists(os[n], identity)
    requires LongestAge(os[j], identity, before) && LongestAge(os[n], identity, now)
    ensures Falls(identity, os, n) <==> now < before && before + (os[n].now - os[j].now) < 60_000_000_000
  {
    HeldIsLongest(os[j], identity);
    HeldIsLongest(os[n], identity);
    if now < before && before + (os[n].now - os[j].now) < 60_000_000_000 {
      assert FallsFrom(identity, os[j], os[n], before, now);
    }
    if Falls(identity, os, n) {
      var k: nat, b, a :| LastListing(identity, os, n, k) && FallsFrom(identity, os[k], os[n], b, a);
      assert k == j && b == before && a == now;
    }
  }

  lemma CountsWhenFalling(identity: string, os: seq<Observation>)
    requires os != []
    ensures var init, n := os[..|os| - 1], |os| - 1;
            Run(identity, os).truncations == Run(identity, init).truncations + if Falls(identity, os, n) then 1 else 0
  {
    var init, n := os[..|os| - 1], |os| - 1;
    RemembersLastListing(identity, init);
    HeldIsLongest(os[n], identity);
    assert forall m :: 0 <= m < n ==> init[m] == os[m];
    if Run(identity, init).lastSeen.Some? {
      var j := SomeLastListing(identity, init, n);
      assert LastListing(identity, os, n, j);
      if Lists(os[n], identity) {
        FallsWhen(identity, os, n, j, Run(identity, init).lastHeld, Held(os[n].pollers, identity, os[n].now).0);
      }
    }
  }

  lemma FallsInPrefix(identity: string, os: seq<Observation>, n: nat, m: nat)
    requires m < n <= |os|
    ensures Falls(identity, os[..n], m) <==> Falls(identity, os, m)
  {
    forall j: nat
      ensures LastListing(identity, os[..n], m, j) <==> LastListing(identity, os, m, j)
    {
      assert forall i :: 0 <= i <= m ==> os[..n][i] == os[i];
    }
    if Falls(identity, os, m) {
      var j: nat, before, now :| LastListing(identity, os, m, j) && FallsFrom(identity, os[j], os[m], before, now);
      assert LastListing(identity, os[..n], m, j) && FallsFrom(identity, os[..n][j], os[..n][m], before, now);
    }
    if Falls(identity, os[..n], m) {
      var j: nat, before, now :| LastListing(identity, os[..n], m, j) && FallsFrom(identity, os[..n][j], os[..n][m], before, now);
      assert LastListing(identity, os, m, j) && FallsFrom(identity, os[j], os[m], before, now);
    }
  }

  lemma FallingOneMore(identity: string, os: seq<Observation>)
    requires os != []
    ensures var n := |os| - 1;
            |Falling(identity, os, |os|)| == |Falling(identity, os[..n], n)| + if Falls(identity, os, n) then 1 else 0
  {
    var n := |os| - 1;
    var earlier, all := Falling(identity, os[..n], n), Falling(identity, os, |os|);
    forall m: nat
      ensures m in all <==> m in earlier || (m == n && Falls(identity, os, n))
    {
      if m < n {
        FallsInPrefix(identity, os, n, m);
      }
    }
    assert all == earlier + if Falls(identity, os, n) then {n} else {};
  }

  /** In every run the truncations are exactly the observations that have to count. */
  lemma {:induction false} TruncationsAreFalls(identity: string, os: seq<Observation>)
    ensures Run(identity, os).truncations == |Falling(identity, os, |os|)|
  {
    if os != [] {
      var init, n := os[..|os| - 1], |os| - 1;
      TruncationsAreFalls(identity, init);
      CountsWhenFalling(identity, os);
      FallingOneMore(identity, os);
    }
  }

  /**
   Among the polls that took place: an observation counts if and only if, since
   the last one that showed any of ours, the oldest poll was certainly cut
   short, a poll of ours is open now, and none open now is as old as it was.
   */
  lemma CountsIff(identity: string, os: seq<Observation>, polls: set<Poll>, n: nat, j: nat, age: int)
    requires Possible(os, polls) && n < |os|
    requires LastListing(identity, os, n, j) && Oldest(polls, identity, os[j].now, age) && age >= 0
    ensures Falls(identity, os, n) <==>
            && CertainlyCut(polls, identity, os[j].now, age, os[n].now)
            && (exists p :: p in polls && Ours(p, identity, os[n].now))
            && !(exists p :: p in polls && AsOld(p, identity, age, os[n].now))
  {
    var s := State(age, Some(os[j].now), 0);
    assert Truthful(os[j], polls) && Truthful(os[n], polls);
    HeldIsOldest(polls, identity, os[j]);
    HeldIsLongest(os[j], identity);
    HeldIsLongest(os[n], identity);
    OneOldest(polls, identity, os[j].now, age, Held(os[j].pollers, identity, os[j].now).0);
    var held := Held(os[n].pollers, identity, os[n].now).0;
    if Falls(identity, os, n) {
      var k: nat, before, now :| LastListing(identity, os, n, k) && FallsFrom(identity, os[k], os[n], before, now);
      assert k == j && before == age && now == held;
      CountedIsCertain(polls, identity, s, os[n]);
    } else if Observe(s, identity, os[n]).truncations > 0 {
      assert FallsFrom(identity, os[j], os[n], age, held);
    }
    if CertainlyCut(polls, identity, os[j].now, age, os[n].now) {
      UncountedIff(polls, identity, s, os[n]);
    }
  }

  lemma OneOldest(polls: set<Poll>, identity: string, now: int, a: int, b: int)
    requires Oldest(polls, identity, now, a) && Oldest(polls, identity, now, b) && a >= 0 && b >= 0
    ensures a == b
  {
  }

  /** For example, the next poll may be seen older than the one cut short was. */
  lemma CertainButNotCounted(identity: string)
    ensures var cut := Poll(0, identity, 0, Some(10 * SECOND));
            var next := Poll(1, identity, 20 * SECOND, None);
            var os := [Observation([Info(identity, 0)], 5 * SECOND),
                       Observation([Info(identity, 20 * SECOND)], 40 * SECOND)];
            Possible(os, {cut, next}) && EndedEarly(cut, identity) && Run(identity, os).truncations == 0
  {
    var cut, next := Poll(0, identity, 0, Some(10 * SECOND)), Poll(1, identity, 20 * SECOND, None);
    var first := Observation([Info(identity, 0)], 5 * SECOND);
    var second := Observation([Info(identity, 20 * SECOND)], 40 * SECOND);
    assert Ours(cut, identity, 5 * SECOND) && Ours(next, identity, 40 * SECOND);
    assert first.pollers[0] == Info(identity, 0) && second.pollers[0] == Info(identity, 20 * SECOND);
    assert Backed({cut, next}, first.pollers[0], first.now) && Backed({cut, next}, second.pollers[0], second.now);
    assert Truthful(first, {cut, next}) && Truthful(second, {cut, next});
    assert first.pollers[..0] == [] && second.pollers[..0] == [];
    assert Held(first.pollers, identity, 5 * SECOND) == (5 * SECOND, true);
    assert Held(second.pollers, identity, 40 * SECOND) == (20 * SECOND, true);
    assert [first, second][..1] == [first] && [first][..0] == [];
    assert Run(identity, [first]) == State(5 * SECOND, Some(5 * SECOND), 0);
  }

  /** Or none of ours may be open when looked for, until it is too late to tell. */
  lemma NotFoundAndNotCounted(identity: string)
    ensures var cut := Poll(0, identity, 0, Some(10 * SECOND));
            var next := Poll(1, identity, 70 * SECOND, None);
            var os := [Observation([Info(identity, 0)], 5 * SECOND),
                       Observation([], 30 * SECOND),
                       Observation([Info(identity, 70 * SECOND)], 71 * SECOND)];
            && Possible(os, {cut, next}) && EndedEarly(cut, identity)
            && CertainlyCut({cut, next}, identity, 5 * SECOND, 5 * SECOND, 30 * SECOND)
            && Run(identity, os).truncations == 0
  {
    var cut, next := Poll(0, identity, 0, Some(10 * SECOND)), Poll(1, identity, 70 * SECOND, None);
    var first, third := Observation([Info(identity, 0)], 5 * SECOND), Observation([Info(identity, 70 * SECOND)], 71 * SECOND);
    var second := Observation([], 30 * SECOND);
    assert Ours(cut, identity, 5 * SECOND) && Ours(next, identity, 71 * SECOND);
    assert first.pollers[0] == Info(identity, 0) && third.pollers[0] == Info(identity, 70 * SECOND);
    assert Backed({cut, next}, first.pollers[0], first.now) && Backed({cut, next}, third.pollers[0], third.now);
    assert Truthful(first, {cut, next}) && Truthful(second, {cut, next}) && Truthful(third, {cut, next});
    assert first.pollers[..0] == [] && third.pollers[..0] == [];
    assert Held(first.pollers, identity, 5 * SECOND) == (5 * SECOND, true);
    assert [first, second, third][..2] == [first, second] && [first, second][..1] == [first] && [first][..0] == [];
    assert Run(identity, [first]) == State(5 * SECOND, Some(5 * SECOND), 0);
    assert Run(identity, [first, second]) == State(5 * SECOND, Some(5 * SECOND), 0);
  }
}
