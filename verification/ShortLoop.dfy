/**
 The short-connection loop: one connection every ten seconds, each booked by
 several separately locked aggregator calls between which anything may happen.
 */
module ShortLoop {
  import opened Prelude
  import opened Summaries
  import opened Aggregator
  import opened AggregatorHistory

  /** One short connection; outcome is None on success, cert and phase are set for the classes that have one. */
  datatype Connection = Connection(connect: int, handshake: int, outcome: Option<Class>, cert: Cert, phase: Phase)

  // ----- lost SYNs

  /** The initial SYN is repeated after about a second, and again after three in total. */
  const SYN_RETRANS_AFTER: seq<int> := [1 * SECOND, 3 * SECOND]

  function SynRetransOf(connect: int): nat {
    if connect < 1 * SECOND then 0 else if connect < 3 * SECOND then 1 else 2
  }

  method SynRetrans(connect: int) returns (n: nat)
    ensures n == SynRetransOf(connect)
  {
    n := 0;
    for i := 0 to |SYN_RETRANS_AFTER|
      invariant n == Min(SynRetransOf(connect), i)
    {
      if connect >= SYN_RETRANS_AFTER[i] {
        n := n + 1;
      }
    }
  }

  // ----- the calls of one connection

  /** A hostname alternates between sending itself as SNI and sending none; a bare IP never sends any. */
  predicate SendSNI(t: Target, i: nat) {
    !t.BareIP() && i % 2 == 0
  }

  function VariantOf(t: Target, i: nat): Variant {
    if SendSNI(t, i) then HostSni else NoSni
  }

  function OutcomeRecords(c: Connection): seq<Record> {
    match c.outcome
    case None => [ShortDone(c.connect, c.handshake, SynRetransOf(c.connect))]
    case Some(Intercepted) => [ShortDone(c.connect, c.handshake, SynRetransOf(c.connect)), BadCert(c.cert)]
    case Some(cause) => [Failed(cause)]
  }

  /** What one connection adds to its bucket. */
  function Records(t: Target, i: nat, c: Connection): seq<Record> {
    SniRecords(t, i, c) + (if c.outcome == Some(ConnReset) then [ResetIn(c.phase)] else []) + OutcomeRecords(c)
  }

  function SniRecords(t: Target, i: nat, c: Connection): seq<Record> {
    if t.BareIP() then [] else [SniOutcome(VariantOf(t, i), c.outcome)]
  }

  function Notes(t: Target, rs: seq<Record>): seq<Op> {
    seq(|rs|, i requires 0 <= i < |rs| => Note(t, Short, rs[i]))
  }

  /** The locked regions of one connection, in order. */
  function Calls(t: Target, i: nat, c: Connection): seq<Op> {
    Notes(t, Records(t, i, c)) + Marks(t, c)
  }

  function Marks(t: Target, c: Connection): seq<Op> {
    if c.outcome == Some(Intercepted) then [Fingerprint(t, c.cert.fingerprint)] else []
  }

  lemma OneMoreNote(t: Target, rs: seq<Record>, r: Record, s: State)
    ensures Steps(s, Notes(t, rs + [r])) == Step(Steps(s, Notes(t, rs)), Note(t, Short, r))
  {
    assert Notes(t, rs + [r])[..|rs|] == Notes(t, rs);
  }

  lemma LastTwoCalls(s: State, ops: seq<Op>, a: Op, b: Op)
    ensures Steps(Steps(s, ops), [a, b]) == Steps(s, ops + [a] + [b])
  {
    var mid := Steps(s, ops);
    assert [a, b][..1] == [a] && [a][..0] == [];
    assert Steps(mid, [a]) == Step(mid, a);
    assert (ops + [a] + [b])[..|ops| + 1] == ops + [a] && (ops + [a])[..|ops|] == ops;
  }

  /** Books the i-th connection; news asks for an interception event. */
  method BookConnection(agg: Agg, t: Target, i: nat, c: Connection) returns (news: bool)
    requires Valid(agg.View())
    modifies agg
    ensures agg.View() == Steps(old(agg.View()), Calls(t, i, c))
    ensures Valid(agg.View())
    ensures news <==> c.outcome == Some(Intercepted)
                      && !(t in old(agg.lastFP) && old(agg.lastFP)[t] == c.cert.fingerprint)
  {
    ghost var start := agg.View();
    if !t.BareIP() {
      agg.With(t, Short, SniOutcome(VariantOf(t, i), c.outcome));
      OneMoreNote(t, [], SniOutcome(VariantOf(t, i), c.outcome), start);
    }
    ghost var done := SniRecords(t, i, c);
    assert done == if t.BareIP() then [] else [] + [SniOutcome(VariantOf(t, i), c.outcome)];
    if c.outcome == Some(ConnReset) {
      agg.With(t, Short, ResetIn(c.phase));
      OneMoreNote(t, done, ResetIn(c.phase), start);
      done := done + [ResetIn(c.phase)];
    }
    news := BookOutcome(agg, t, c, start, done);
    assert done + OutcomeRecords(c) == Records(t, i, c);
  }

  method BookOutcome(agg: Agg, t: Target, c: Connection, ghost start: State, ghost done: seq<Record>)
    returns (news: bool)
    requires Valid(agg.View()) && agg.View() == Steps(start, Notes(t, done))
    modifies agg
    ensures agg.View() == Steps(start, Notes(t, done + OutcomeRecords(c)) + Marks(t, c))
    ensures Valid(agg.View())
    ensures news <==> c.outcome == Some(Intercepted)
                      && !(t in old(agg.lastFP) && old(agg.lastFP)[t] == c.cert.fingerprint)
  {
    if c.outcome.Some? && c.outcome.value != Intercepted {
      agg.With(t, Short, Failed(c.outcome.value));
      OneMoreNote(t, done, Failed(c.outcome.value), start);
      assert Notes(t, done + OutcomeRecords(c)) + Marks(t, c) == Notes(t, done + [Failed(c.outcome.value)]);
      return false;
    }
    // An intercepted handshake still took real time.
    var lost := SynRetrans(c.connect);
    ghost var timed := done + [ShortDone(c.connect, c.handshake, lost)];
    agg.With(t, Short, ShortDone(c.connect, c.handshake, lost));
    OneMoreNote(t, done, ShortDone(c.connect, c.handshake, lost), start);
    if c.outcome.None? {
      assert Notes(t, done + OutcomeRecords(c)) + Marks(t, c) == Notes(t, timed);
      return false;
    }
    news := agg.NoteInterception(t, Short, c.cert);
    LastTwoCalls(start, Notes(t, timed), Note(t, Short, BadCert(c.cert)), Fingerprint(t, c.cert.fingerprint));
    assert Notes(t, done + OutcomeRecords(c)) + Marks(t, c)
        == Notes(t, timed) + [Note(t, Short, BadCert(c.cert))] + [Fingerprint(t, c.cert.fingerprint)];
  }

  // ----- the loop, interleaved with everything else

  /** The records of the first connections, in order. */
  function LoopRecords(t: Target, cs: seq<Connection>): seq<Record> {
    if cs == [] then []
    else
      LoopRecords(t, cs[..|cs| - 1]) + Records(t, |cs| - 1, cs[|cs| - 1])
  }

  /** Every record about k any thread brought, accepted or not. */
  function Brought(h: History, k: Key): seq<Record> {
    match h
    case Start => []
    case Then(past, Note(t, mode, record)) =>
      Brought(past, k) + if Key(t, mode) == k then [record] else []
    case Then(past, _) => Brought(past, k)
  }

  /** k's target was registered for k's mode whenever a record about k arrived. */
  ghost predicate Attended(h: History, k: Key) {
    match h
    case Start => true
    case Then(past, Note(t, mode, _)) => Attended(past, k) && (Key(t, mode) == k ==> Open(past, k))
    case Then(past, _) => Attended(past, k)
  }

  lemma {:induction false} AttendedAccepts(h: History, k: Key)
    requires Attended(h, k)
    ensures Accepted(h, k) == Brought(h, k)
  {
    if h.Then? {
      AttendedAccepts(h.past, k);
    }
  }

  // ----- pairs of counters that are meant to agree

  datatype Book = SampleBook | FailureBook(cause: Class) | ResetBook

  /** How far one record puts the first side of a book ahead of the second. */
  function Tilt(b: Book, r: Record): int {
    match b
    case SampleBook =>
      if r.SniOutcome? then 1
      else if r.ShortDone? || r.Connected? || r.Pong? || r.LostPong? || r.Failed? then -1 else 0
    case FailureBook(cause) =>
      if r.SniOutcome? then One(r.outcome == Some(cause))
      else if r == Failed(cause) || (r.BadCert? && cause == Intercepted) then -1 else 0
    case ResetBook =>
      if r.ResetIn? then 1 else if r == Failed(ConnReset) then -1 else 0
  }

  function Ahead(b: Book, rs: seq<Record>): int {
    if rs == [] then 0 else Ahead(b, rs[..|rs| - 1]) + Tilt(b, rs[|rs| - 1])
  }

  /** A counter's total over all minutes, the current one included. */
  function Grand(h: History, k: Key, c: Counter): nat {
    Total(Outputs(h), k, c) + Current(h, k, c)
  }

  function Imbalance(h: History, k: Key, b: Book): int {
    match b
    case SampleBook => Grand(h, k, SniSamples(HostSni)) + Grand(h, k, SniSamples(NoSni)) - Grand(h, k, Samples)
    case FailureBook(cause) =>
      Grand(h, k, SniFailures(HostSni, cause)) + Grand(h, k, SniFailures(NoSni, cause)) - Grand(h, k, Failures(cause))
    case ResetBook =>
      Grand(h, k, Resets(Hello)) + Grand(h, k, Resets(Transfer)) + Grand(h, k, Resets(IdlePhase))
      + Grand(h, k, Resets(NoPhase)) - Grand(h, k, Failures(ConnReset))
  }

  function Difference(b: Book, rs: seq<Record>): int {
    match b
    case SampleBook =>
      Sum(Short, rs, SniSamples(HostSni)) + Sum(Short, rs, SniSamples(NoSni)) - Sum(Short, rs, Samples)
    case FailureBook(cause) =>
      Sum(Short, rs, SniFailures(HostSni, cause)) + Sum(Short, rs, SniFailures(NoSni, cause))
      - Sum(Short, rs, Failures(cause))
    case ResetBook =>
      Sum(Short, rs, Resets(Hello)) + Sum(Short, rs, Resets(Transfer)) + Sum(Short, rs, Resets(IdlePhase))
      + Sum(Short, rs, Resets(NoPhase)) - Sum(Short, rs, Failures(ConnReset))
  }

  lemma {:induction false} DifferenceOneMore(b: Book, rs: seq<Record>, r: Record)
    ensures Difference(b, rs + [r]) == Difference(b, rs) + Tilt(b, r)
  {
    match b
    case SampleBook =>
      SumOneMore(Short, rs, r, SniSamples(HostSni));
      SumOneMore(Short, rs, r, SniSamples(NoSni));
      SumOneMore(Short, rs, r, Samples);
      assert r.SniOutcome? ==> r.variant.HostSni? || r.variant.NoSni?;
    case FailureBook(cause) =>
      SumOneMore(Short, rs, r, SniFailures(HostSni, cause));
      SumOneMore(Short, rs, r, SniFailures(NoSni, cause));
      SumOneMore(Short, rs, r, Failures(cause));
      assert r.SniOutcome? ==> r.variant.HostSni? || r.variant.NoSni?;
    case ResetBook =>
      SumOneMore(Short, rs, r, Resets(Hello));
      SumOneMore(Short, rs, r, Resets(Transfer));
      SumOneMore(Short, rs, r, Resets(IdlePhase));
      SumOneMore(Short, rs, r, Resets(NoPhase));
      SumOneMore(Short, rs, r, Failures(ConnReset));
      assert r.ResetIn? ==> r.phase.Hello? || r.phase.Transfer? || r.phase.IdlePhase? || r.phase.NoPhase?;
  }

  lemma {:induction false} AheadIsDifference(b: Book, rs: seq<Record>)
    ensures Ahead(b, rs) == Difference(b, rs)
  {
    if rs != [] {
      var init := rs[..|rs| - 1];
      AheadIsDifference(b, init);
      DifferenceOneMore(b, init, rs[|rs| - 1]);
      assert rs == init + [rs[|rs| - 1]];
    }
  }

  lemma {:induction false} AheadJoin(b: Book, x: seq<Record>, y: seq<Record>)
    ensures Ahead(b, x + y) == Ahead(b, x) + Ahead(b, y)
  {
    if y == [] {
      assert x + y == x;
    } else {
      AheadJoin(b, x, y[..|y| - 1]);
      assert (x + y)[..|x + y| - 1] == x + y[..|y| - 1];
    }
  }

  lemma ImbalanceIsAhead(h: History, t: Target, b: Book)
    requires Attended(h, Key(t, Short))
    ensures Imbalance(h, Key(t, Short), b) == Ahead(b, Brought(h, Key(t, Short)))
  {
    var k := Key(t, Short);
    AttendedAccepts(h, k);
    AheadIsDifference(b, Brought(h, k));
    forall c: Counter
      ensures Grand(h, k, c) == Sum(Short, Brought(h, k), c)
    {
      NothingLostOrCountedTwice(h, k, c);
    }
  }

  // ----- one connection keeps the books

  /** Books that hold for t: a bare IP has no SNI records, so only its resets can be compared. */
  predicate Kept(t: Target, b: Book) { !t.BareIP() || b.ResetBook? }

  lemma AheadOneMore(b: Book, rs: seq<Record>, n: nat)
    requires n < |rs|
    ensures Ahead(b, rs[..n + 1]) == Ahead(b, rs[..n]) + Tilt(b, rs[n])
  {
    assert rs[..n + 1][..n] == rs[..n];
  }

  lemma BlockBalances(t: Target, i: nat, c: Connection, b: Book, n: nat)
    requires Kept(t, b) && n <= |Records(t, i, c)|
    ensures 0 <= Ahead(b, Records(t, i, c)[..n]) <= 1
    ensures n == |Records(t, i, c)| ==> Ahead(b, Records(t, i, c)[..n]) == 0
  {
    var block := Records(t, i, c);
    BlockTilts(t, i, c, b);
    AheadOfShort(b, block, n);
  }

  /** Partial sums of a short block. */
  lemma AheadOfShort(b: Book, rs: seq<Record>, n: nat)
    requires n <= |rs| <= 3
    ensures Ahead(b, rs[..n]) == (if n > 0 then Tilt(b, rs[0]) else 0) + (if n > 1 then Tilt(b, rs[1]) else 0)
                                 + (if n > 2 then Tilt(b, rs[2]) else 0)
  {
    assert rs[..0] == [];
    if n > 0 {
      AheadOneMore(b, rs, 0);
    }
    if n > 1 {
      AheadOneMore(b, rs, 1);
    }
    if n > 2 {
      AheadOneMore(b, rs, 2);
    }
  }

  lemma BlockTilts(t: Target, i: nat, c: Connection, b: Book)
    requires Kept(t, b)
    ensures var rs := Records(t, i, c);
            && 1 <= |rs| <= 3
            && 0 <= Tilt(b, rs[0]) <= 1
            && (|rs| > 1 ==> 0 <= Tilt(b, rs[0]) + Tilt(b, rs[1]) <= 1)
            && (if |rs| == 1 then Tilt(b, rs[0]) == 0
                else if |rs| == 2 then Tilt(b, rs[0]) + Tilt(b, rs[1]) == 0
                else Tilt(b, rs[0]) + Tilt(b, rs[1]) + Tilt(b, rs[2]) == 0)
  {
  }

  lemma {:induction false} LoopBalances(t: Target, cs: seq<Connection>, b: Book)
    requires Kept(t, b)
    ensures Ahead(b, LoopRecords(t, cs)) == 0
  {
    if cs != [] {
      var init, last := cs[..|cs| - 1], |cs| - 1;
      LoopBalances(t, init, b);
      var block := Records(t, last, cs[last]);
      assert block[..|block|] == block;
      BlockBalances(t, last, cs[last], b, |block|);
      AheadJoin(b, LoopRecords(t, init), block);
    }
  }

  lemma {:induction false} PrefixBalances(t: Target, cs: seq<Connection>, rs: seq<Record>, b: Book)
    requires Kept(t, b) && rs <= LoopRecords(t, cs)
    ensures 0 <= Ahead(b, rs) <= 1
  {
    if cs != [] {
      var init, last := cs[..|cs| - 1], |cs| - 1;
      var before := LoopRecords(t, init);
      if |rs| <= |before| {
        assert rs <= before;
        PrefixBalances(t, init, rs, b);
      } else {
        var n := |rs| - |before|;
        var block := Records(t, last, cs[last]);
        assert rs == before + block[..n];
        LoopBalances(t, init, b);
        BlockBalances(t, last, cs[last], b, n);
        AheadJoin(b, before, block[..n]);
      }
    }
  }

  /**
   However flushes and other threads fall between the loop's calls, the SNI
   split never runs more than one connection ahead of the totals, class by
   class, nor the resets ahead of the reset failures.
   */
  lemma SplitNeverRunsAhead(h: History, t: Target, cs: seq<Connection>, b: Book)
    requires Attended(h, Key(t, Short)) && Kept(t, b)
    requires Brought(h, Key(t, Short)) <= LoopRecords(t, cs)
    ensures 0 <= Imbalance(h, Key(t, Short), b) <= 1
  {
    ImbalanceIsAhead(h, t, b);
    PrefixBalances(t, cs, Brought(h, Key(t, Short)), b);
  }

  /** Between connections the books agree. */
  lemma SplitAgreesBetweenConnections(h: History, t: Target, cs: seq<Connection>, b: Book)
    requires Attended(h, Key(t, Short)) && Kept(t, b)
    requires Brought(h, Key(t, Short)) == LoopRecords(t, cs)
    ensures Imbalance(h, Key(t, Short), b) == 0
  {
    ImbalanceIsAhead(h, t, b);
    LoopBalances(t, cs, b);
  }

  // ----- what the loop counts, told of the connections

  /** What the i-th connection has to add to a counter. */
  function Adds(t: Target, i: nat, c: Connection, counter: Counter): nat {
    match counter
    case Samples => 1
    case Losses =>
      if c.outcome.Some? && c.outcome.value != Intercepted then 0
      else if c.connect >= 3_000_000_000 then 2
      else if c.connect >= 1_000_000_000 then 1
      else 0
    case Failures(cause) => One(c.outcome == Some(cause))
    case Drops => 0
    case ServerCloses => 0
    case Resets(phase) => One(c.outcome == Some(ConnReset) && c.phase == phase)
    case SniSamples(variant) => One(t.host != t.ip && (variant == HostSni <==> i % 2 == 0))
    case SniFailures(variant, cause) =>
      One(t.host != t.ip && (variant == HostSni <==> i % 2 == 0) && c.outcome == Some(cause))
  }

  function AddsAll(t: Target, cs: seq<Connection>, counter: Counter): nat {
    if cs == [] then 0 else AddsAll(t, cs[..|cs| - 1], counter) + Adds(t, |cs| - 1, cs[|cs| - 1], counter)
  }

  lemma {:induction false} SumOne(r: Record, counter: Counter)
    ensures Sum(Short, [r], counter) == Weight(Short, r, counter)
  {
    SumOneMore(Short, [], r, counter);
    assert [] + [r] == [r];
  }

  lemma {:induction false} OutcomeAdds(c: Connection, counter: Counter)
    ensures Sum(Short, OutcomeRecords(c), counter) ==
            match counter
            case Samples => 1
            case Losses => if c.outcome.None? || c.outcome.value == Intercepted then SynRetransOf(c.connect) else 0
            case Failures(cause) => One(c.outcome == Some(cause))
            case _ => 0
  {
    match c.outcome
    case None => SumOne(OutcomeRecords(c)[0], counter);
    case Some(Intercepted) =>
      var rs := OutcomeRecords(c);
      SumOneMore(Short, [rs[0]], rs[1], counter);
      SumOne(rs[0], counter);
      assert rs == [rs[0]] + [rs[1]];
    case Some(cause) => SumOne(Failed(cause), counter);
  }

  lemma {:induction false} SniAdds(t: Target, i: nat, c: Connection, counter: Counter)
    ensures Sum(Short, SniRecords(t, i, c), counter) ==
            match counter
            case SniSamples(variant) => One(t.host != t.ip && (variant == HostSni <==> i % 2 == 0))
            case SniFailures(variant, cause) =>
              One(t.host != t.ip && (variant == HostSni <==> i % 2 == 0) && c.outcome == Some(cause))
            case _ => 0
  {
    if !t.BareIP() {
      SumOne(SniRecords(t, i, c)[0], counter);
    }
    match counter
    case SniSamples(variant) => assert variant.HostSni? || variant.NoSni?;
    case SniFailures(variant, _) => assert variant.HostSni? || variant.NoSni?;
    case _ =>
  }

  lemma {:induction false} ConnectionAdds(t: Target, i: nat, c: Connection, counter: Counter)
    ensures Sum(Short, Records(t, i, c), counter) == Adds(t, i, c, counter)
  {
    var resets := if c.outcome == Some(ConnReset) then [ResetIn(c.phase)] else [];
    SumJoin(Short, SniRecords(t, i, c) + resets, OutcomeRecords(c), counter);
    SumJoin(Short, SniRecords(t, i, c), resets, counter);
    SniAdds(t, i, c, counter);
    OutcomeAdds(c, counter);
    if resets != [] {
      SumOne(ResetIn(c.phase), counter);
    }
  }

  lemma {:induction false} LoopAdds(t: Target, cs: seq<Connection>, counter: Counter)
    ensures Sum(Short, LoopRecords(t, cs), counter) == AddsAll(t, cs, counter)
  {
    if cs != [] {
      LoopAdds(t, cs[..|cs| - 1], counter);
      SumJoin(Short, LoopRecords(t, cs[..|cs| - 1]), Records(t, |cs| - 1, cs[|cs| - 1]), counter);
      ConnectionAdds(t, |cs| - 1, cs[|cs| - 1], counter);
    }
  }

  /** Over all minutes, and however flushes fall, every counter is what the connections add to it. */
  lemma CountsConnections(h: History, t: Target, cs: seq<Connection>, counter: Counter)
    requires Attended(h, Key(t, Short)) && Brought(h, Key(t, Short)) == LoopRecords(t, cs)
    ensures Grand(h, Key(t, Short), counter) == AddsAll(t, cs, counter)
  {
    AttendedAccepts(h, Key(t, Short));
    NothingLostOrCountedTwice(h, Key(t, Short), counter);
    LoopAdds(t, cs, counter);
  }

  /** A hostname is sent as SNI by every other connection, beginning with the first; a bare IP by none. */
  lemma {:induction false} EveryOtherSendsSNI(t: Target, cs: seq<Connection>)
    ensures AddsAll(t, cs, Samples) == |cs|
    ensures AddsAll(t, cs, SniSamples(HostSni)) == if t.host == t.ip then 0 else (|cs| + 1) / 2
    ensures AddsAll(t, cs, SniSamples(NoSni)) == if t.host == t.ip then 0 else |cs| / 2
  {
    if cs != [] {
      EveryOtherSendsSNI(t, cs[..|cs| - 1]);
    }
  }

  predicate GotThrough(c: Connection) { c.outcome.None? || c.outcome == Some(Intercepted) }

  /** The connect times, in milliseconds, of the connections that got through, intercepted ones included. */
  function ConnectsOf(cs: seq<Connection>): seq<real> {
    if cs == [] then []
    else
      var c := cs[|cs| - 1];
      ConnectsOf(cs[..|cs| - 1]) + if GotThrough(c) then [c.connect as real / 1_000_000.0] else []
  }

  function HandshakesOf(cs: seq<Connection>): seq<real> {
    if cs == [] then []
    else
      var c := cs[|cs| - 1];
      HandshakesOf(cs[..|cs| - 1]) + if GotThrough(c) then [c.handshake as real / 1_000_000.0] else []
  }

  lemma {:induction false} TimesOneMore(rs: seq<Record>, r: Record)
    ensures ConnectTimes(rs + [r]) == ConnectTimes(rs) + ConnectTimes([r])
    ensures HandshakeTimes(rs + [r]) == HandshakeTimes(rs) + HandshakeTimes([r])
  {
    assert (rs + [r])[..|rs|] == rs && [r][..0] == [];
  }

  lemma {:induction false} TimesJoin(a: seq<Record>, b: seq<Record>)
    ensures ConnectTimes(a + b) == ConnectTimes(a) + ConnectTimes(b)
    ensures HandshakeTimes(a + b) == HandshakeTimes(a) + HandshakeTimes(b)
  {
    if b == [] {
      assert a + b == a;
    } else {
      var init, last := b[..|b| - 1], b[|b| - 1];
      TimesJoin(a, init);
      TimesOneMore(a + init, last);
      TimesOneMore(init, last);
      assert a + b == (a + init) + [last] && b == init + [last];
    }
  }

  lemma {:induction false} OneTime(r: Record)
    ensures ConnectTimes([r]) == (if r.ShortDone? || r.Connected? then [Ms(r.connect)] else [])
    ensures HandshakeTimes([r]) == if r.ShortDone? then [Ms(r.handshake)] else []
  {
    assert [r][..0] == [];
  }

  lemma {:induction false} OutcomeTimes(c: Connection)
    ensures ConnectTimes(OutcomeRecords(c)) == if GotThrough(c) then [Ms(c.connect)] else []
    ensures HandshakeTimes(OutcomeRecords(c)) == if GotThrough(c) then [Ms(c.handshake)] else []
  {
    var rs := OutcomeRecords(c);
    OneTime(rs[0]);
    if |rs| == 2 {
      OneTime(rs[1]);
      TimesOneMore([rs[0]], rs[1]);
      assert rs == [rs[0]] + [rs[1]];
    } else {
      assert rs == [rs[0]];
    }
  }

  lemma {:induction false} NoTimes(t: Target, i: nat, c: Connection)
    ensures var rs := SniRecords(t, i, c) + if c.outcome == Some(ConnReset) then [ResetIn(c.phase)] else [];
            ConnectTimes(rs) == [] && HandshakeTimes(rs) == []
  {
    var resets := if c.outcome == Some(ConnReset) then [ResetIn(c.phase)] else [];
    TimesJoin(SniRecords(t, i, c), resets);
    if !t.BareIP() {
      OneTime(SniRecords(t, i, c)[0]);
    }
    if resets != [] {
      OneTime(resets[0]);
    }
  }

  lemma {:induction false} ConnectionTimes(t: Target, i: nat, c: Connection)
    ensures ConnectTimes(Records(t, i, c)) == if GotThrough(c) then [Ms(c.connect)] else []
    ensures HandshakeTimes(Records(t, i, c)) == if GotThrough(c) then [Ms(c.handshake)] else []
  {
    var resets := if c.outcome == Some(ConnReset) then [ResetIn(c.phase)] else [];
    TimesJoin(SniRecords(t, i, c) + resets, OutcomeRecords(c));
    NoTimes(t, i, c);
    OutcomeTimes(c);
  }

  lemma {:induction false} OfOneMore(init: seq<Connection>, c: Connection)
    ensures ConnectsOf(init + [c]) == ConnectsOf(init) + if GotThrough(c) then [Ms(c.connect)] else []
    ensures HandshakesOf(init + [c]) == HandshakesOf(init) + if GotThrough(c) then [Ms(c.handshake)] else []
  {
    assert (init + [c])[..|init|] == init;
    MsIs(c.connect);
    MsIs(c.handshake);
  }

  lemma {:induction false} LoopOneMore(t: Target, init: seq<Connection>, c: Connection)
    ensures ConnectTimes(LoopRecords(t, init + [c])) ==
            ConnectTimes(LoopRecords(t, init)) + if GotThrough(c) then [Ms(c.connect)] else []
    ensures HandshakeTimes(LoopRecords(t, init + [c])) ==
            HandshakeTimes(LoopRecords(t, init)) + if GotThrough(c) then [Ms(c.handshake)] else []
  {
    assert (init + [c])[..|init|] == init;
    TimesJoin(LoopRecords(t, init), Records(t, |init|, c));
    ConnectionTimes(t, |init|, c);
  }

  /** The connect and handshake times reported are those of the connections that got through, in order. */
  lemma {:induction false} TimesAreThrough(t: Target, cs: seq<Connection>)
    ensures ConnectTimes(LoopRecords(t, cs)) == ConnectsOf(cs)
    ensures HandshakeTimes(LoopRecords(t, cs)) == HandshakesOf(cs)
  {
    if cs != [] {
      var init, c := cs[..|cs| - 1], cs[|cs| - 1];
      assert cs == init + [c];
      TimesAreThrough(t, init);
      LoopOneMore(t, init, c);
      OfOneMore(init, c);
    }
  }

  /** A connection's calls remember a fingerprint if and only if it was intercepted, and then that of its certificate. */
  lemma {:induction false} RemembersInterception(t: Target, i: nat, c: Connection, fp: string)
    ensures Fingerprint(t, fp) in Calls(t, i, c) <==> c.outcome == Some(Intercepted) && fp == c.cert.fingerprint
    ensures Note(t, Short, BadCert(c.cert)) in Calls(t, i, c) <==> c.outcome == Some(Intercepted)
  {
    var notes := Notes(t, Records(t, i, c));
    if c.outcome == Some(Intercepted) {
      var n := |Records(t, i, c)| - 1;
      assert Records(t, i, c)[n] == BadCert(c.cert) && notes[n] == Note(t, Short, BadCert(c.cert));
      assert Calls(t, i, c)[n] == notes[n] && Calls(t, i, c)[n + 1] == Fingerprint(t, c.cert.fingerprint);
    }
  }
}
