/**
 What the aggregator ought to report, recomputed from scratch out of the
 operations it received, and the proof that the buckets report exactly that.
 */
module AggregatorHistory {
  import opened Prelude
  import opened Summaries
  import opened Aggregator

  /** The locked regions executed so far, by whatever thread, in order. */
  datatype History = Start | Then(past: History, op: Op)

  function Replay(h: History): State {
    match h
    case Start => INITIAL
    case Then(past, op) => Step(Replay(past), op)
  }

  /** Everything emitted so far. */
  function Outputs(h: History): seq<Aggregate> {
    match h
    case Start => []
    case Then(past, Flush(minute)) => Outputs(past) + EmitTargets(Replay(past), minute, Replay(past).targets)
    case Then(past, _) => Outputs(past)
  }

  /** No call registers one mode twice. */
  // ----- who is registered

  /** The last call about t was a registration. */
  predicate Active(h: History, t: Target) {
    match h
    case Start => false
    case Then(past, Register(u, _)) => u == t || Active(past, t)
    case Then(past, Unregister(u)) => u != t && Active(past, t)
    case Then(past, _) => Active(past, t)
  }

  /** t is registered, or was until some time in the current minute. */
  predicate Live(h: History, t: Target) {
    match h
    case Start => false
    case Then(past, Register(u, _)) => u == t || Live(past, t)
    case Then(past, Flush(_)) => Active(past, t)
    case Then(past, _) => Live(past, t)
  }

  /** The next flush is t's last. */
  predicate Departs(h: History, t: Target) {
    Live(h, t) && !Active(h, t)
  }

  function ModesAt(h: History, t: Target): seq<Mode> {
    match h
    case Start => []
    case Then(past, Register(u, modes)) => if u == t then modes else ModesAt(past, t)
    case Then(past, Flush(_)) => if Active(past, t) then ModesAt(past, t) else []
    case Then(past, _) => ModesAt(past, t)
  }

  /** The live targets by time of registration. */
  function InOrder(h: History): seq<Target> {
    match h
    case Start => []
    case Then(past, Register(t, _)) => if Live(past, t) then InOrder(past) else InOrder(past) + [t]
    case Then(past, Flush(_)) => OnlyActive(past, InOrder(past))
    case Then(past, _) => InOrder(past)
  }

  function OnlyActive(h: History, ts: seq<Target>): seq<Target> {
    if ts == [] then []
    else
      var t := ts[|ts| - 1];
      OnlyActive(h, ts[..|ts| - 1]) + if Active(h, t) then [t] else []
  }

  // ----- what was recorded

  /** Records for k are accepted. */
  predicate Open(h: History, k: Key) {
    match h
    case Start => false
    case Then(past, Register(t, modes)) => (t == k.target && k.mode in modes) || Open(past, k)
    case Then(past, Flush(_)) =>
      Open(past, k) && !(Departs(past, k.target) && k.mode in ModesAt(past, k.target))
    case Then(past, _) => Open(past, k)
  }

  /** A flush now reports on k. */
  predicate Reported(h: History, k: Key) {
    Live(h, k.target) && k.mode in ModesAt(h, k.target)
  }

  /** Every record k ever accepted. */
  function Accepted(h: History, k: Key): seq<Record> {
    match h
    case Start => []
    case Then(past, Note(t, mode, record)) =>
      if Key(t, mode) == k && Open(past, k) then Accepted(past, k) + [record] else Accepted(past, k)
    case Then(past, _) => Accepted(past, k)
  }

  /** The records k accepted since it was last reported. */
  function Unreported(h: History, k: Key): seq<Record> {
    match h
    case Start => []
    case Then(past, Note(t, mode, record)) =>
      if Key(t, mode) == k && Open(past, k) then Unreported(past, k) + [record] else Unreported(past, k)
    case Then(past, Flush(_)) => if Reported(past, k) then [] else Unreported(past, k)
    case Then(past, _) => Unreported(past, k)
  }

  function SurvivedAt(h: History, t: Target): int {
    match h
    case Start => 0
    case Then(past, SetSurvived(u, gap)) =>
      if u == t && Open(past, Key(t, Idle)) then gap else SurvivedAt(past, t)
    case Then(past, Flush(_)) => if Departs(past, t) then 0 else SurvivedAt(past, t)
    case Then(past, _) => SurvivedAt(past, t)
  }

  /** The last certificate fingerprint seen for t since it was last forgotten. */
  function FingerprintAt(h: History, t: Target): Option<string> {
    match h
    case Start => None
    case Then(past, Fingerprint(u, fp)) => if u == t then Some(fp) else FingerprintAt(past, t)
    case Then(past, Flush(_)) => if Departs(past, t) then None else FingerprintAt(past, t)
    case Then(past, _) => FingerprintAt(past, t)
  }

  // ----- counting records without buckets

  datatype Counter =
    | Samples | Losses | Failures(cause: Class) | Drops | ServerCloses | Resets(phase: Phase)
    | SniSamples(variant: Variant) | SniFailures(variant: Variant, cause: Class)

  function One(b: bool): nat { if b then 1 else 0 }

  function Weight(mode: Mode, r: Record, c: Counter): nat {
    match c
    case Samples => One(r.ShortDone? || r.Connected? || r.Pong? || r.LostPong? || (r.Failed? && CountsAsSample(mode)))
    case Losses => if r.ShortDone? || r.Connected? then r.synRetrans else One(r.LostPong?)
    case Failures(cause) => One(r == Failed(cause) || (r.BadCert? && cause == Intercepted))
    case Drops => One(r.ConnDropped?)
    case ServerCloses => One(r.ClosedByServer?)
    case Resets(phase) => One(r == ResetIn(phase))
    case SniSamples(variant) => One(r.SniOutcome? && r.variant == variant)
    case SniFailures(variant, cause) => One(r == SniOutcome(variant, Some(cause)))
  }

  function Sum(mode: Mode, rs: seq<Record>, c: Counter): nat {
    if rs == [] then 0 else Sum(mode, rs[..|rs| - 1], c) + Weight(mode, rs[|rs| - 1], c)
  }

  function ConnectTimes(rs: seq<Record>): seq<real> {
    if rs == [] then []
    else
      var r := rs[|rs| - 1];
      ConnectTimes(rs[..|rs| - 1]) + if r.ShortDone? || r.Connected? then [Ms(r.connect)] else []
  }

  function HandshakeTimes(rs: seq<Record>): seq<real> {
    if rs == [] then []
    else
      var r := rs[|rs| - 1];
      HandshakeTimes(rs[..|rs| - 1]) + if r.ShortDone? then [Ms(r.handshake)] else []
  }

  function RoundTrips(rs: seq<Record>): seq<real> {
    if rs == [] then []
    else
      var r := rs[|rs| - 1];
      RoundTrips(rs[..|rs| - 1]) + if r.Pong? then [Ms(r.rtt)] else []
  }

  function Retransmits(rs: seq<Record>): nat {
    if rs == [] then 0
    else
      var r := rs[|rs| - 1];
      Retransmits(rs[..|rs| - 1]) + if r.TcpReading? then r.retrans else 0
  }

  /** The last reading, with all the retransmits. */
  function LastTcp(rs: seq<Record>): Option<TcpStats> {
    if rs == [] then None
    else
      match rs[|rs| - 1]
      case TcpReading(rtt, rttVar, _) => Some(TcpStats(Ms(rtt), Ms(rttVar), Retransmits(rs) % WORD))
      case _ => LastTcp(rs[..|rs| - 1])
  }

  function LastCert(rs: seq<Record>): Option<Cert> {
    if rs == [] then None
    else
      match rs[|rs| - 1]
      case BadCert(cert) => Some(cert)
      case _ => LastCert(rs[..|rs| - 1])
  }

  function LastDeath(rs: seq<Record>): Option<Death> {
    if rs == [] then None
    else
      match rs[|rs| - 1]
      case IdleDied(death) => Some(death)
      case _ => LastDeath(rs[..|rs| - 1])
  }

  function FailureCounts(mode: Mode, rs: seq<Record>): map<Class, nat> {
    map c: Class | Sum(mode, rs, Failures(c)) > 0 :: Sum(mode, rs, Failures(c))
  }

  function ResetCounts(mode: Mode, rs: seq<Record>): map<Phase, nat> {
    map p: Phase | Sum(mode, rs, Resets(p)) > 0 :: Sum(mode, rs, Resets(p))
  }

  function SniCauses(mode: Mode, rs: seq<Record>, v: Variant): map<Class, nat> {
    map c: Class | Sum(mode, rs, SniFailures(v, c)) > 0 :: Sum(mode, rs, SniFailures(v, c))
  }

  function SniCounts(mode: Mode, rs: seq<Record>): map<Variant, SniStats> {
    map v: Variant | Sum(mode, rs, SniSamples(v)) > 0 ::
      SniStats(Sum(mode, rs, SniSamples(v)), SniCauses(mode, rs, v))
  }

  /** A bucket made of the records rs, each field counted on its own. */
  function Recount(mode: Mode, rs: seq<Record>): Bucket {
    Bucket(
      Sum(mode, rs, Samples), Sum(mode, rs, Losses),
      ConnectTimes(rs), HandshakeTimes(rs), RoundTrips(rs),
      FailureCounts(mode, rs), Sum(mode, rs, Drops), Sum(mode, rs, ServerCloses),
      LastTcp(rs), LastCert(rs), LastDeath(rs), SniCounts(mode, rs), ResetCounts(mode, rs))
  }

  lemma {:induction false} SniFailuresAreSamples(mode: Mode, rs: seq<Record>, v: Variant, c: Class)
    ensures Sum(mode, rs, SniFailures(v, c)) <= Sum(mode, rs, SniSamples(v))
  {
    if rs != [] {
      SniFailuresAreSamples(mode, rs[..|rs| - 1], v, c);
    }
  }

  lemma SumOneMore(mode: Mode, rs: seq<Record>, r: Record, c: Counter)
    ensures Sum(mode, rs + [r], c) == Sum(mode, rs, c) + Weight(mode, r, c)
  {
    assert (rs + [r])[..|rs|] == rs;
  }

  lemma {:induction false} SumJoin(mode: Mode, a: seq<Record>, b: seq<Record>, c: Counter)
    ensures Sum(mode, a + b, c) == Sum(mode, a, c) + Sum(mode, b, c)
  {
    if b == [] {
      assert a + b == a;
    } else {
      SumJoin(mode, a, b[..|b| - 1], c);
      assert (a + b)[..|a + b| - 1] == a + b[..|b| - 1];
    }
  }

  function Count<K(==)>(m: map<K, nat>, k: K): nat { if k in m then m[k] else 0 }

  /** Maps that hold only positive counts are equal when they count alike. */
  lemma SameCounts<K(!new)>(a: map<K, nat>, b: map<K, nat>)
    requires forall k :: k in a ==> a[k] > 0
    requires forall k :: k in b ==> b[k] > 0
    requires forall k :: Count(a, k) == Count(b, k)
    ensures a == b
  {
    forall k
      ensures k in a <==> k in b
      ensures k in a ==> a[k] == b[k]
    {
      assert Count(a, k) == Count(b, k);
    }
    assert a == b;
  }

  function FailuresAfter(failures: map<Class, nat>, r: Record): map<Class, nat> {
    if r.Failed? then Bump(failures, r.cause) else if r.BadCert? then Bump(failures, Intercepted) else failures
  }

  lemma {:induction false} FailureOneMore(mode: Mode, rs: seq<Record>, r: Record, c: Class)
    ensures Count(FailureCounts(mode, rs + [r]), c) == Count(FailuresAfter(FailureCounts(mode, rs), r), c)
  {
    SumOneMore(mode, rs, r, Failures(c));
  }

  lemma {:induction false} FailuresOneMore(mode: Mode, rs: seq<Record>, r: Record)
    ensures FailureCounts(mode, rs + [r]) == FailuresAfter(FailureCounts(mode, rs), r)
  {
    var now := FailuresAfter(FailureCounts(mode, rs), r);
    forall c: Class
      ensures Count(FailureCounts(mode, rs + [r]), c) == Count(now, c)
    {
      FailureOneMore(mode, rs, r, c);
    }
    SameCounts(FailureCounts(mode, rs + [r]), now);
  }

  function ResetsAfter(resets: map<Phase, nat>, r: Record): map<Phase, nat> {
    if r.ResetIn? then Bump(resets, r.phase) else resets
  }

  lemma ResetsOneMore(mode: Mode, rs: seq<Record>, r: Record)
    ensures ResetCounts(mode, rs + [r]) == ResetsAfter(ResetCounts(mode, rs), r)
  {
    var now := ResetsAfter(ResetCounts(mode, rs), r);
    forall p: Phase
      ensures Count(ResetCounts(mode, rs + [r]), p) == Count(now, p)
    {
      SumOneMore(mode, rs, r, Resets(p));
    }
    SameCounts(ResetCounts(mode, rs + [r]), now);
  }

  function CausesAfter(causes: map<Class, nat>, r: Record, v: Variant): map<Class, nat> {
    if r.SniOutcome? && r.variant == v && r.outcome.Some? then Bump(causes, r.outcome.value) else causes
  }

  lemma SniCausesOneMore(mode: Mode, rs: seq<Record>, r: Record, v: Variant)
    ensures SniCauses(mode, rs + [r], v) == CausesAfter(SniCauses(mode, rs, v), r, v)
  {
    var now := CausesAfter(SniCauses(mode, rs, v), r, v);
    forall c: Class
      ensures Count(SniCauses(mode, rs + [r], v), c) == Count(now, c)
    {
      SumOneMore(mode, rs, r, SniFailures(v, c));
    }
    SameCounts(SniCauses(mode, rs + [r], v), now);
  }

  lemma NoSamplesNoCauses(mode: Mode, rs: seq<Record>, v: Variant)
    requires Sum(mode, rs, SniSamples(v)) == 0
    ensures SniCauses(mode, rs, v) == map[]
  {
    forall c: Class
      ensures Sum(mode, rs, SniFailures(v, c)) == 0
    {
      SniFailuresAreSamples(mode, rs, v, c);
    }
  }

  function SniAfter(sni: map<Variant, SniStats>, r: Record): map<Variant, SniStats> {
    if r.SniOutcome? then
      var s := if r.variant in sni then sni[r.variant] else SniStats(0, map[]);
      sni[r.variant := SniStats(s.samples + 1, CausesAfter(s.failures, r, r.variant))]
    else sni
  }

  lemma SniVariantOneMore(mode: Mode, rs: seq<Record>, r: Record, v: Variant)
    ensures var before, after := SniCounts(mode, rs), SniCounts(mode, rs + [r]);
            v in after <==> v in before || (r.SniOutcome? && r.variant == v)
    ensures var before, after := SniCounts(mode, rs), SniCounts(mode, rs + [r]);
            var s := if v in before then before[v] else SniStats(0, map[]);
            v in after ==>
              after[v] == if r.SniOutcome? && r.variant == v
                          then SniStats(s.samples + 1, CausesAfter(s.failures, r, v)) else s
  {
    SumOneMore(mode, rs, r, SniSamples(v));
    SniCausesOneMore(mode, rs, r, v);
    if Sum(mode, rs, SniSamples(v)) == 0 {
      NoSamplesNoCauses(mode, rs, v);
    }
  }

  lemma SniOneMore(mode: Mode, rs: seq<Record>, r: Record)
    ensures SniCounts(mode, rs + [r]) == SniAfter(SniCounts(mode, rs), r)
  {
    var counted, now := SniCounts(mode, rs + [r]), SniAfter(SniCounts(mode, rs), r);
    forall v: Variant
      ensures v in counted <==> v in now
      ensures v in counted ==> counted[v] == now[v]
    {
      SniVariantOneMore(mode, rs, r, v);
    }
    assert counted == now;
  }

  lemma FailuresUpdated(b: Bucket, mode: Mode, r: Record)
    ensures Update(b, mode, r).failures == FailuresAfter(b.failures, r)
  {
  }

  lemma ResetsUpdated(b: Bucket, mode: Mode, r: Record)
    ensures Update(b, mode, r).resets == ResetsAfter(b.resets, r)
  {
  }

  lemma SniUpdated(b: Bucket, mode: Mode, r: Record)
    ensures Update(b, mode, r).sni == SniAfter(b.sni, r)
  {
  }

  lemma NumbersOneMore(mode: Mode, rs: seq<Record>, r: Record)
    ensures var now, counted := Update(Recount(mode, rs), mode, r), Recount(mode, rs + [r]);
            && counted.samples == now.samples
            && counted.losses == now.losses
            && counted.drops == now.drops
            && counted.serverClosed == now.serverClosed
  {
    assert (rs + [r])[..|rs|] == rs;
  }

  lemma ListsOneMore(mode: Mode, rs: seq<Record>, r: Record)
    ensures var now, counted := Update(Recount(mode, rs), mode, r), Recount(mode, rs + [r]);
            && counted.connect == now.connect
            && counted.tls == now.tls
            && counted.rtt == now.rtt
  {
    assert (rs + [r])[..|rs|] == rs;
  }

  lemma {:induction false} RetransmitsReported(rs: seq<Record>)
    ensures (if LastTcp(rs).Some? then LastTcp(rs).value.retrans else 0) == Retransmits(rs) % WORD
  {
    if rs != [] {
      RetransmitsReported(rs[..|rs| - 1]);
    }
  }

  lemma WrapOnce(a: nat, b: nat)
    ensures (a % WORD + b) % WORD == (a + b) % WORD
  {
  }

  lemma LastsOneMore(mode: Mode, rs: seq<Record>, r: Record)
    ensures var now, counted := Update(Recount(mode, rs), mode, r), Recount(mode, rs + [r]);
            && counted.tcp == now.tcp
            && counted.cert == now.cert
            && counted.died == now.died
  {
    assert (rs + [r])[..|rs|] == rs;
    RetransmitsReported(rs);
    if r.TcpReading? {
      WrapOnce(Retransmits(rs), r.retrans);
    }
  }

  lemma SameBucket(a: Bucket, b: Bucket)
    requires a.samples == b.samples && a.losses == b.losses
    requires a.connect == b.connect && a.tls == b.tls && a.rtt == b.rtt
    requires a.failures == b.failures && a.drops == b.drops && a.serverClosed == b.serverClosed
    requires a.tcp == b.tcp && a.cert == b.cert && a.died == b.died
    requires a.sni == b.sni && a.resets == b.resets
    ensures a == b
  {
  }

  /** Updating a bucket record by record keeps it equal to the recount. */
  lemma RecountIsUpdate(mode: Mode, rs: seq<Record>, r: Record)
    ensures Recount(mode, rs + [r]) == Update(Recount(mode, rs), mode, r)
  {
    var now := Update(Recount(mode, rs), mode, r);
    NumbersOneMore(mode, rs, r);
    ListsOneMore(mode, rs, r);
    LastsOneMore(mode, rs, r);
    FailuresOneMore(mode, rs, r);
    ResetsOneMore(mode, rs, r);
    SniOneMore(mode, rs, r);
    FailuresUpdated(Recount(mode, rs), mode, r);
    ResetsUpdated(Recount(mode, rs), mode, r);
    SniUpdated(Recount(mode, rs), mode, r);
    SameBucket(Recount(mode, rs + [r]), now);
  }

  // ----- the state agrees with the history

  lemma {:induction false} ActiveIsLive(h: History, t: Target)
    ensures Active(h, t) ==> Live(h, t)
  {
    if h.Then? {
      ActiveIsLive(h.past, t);
    }
  }

  lemma {:induction false} OnlyActiveIsKept(h: History, ts: seq<Target>, removed: set<Target>)
    requires forall t :: t in ts ==> (t in removed <==> !Active(h, t))
    ensures Kept(ts, removed) == OnlyActive(h, ts)
  {
    if ts != [] {
      var last := ts[|ts| - 1];
      assert last in ts;
      OnlyActiveIsKept(h, ts[..|ts| - 1], removed);
    }
  }

  lemma {:induction false} ReplayIsValid(h: History)
    ensures Valid(Replay(h))
  {
    if h.Then? {
      ReplayIsValid(h.past);
      match h.op
      case Register(t, modes) => RegisterKeepsValid(Replay(h.past), t, modes);
      case Flush(_) => FlushKeepsValid(Replay(h.past));
      case _ =>
    }
  }

  /** A target is registered while live, and marked for removal while inactive. */
  ghost predicate Registered(h: History, s: State, t: Target) {
    && (t in s.targets <==> Live(h, t))
    && (t in s.modes <==> Live(h, t))
    && (Live(h, t) ==> (t in s.removed <==> !Active(h, t)))
    && ModesOf(s, t) == ModesAt(h, t)
  }

  lemma FlushKeepsTarget(h: History, s: State, minute: int, t: Target)
    requires Valid(s) && Registered(h, s, t)
    ensures Registered(Then(h, Flush(minute)), AfterFlush(s), t)
  {
    KeptElements(s.targets, s.removed);
    ActiveIsLive(h, t);
  }

  lemma {:induction false} TargetAgrees(h: History, t: Target)
    ensures Registered(h, Replay(h), t)
  {
    if h.Then? {
      TargetAgrees(h.past, t);
      if h.op.Flush? {
        ReplayIsValid(h.past);
        FlushKeepsTarget(h.past, Replay(h.past), h.op.minute, t);
      }
    }
  }

  lemma {:induction false} OrderAgrees(h: History)
    ensures Replay(h).targets == InOrder(h)
  {
    if h.Then? {
      OrderAgrees(h.past);
      match h.op
      case Register(t, _) => TargetAgrees(h.past, t);
      case Flush(_) =>
        forall t | t in InOrder(h.past)
          ensures t in Replay(h.past).removed <==> !Active(h.past, t)
        {
          TargetAgrees(h.past, t);
        }
        OnlyActiveIsKept(h.past, InOrder(h.past), Replay(h.past).removed);
      case _ =>
    }
  }

  ghost predicate Holds(buckets: map<Key, Bucket>, h: History, k: Key) {
    && (k in buckets <==> Open(h, k))
    && (k in buckets ==> buckets[k] == Recount(k.mode, Unreported(h, k)))
    && (!Open(h, k) ==> Unreported(h, k) == [])
  }

  lemma NoteKeepsBucket(h: History, t: Target, mode: Mode, record: Record, k: Key)
    requires Holds(Replay(h).buckets, h, k)
    ensures Holds(Step(Replay(h), Note(t, mode, record)).buckets, Then(h, Note(t, mode, record)), k)
  {
    var before, op := Replay(h).buckets, Note(t, mode, record);
    var after := Step(Replay(h), op).buckets;
    if Key(t, mode) == k && Open(h, k) {
      assert Unreported(Then(h, op), k) == Unreported(h, k) + [record];
      assert after[k] == Update(before[k], mode, record);
      RecountIsUpdate(mode, Unreported(h, k), record);
    } else {
      assert Unreported(Then(h, op), k) == Unreported(h, k);
      assert k in after <==> k in before;
      assert k in after ==> after[k] == before[k];
    }
  }

  lemma RegisterKeepsBucket(h: History, t: Target, modes: seq<Mode>, k: Key)
    requires Holds(Replay(h).buckets, h, k)
    ensures Holds(Step(Replay(h), Register(t, modes)).buckets, Then(h, Register(t, modes)), k)
  {
    NothingRecounted(k.mode);
  }

  lemma FlushKeepsBucket(h: History, minute: int, k: Key)
    requires Holds(Replay(h).buckets, h, k)
    ensures Holds(Step(Replay(h), Flush(minute)).buckets, Then(h, Flush(minute)), k)
  {
    NothingRecounted(k.mode);
    FlushedBucket(h, k);
  }

  /** A bucket exists exactly for the keys whose records are accepted, and holds the unreported ones. */
  lemma {:induction false} BucketAgrees(h: History, k: Key)
    ensures Holds(Replay(h).buckets, h, k)
  {
    if h.Then? {
      BucketAgrees(h.past, k);
      match h.op
      case Note(t, mode, record) => NoteKeepsBucket(h.past, t, mode, record, k);
      case Register(t, modes) => RegisterKeepsBucket(h.past, t, modes, k);
      case Flush(minute) => FlushKeepsBucket(h.past, minute, k);
      case _ =>
    }
  }

  lemma NothingRecounted(mode: Mode)
    ensures Recount(mode, []) == EMPTY
  {
    SameBucket(Recount(mode, []), EMPTY);
  }

  lemma FlushedBucket(h: History, k: Key)
    requires k in Replay(h).buckets <==> Open(h, k)
    ensures var s := Replay(h);
            var after := EmptiedBuckets(s, s.targets);
            && (k in after <==> Open(h, k) && !(Departs(h, k.target) && Reported(h, k)))
            && (k in after ==> after[k] == if Reported(h, k) then EMPTY else s.buckets[k])
  {
    TargetAgrees(h, k.target);
  }

  lemma FlushForgets(h: History, t: Target)
    ensures Forgotten(Replay(h), Replay(h).targets, t) <==> Departs(h, t)
  {
    TargetAgrees(h, t);
  }

  lemma {:induction false} SurvivedAgrees(h: History, t: Target)
    ensures SurvivedOf(Replay(h), t) == SurvivedAt(h, t)
  {
    if h.Then? {
      SurvivedAgrees(h.past, t);
      match h.op
      case SetSurvived(_, _) => BucketAgrees(h.past, Key(t, Idle));
      case Flush(_) => FlushForgets(h.past, t);
      case _ =>
    }
  }

  function Printed(s: State, t: Target): Option<string> {
    if t in s.lastFP then Some(s.lastFP[t]) else None
  }

  lemma {:induction false} FingerprintAgrees(h: History, t: Target)
    ensures Printed(Replay(h), t) == FingerprintAt(h, t)
  {
    if h.Then? {
      FingerprintAgrees(h.past, t);
      if h.op.Flush? {
        FlushForgets(h.past, t);
      }
    }
  }

  // ----- what a flush reports

  /** The aggregate of a key; again if its mode was listed and so reported before. */
  function ReportOf(h: History, minute: int, k: Key, again: bool): Aggregate {
    Emit(Recount(k.mode, if again then [] else Unreported(h, k)), minute, k, SurvivedAt(h, k.target))
  }

  function ReportModes(h: History, minute: int, t: Target, modes: seq<Mode>): seq<Aggregate> {
    if modes == [] then []
    else
      var init, m := modes[..|modes| - 1], modes[|modes| - 1];
      ReportModes(h, minute, t, init) + [ReportOf(h, minute, Key(t, m), m in init)]
  }

  /** The aggregates of a minute, recomputed from the records alone. */
  function Report(h: History, minute: int, ts: seq<Target>): seq<Aggregate> {
    if ts == [] then []
    else
      var t := ts[|ts| - 1];
      Report(h, minute, ts[..|ts| - 1]) + ReportModes(h, minute, t, ModesAt(h, t))
  }

  lemma {:induction false} ModesReportHistory(h: History, minute: int, t: Target, modes: seq<Mode>)
    requires forall m :: m in modes ==> Key(t, m) in Replay(h).buckets
    ensures EmitModes(Replay(h), minute, t, modes) == ReportModes(h, minute, t, modes)
  {
    if modes != [] {
      var m := modes[|modes| - 1];
      assert m in modes;
      ModesReportHistory(h, minute, t, modes[..|modes| - 1]);
      BucketAgrees(h, Key(t, m));
      NothingRecounted(m);
      SurvivedAgrees(h, t);
    }
  }

  lemma {:induction false} TargetsReportHistory(h: History, minute: int, ts: seq<Target>)
    requires forall t :: t in ts ==> Live(h, t)
    ensures EmitTargets(Replay(h), minute, ts) == Report(h, minute, ts)
  {
    if ts != [] {
      var t := ts[|ts| - 1];
      assert t in ts;
      TargetsReportHistory(h, minute, ts[..|ts| - 1]);
      TargetAgrees(h, t);
      ReplayIsValid(h);
      ModesReportHistory(h, minute, t, ModesAt(h, t));
    }
  }

  /** Every flush emits, in registration order, what a recount of the records gives. */
  lemma FlushReportsHistory(h: History, minute: int)
    ensures Outputs(Then(h, Flush(minute))) == Outputs(h) + Report(h, minute, InOrder(h))
  {
    OrderAgrees(h);
    forall t | t in InOrder(h)
      ensures Live(h, t)
    {
      TargetAgrees(h, t);
    }
    TargetsReportHistory(h, minute, InOrder(h));
  }

  // ----- conservation

  function Read(a: Aggregate, c: Counter): nat {
    match c
    case Samples => a.samples
    case Losses => a.losses
    case Failures(cause) => Count(a.failures, cause)
    case Drops => a.drops
    case ServerCloses => a.serverClosed
    case Resets(phase) => Count(a.resets, phase)
    case SniSamples(variant) => SniOf(a.sni, variant).samples
    case SniFailures(variant, cause) => Count(SniOf(a.sni, variant).failures, cause)
  }

  function SniOf(sni: map<Variant, SniStats>, v: Variant): SniStats {
    if v in sni then sni[v] else SniStats(0, map[])
  }

  /** The sum of a counter over the aggregates of one key. */
  function Total(out: seq<Aggregate>, k: Key, c: Counter): nat {
    if out == [] then 0
    else
      var a := out[|out| - 1];
      Total(out[..|out| - 1], k, c) + if a.key == k then Read(a, c) else 0
  }

  /** What a flush now would report for k. */
  function Current(h: History, k: Key, c: Counter): nat {
    Read(Emit(BucketOf(Replay(h), k), 0, k, 0), c)
  }

  lemma SniFailuresCounted(mode: Mode, rs: seq<Record>, v: Variant, c: Class)
    ensures Count(SniOf(SniCounts(mode, rs), v).failures, c) == Sum(mode, rs, SniFailures(v, c))
  {
    SniFailuresAreSamples(mode, rs, v, c);
  }

  lemma MapsCount(mode: Mode, rs: seq<Record>, c: Class, p: Phase, v: Variant)
    ensures Count(FailureCounts(mode, rs), c) == Sum(mode, rs, Failures(c))
    ensures Count(ResetCounts(mode, rs), p) == Sum(mode, rs, Resets(p))
    ensures SniOf(SniCounts(mode, rs), v).samples == Sum(mode, rs, SniSamples(v))
  {
  }

  lemma ReadCounts(mode: Mode, rs: seq<Record>, a: Aggregate, c: Counter)
    requires a.samples == Sum(mode, rs, Samples) && a.losses == Sum(mode, rs, Losses)
    requires a.drops == Sum(mode, rs, Drops) && a.serverClosed == Sum(mode, rs, ServerCloses)
    requires a.failures == FailureCounts(mode, rs) && a.resets == ResetCounts(mode, rs)
    requires a.sni == SniCounts(mode, rs)
    ensures Read(a, c) == Sum(mode, rs, c)
  {
    match c
    case Failures(cause) => MapsCount(mode, rs, cause, Hello, HostSni);
    case Resets(phase) => MapsCount(mode, rs, Other, phase, HostSni);
    case SniSamples(variant) => MapsCount(mode, rs, Other, Hello, variant);
    case SniFailures(variant, cause) => SniFailuresCounted(mode, rs, variant, cause);
    case _ =>
  }

  lemma ReadRecount(mode: Mode, rs: seq<Record>, minute: int, k: Key, survived: int, c: Counter)
    ensures Read(Emit(Recount(mode, rs), minute, k, survived), c) == Sum(mode, rs, c)
  {
    ReadCounts(mode, rs, Emit(Recount(mode, rs), minute, k, survived), c);
  }

  lemma {:induction false} TotalJoin(a: seq<Aggregate>, b: seq<Aggregate>, k: Key, c: Counter)
    ensures Total(a + b, k, c) == Total(a, k, c) + Total(b, k, c)
  {
    if b == [] {
      assert a + b == a;
    } else {
      TotalJoin(a, b[..|b| - 1], k, c);
      assert (a + b)[..|a + b| - 1] == a + b[..|b| - 1];
    }
  }

  lemma TotalOneMore(out: seq<Aggregate>, a: Aggregate, k: Key, c: Counter)
    ensures Total(out + [a], k, c) == Total(out, k, c) + if a.key == k then Read(a, c) else 0
  {
    assert (out + [a])[..|out|] == out;
  }

  lemma ReportOneMore(h: History, minute: int, t: Target, init: seq<Mode>, m: Mode)
    ensures ReportModes(h, minute, t, init + [m]) ==
            ReportModes(h, minute, t, init) + [ReportOf(h, minute, Key(t, m), m in init)]
  {
    assert (init + [m])[..|init|] == init;
  }

  /** What the report of one more mode adds. */
  lemma TotalOneMoreMode(h: History, minute: int, t: Target, init: seq<Mode>, m: Mode, k: Key, c: Counter)
    ensures Total(ReportModes(h, minute, t, init + [m]), k, c) ==
            Total(ReportModes(h, minute, t, init), k, c)
            + if k == Key(t, m) && m !in init then Sum(m, Unreported(h, k), c) else 0
  {
    var rs := if m in init then [] else Unreported(h, Key(t, m));
    ReadRecount(m, rs, minute, Key(t, m), SurvivedAt(h, t), c);
    ReportOneMore(h, minute, t, init, m);
    TotalOneMore(ReportModes(h, minute, t, init), ReportOf(h, minute, Key(t, m), m in init), k, c);
  }

  lemma {:induction false} TotalOfModes(h: History, minute: int, t: Target, modes: seq<Mode>, k: Key, c: Counter)
    ensures Total(ReportModes(h, minute, t, modes), k, c) ==
            if k.target == t && k.mode in modes then Sum(k.mode, Unreported(h, k), c) else 0
  {
    if modes != [] {
      var init, m := modes[..|modes| - 1], modes[|modes| - 1];
      assert modes == init + [m];
      TotalOfModes(h, minute, t, init, k, c);
      TotalOneMoreMode(h, minute, t, init, m, k, c);
    }
  }

  lemma {:induction false} TotalOfReport(h: History, minute: int, ts: seq<Target>, k: Key, c: Counter)
    requires Distinct(ts)
    ensures Total(Report(h, minute, ts), k, c) ==
            if k.target in ts && k.mode in ModesAt(h, k.target) then Sum(k.mode, Unreported(h, k), c) else 0
  {
    if ts != [] {
      var init, t := ts[..|ts| - 1], ts[|ts| - 1];
      assert ts == init + [t];
      TotalOfReport(h, minute, init, k, c);
      TotalOfModes(h, minute, t, ModesAt(h, t), k, c);
      TotalJoin(Report(h, minute, init), ReportModes(h, minute, t, ModesAt(h, t)), k, c);
    }
  }

  lemma FlushTotals(h: History, minute: int, k: Key, c: Counter)
    ensures Total(Outputs(Then(h, Flush(minute))), k, c) ==
            Total(Outputs(h), k, c) + if Reported(h, k) then Sum(k.mode, Unreported(h, k), c) else 0
  {
    OrderAgrees(h);
    ReplayIsValid(h);
    TargetAgrees(h, k.target);
    FlushReportsHistory(h, minute);
    TotalOfReport(h, minute, InOrder(h), k, c);
    TotalJoin(Outputs(h), Report(h, minute, InOrder(h)), k, c);
  }

  lemma {:induction false} TotalsOfHistory(h: History, k: Key, c: Counter)
    ensures Total(Outputs(h), k, c) + Sum(k.mode, Unreported(h, k), c) == Sum(k.mode, Accepted(h, k), c)
  {
    if h.Then? {
      TotalsOfHistory(h.past, k, c);
      match h.op
      case Flush(minute) => FlushTotals(h.past, minute, k, c);
      case Note(t, mode, record) => NoteTotals(h.past, t, mode, record, k, c);
      case _ =>
    }
  }

  lemma NoteTotals(h: History, t: Target, mode: Mode, record: Record, k: Key, c: Counter)
    ensures var after := Then(h, Note(t, mode, record));
            (Sum(k.mode, Unreported(after, k), c) - Sum(k.mode, Unreported(h, k), c)
             == Sum(k.mode, Accepted(after, k), c) - Sum(k.mode, Accepted(h, k), c))
  {
    SumOneMore(k.mode, Unreported(h, k), record, c);
    SumOneMore(k.mode, Accepted(h, k), record, c);
  }

  /**
   Emitted plus current counts account for every accepted record exactly once:
   through removals, a target's last minute and removals undone within one.
   */
  lemma NothingLostOrCountedTwice(h: History, k: Key, c: Counter)
    ensures Total(Outputs(h), k, c) + Current(h, k, c) == Sum(k.mode, Accepted(h, k), c)
  {
    TotalsOfHistory(h, k, c);
    BucketAgrees(h, k);
    NothingRecounted(k.mode);
    ReadRecount(k.mode, Unreported(h, k), 0, k, 0, c);
  }

  // ----- the minutes of a key

  /** The records behind each aggregate emitted for k, oldest first. */
  function Minutes(h: History, k: Key): seq<seq<Record>> {
    match h
    case Start => []
    case Then(past, Flush(_)) => if Reported(past, k) then Minutes(past, k) + [Unreported(past, k)] else Minutes(past, k)
    case Then(past, _) => Minutes(past, k)
  }

  function Flatten(rss: seq<seq<Record>>): seq<Record> {
    if rss == [] then [] else Flatten(rss[..|rss| - 1]) + rss[|rss| - 1]
  }

  /** The minutes of a key, end to end, are its accepted records in order. */
  lemma {:induction false} MinutesPartitionRecords(h: History, k: Key)
    ensures Flatten(Minutes(h, k)) + Unreported(h, k) == Accepted(h, k)
  {
    if h.Then? {
      MinutesPartitionRecords(h.past, k);
      if h.op.Flush? && Reported(h.past, k) {
        assert Minutes(h, k)[..|Minutes(h, k)| - 1] == Minutes(h.past, k);
      } else if h.op.Note? {
        assert Flatten(Minutes(h.past, k)) + (Unreported(h.past, k) + [h.op.record])
            == (Flatten(Minutes(h.past, k)) + Unreported(h.past, k)) + [h.op.record];
      }
    }
  }

  // ----- one list of modes per target

  /** Every registration of a target names the same modes, as every caller's does. */
  ghost predicate Uniform(h: History, modesOf: Target -> seq<Mode>) {
    h.Then? ==> Uniform(h.past, modesOf) && (h.op.Register? ==> h.op.modes == modesOf(h.op.target))
  }

  lemma {:induction false} UniformModes(h: History, modesOf: Target -> seq<Mode>, k: Key)
    requires Uniform(h, modesOf)
    ensures ModesAt(h, k.target) == if Live(h, k.target) then modesOf(k.target) else []
    ensures Open(h, k) <==> Live(h, k.target) && k.mode in modesOf(k.target)
  {
    if h.Then? {
      UniformModes(h.past, modesOf, k);
      ActiveIsLive(h.past, k.target);
    }
  }

  /** The buckets are exactly targets times modes. */
  lemma BucketsAreTargetsTimesModes(h: History, modesOf: Target -> seq<Mode>)
    requires Uniform(h, modesOf)
    ensures forall k :: k in Replay(h).buckets <==> k.target in Replay(h).targets && k.mode in modesOf(k.target)
  {
    forall k
      ensures k in Replay(h).buckets <==> k.target in Replay(h).targets && k.mode in modesOf(k.target)
    {
      BucketAgrees(h, k);
      TargetAgrees(h, k.target);
      UniformModes(h, modesOf, k);
    }
  }

  /** The records k accepted since the last flush of any kind. */
  function ThisMinute(h: History, k: Key): seq<Record> {
    match h
    case Start => []
    case Then(past, Note(t, mode, record)) =>
      if Key(t, mode) == k && Open(past, k) then ThisMinute(past, k) + [record] else ThisMinute(past, k)
    case Then(past, Flush(_)) => []
    case Then(past, _) => ThisMinute(past, k)
  }

  /** Every report covers just the minute since the previous flush. */
  lemma {:induction false} ReportsCoverOneMinute(h: History, modesOf: Target -> seq<Mode>, k: Key)
    requires Uniform(h, modesOf)
    ensures Unreported(h, k) == ThisMinute(h, k)
  {
    if h.Then? {
      ReportsCoverOneMinute(h.past, modesOf, k);
      UniformModes(h.past, modesOf, k);
      BucketAgrees(h.past, k);
    }
  }

  /** No key accepts records the next flush will not report. */
  ghost predicate NoneStranded(h: History) {
    forall k :: Open(h, k) ==> Reported(h, k)
  }

  /** Records are stranded just when a registration leaves out a mode the target already had. */
  lemma StrandedByFewerModes(h: History, op: Op)
    requires NoneStranded(h)
    ensures NoneStranded(Then(h, op)) <==>
            (op.Register? ==> forall m :: Open(h, Key(op.target, m)) ==> m in op.modes)
  {
    var after := Then(h, op);
    if op.Register? && exists m :: Open(h, Key(op.target, m)) && m !in op.modes {
      var m :| Open(h, Key(op.target, m)) && m !in op.modes;
      assert Open(after, Key(op.target, m)) && !Reported(after, Key(op.target, m));
    } else {
      forall k | Open(after, k)
        ensures Reported(after, k)
      {
        assert Open(h, k) ==> Reported(h, k);
        assert k == Key(k.target, k.mode);
      }
    }
  }

  /** For example: a comparison target registered again as a measured host. */
  lemma MixedModesStrandRecords(t: Target, took: int)
    ensures var k := Key(t, Compare);
            var h := Then(Then(Then(Then(Start, Register(t, [Compare])), Register(t, TARGET_MODES)),
                               Note(t, Compare, Connected(took, 0))), Flush(0));
            Accepted(h, k) == [Connected(took, 0)] && Total(Outputs(h), k, Samples) == 0
  {
    var k := Key(t, Compare);
    var one := Then(Start, Register(t, [Compare]));
    var two := Then(one, Register(t, TARGET_MODES));
    var three := Then(two, Note(t, Compare, Connected(took, 0)));
    assert Open(one, k) && Open(two, k);
    assert Accepted(two, k) == Unreported(two, k) == [] by {
      assert Accepted(one, k) == Unreported(one, k) == [];
    }
    assert Accepted(three, k) == Unreported(three, k) == [Connected(took, 0)];
    assert ModesAt(three, t) == ModesAt(two, t) == TARGET_MODES;
    TotalsOfHistory(Then(three, Flush(0)), k, Samples);
  }

  // ----- one user of a bucket among others

  predicate Concerns(t: Target, mode: Mode, op: Op) {
    (op.Note? && op.target == t && op.mode == mode) || (mode == Idle && op.SetSurvived? && op.target == t)
  }

  /** h goes on from start, and ops are the calls about t's mode since; any others may fall in between. */
  ghost predicate Continues(start: History, h: History, t: Target, mode: Mode, ops: seq<Op>) {
    if h == start then ops == []
    else
      h.Then? && if Concerns(t, mode, h.op)
                 then ops != [] && ops[|ops| - 1] == h.op && Continues(start, h.past, t, mode, ops[..|ops| - 1])
                 else Continues(start, h.past, t, mode, ops)
  }

  /** The bucket was there at every record since start. */
  ghost predicate HeardSince(start: History, h: History, t: Target, mode: Mode) {
    h == start ||
    (h.Then? && HeardSince(start, h.past, t, mode)
     && (h.op.Note? && Key(h.op.target, h.op.mode) == Key(t, mode) ==> Open(h.past, Key(t, mode))))
  }

  /** No flush since start forgot t. */
  ghost predicate RemainsSince(start: History, h: History, t: Target) {
    h == start || (h.Then? && RemainsSince(start, h.past, t) && !(h.op.Flush? && Departs(h.past, t)))
  }

  function RecordsOf(ops: seq<Op>): seq<Record> {
    if ops == [] then []
    else RecordsOf(ops[..|ops| - 1]) + if ops[|ops| - 1].Note? then [ops[|ops| - 1].record] else []
  }

  lemma {:induction false} RecordsJoin(a: seq<Op>, b: seq<Op>)
    ensures RecordsOf(a + b) == RecordsOf(a) + RecordsOf(b)
  {
    if b == [] {
      assert a + b == a;
    } else {
      RecordsJoin(a, b[..|b| - 1]);
      assert (a + b)[..|a + b| - 1] == a + b[..|b| - 1];
    }
  }

  lemma {:induction false} RecordOf(op: Op)
    ensures RecordsOf([op]) == if op.Note? then [op.record] else []
  {
    assert [op][..0] == [];
  }

  /** The calls' records reach the bucket, all of them and in order, if and only if it was there at each. */
  lemma {:induction false} ContinuedRecords(start: History, h: History, t: Target, mode: Mode, ops: seq<Op>)
    requires Continues(start, h, t, mode, ops)
    ensures |Accepted(h, Key(t, mode))| <= |Accepted(start, Key(t, mode))| + |RecordsOf(ops)|
    ensures Accepted(h, Key(t, mode)) == Accepted(start, Key(t, mode)) + RecordsOf(ops)
            <==> HeardSince(start, h, t, mode)
    decreases h
  {
    if h != start {
      if Concerns(t, mode, h.op) {
        ContinuedRecords(start, h.past, t, mode, ops[..|ops| - 1]);
        if h.op.Note? {
          HeardOneMore(Accepted(h.past, Key(t, mode)), Accepted(start, Key(t, mode)) + RecordsOf(ops[..|ops| - 1]), h.op.record);
        }
      } else {
        ContinuedRecords(start, h.past, t, mode, ops);
      }
    }
  }

  lemma HeardOneMore(accepted: seq<Record>, made: seq<Record>, r: Record)
    requires |accepted| <= |made|
    ensures accepted + [r] == made + [r] <==> accepted == made
    ensures accepted != made + [r]
  {
    if accepted + [r] == made + [r] {
      assert (accepted + [r])[..|accepted|] == accepted && (made + [r])[..|made|] == made;
    }
  }

  /** A target that is not forgotten keeps its buckets. */
  lemma {:induction false} RemainingIsHeard(start: History, h: History, t: Target, mode: Mode, ops: seq<Op>)
    requires Open(start, Key(t, mode)) && Continues(start, h, t, mode, ops) && RemainsSince(start, h, t)
    ensures Open(h, Key(t, mode)) && HeardSince(start, h, t, mode)
    decreases h
  {
    if h != start {
      RemainingIsHeard(start, h.past, t, mode, if Concerns(t, mode, h.op) then ops[..|ops| - 1] else ops);
    }
  }
}
