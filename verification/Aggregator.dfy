/**
 The minute aggregator: per-(target, mode) buckets filled by concurrent loops
 and emptied by a flush every minute.

 Every method of the program's aggregator holds one lock, so its behaviour is a
 sequence of atomic steps. Step says what each locked region does to the state;
 class Agg is the object itself, updated in place.
 */
module Aggregator {
  import opened Prelude
  import opened Summaries

  datatype Target = Target(host: string, ip: string, port: nat) {
    predicate BareIP() { host == ip }
  }

  datatype Mode = Short | Long | Idle | Compare | Throughput

  datatype Key = Key(target: Target, mode: Mode)

  datatype Class = Timeout | Refused | ConnReset | Other | Intercepted

  // NoPhase is the empty phase a reset during the TCP connect is tagged with.
  datatype Phase = Hello | Transfer | IdlePhase | NoPhase

  datatype Variant = HostSni | NoSni

  datatype TcpStats = TcpStats(rtt: real, rttVar: real, retrans: nat)

  datatype Cert = Cert(fingerprint: string, issuer: string, error: string)

  datatype How = Dropped(cause: Class) | ServerClosed

  // Gaps are durations in nanoseconds.
  datatype Death = Death(gap: int, survived: int, how: How)

  datatype SniStats = SniStats(samples: nat, failures: map<Class, nat>)

  datatype Bucket = Bucket(
    samples: nat, losses: nat,
    connect: seq<real>, tls: seq<real>, rtt: seq<real>,
    failures: map<Class, nat>, drops: nat, serverClosed: nat,
    tcp: Option<TcpStats>, cert: Option<Cert>, died: Option<Death>,
    sni: map<Variant, SniStats>, resets: map<Phase, nat>)

  const EMPTY: Bucket :=
    Bucket(0, 0, [], [], [], map[], 0, 0, None, None, None, map[], map[])

  datatype IdleStats = IdleStats(survived: int, died: Option<Death>)

  datatype Aggregate = Aggregate(
    minute: int, key: Key, samples: nat, losses: nat,
    connect: Option<Stats>, tls: Option<Stats>, rtt: Option<Stats>,
    failures: map<Class, nat>, drops: nat, serverClosed: nat,
    tcp: Option<TcpStats>, cert: Option<Cert>, idle: Option<IdleStats>,
    sni: map<Variant, SniStats>, resets: map<Phase, nat>)

  /** What one locked call adds to one bucket. */
  datatype Record =
    | Failed(cause: Class)
    | BadCert(cert: Cert)
    | SniOutcome(variant: Variant, outcome: Option<Class>)
    | ResetIn(phase: Phase)
    | ShortDone(connect: int, handshake: int, synRetrans: nat)
    | Connected(connect: int, synRetrans: nat)
    | Pong(rtt: int)
    | LostPong
    | ConnDropped
    | ClosedByServer
    | IdleDied(death: Death)
    | TcpReading(rtt: int, rttVar: int, retrans: nat)

  /** One locked region of the aggregator. */
  datatype Op =
    | Register(target: Target, modes: seq<Mode>)
    | Unregister(target: Target)
    | Note(target: Target, mode: Mode, record: Record)
    | Fingerprint(target: Target, fingerprint: string)
    | SetSurvived(target: Target, gap: int)
    | Flush(minute: int)

  const TARGET_MODES: seq<Mode> := [Short, Long, Idle]

  // ----- one bucket

  function Bump<K(==)>(m: map<K, nat>, k: K): map<K, nat> {
    m[k := (if k in m then m[k] else 0) + 1]
  }

  function CountsAsSample(mode: Mode): bool { mode == Short || mode == Compare }

  function Update(b: Bucket, mode: Mode, record: Record): Bucket {
    match record
    case Failed(cause) =>
      b.(failures := Bump(b.failures, cause),
         samples := if CountsAsSample(mode) then b.samples + 1 else b.samples)
    case BadCert(cert) =>
      b.(failures := Bump(b.failures, Intercepted), cert := Some(cert))
    case SniOutcome(variant, outcome) =>
      var s := if variant in b.sni then b.sni[variant] else SniStats(0, map[]);
      b.(sni := b.sni[variant := SniStats(s.samples + 1,
                                          if outcome.Some? then Bump(s.failures, outcome.value) else s.failures)])
    case ResetIn(phase) =>
      b.(resets := Bump(b.resets, phase))
    case ShortDone(connect, handshake, retrans) =>
      b.(samples := b.samples + 1, losses := b.losses + retrans,
         connect := b.connect + [Ms(connect)], tls := b.tls + [Ms(handshake)])
    case Connected(connect, retrans) =>
      b.(samples := b.samples + 1, losses := b.losses + retrans, connect := b.connect + [Ms(connect)])
    case Pong(rtt) =>
      b.(samples := b.samples + 1, rtt := b.rtt + [Ms(rtt)])
    case LostPong =>
      b.(samples := b.samples + 1, losses := b.losses + 1)
    case ConnDropped => b.(drops := b.drops + 1)
    case ClosedByServer => b.(serverClosed := b.serverClosed + 1)
    case IdleDied(death) => b.(died := Some(death))
    case TcpReading(rtt, rttVar, retrans) =>
      var before := if b.tcp.Some? then b.tcp.value.retrans else 0;
      // The counter is a uint32 and wraps.
      b.(tcp := Some(TcpStats(Ms(rtt), Ms(rttVar), (before + retrans) % WORD)))
  }

  /** The aggregate of a bucket; survived is reported for the idle mode only. */
  function Emit(b: Bucket, minute: int, key: Key, survived: int): Aggregate {
    Aggregate(minute, key, b.samples, b.losses, Summary(b.connect), Summary(b.tls), Summary(b.rtt),
              b.failures, b.drops, b.serverClosed, b.tcp, b.cert,
              if key.mode == Idle then Some(IdleStats(survived, b.died)) else None,
              b.sni, b.resets)
  }

  // ----- the whole state

  datatype State = State(
    targets: seq<Target>, modes: map<Target, seq<Mode>>, removed: set<Target>,
    buckets: map<Key, Bucket>, lastFP: map<Target, string>, survived: map<Target, int>)

  const INITIAL: State := State([], map[], {}, map[], map[], map[])

  function ModesOf(s: State, t: Target): seq<Mode> {
    if t in s.modes then s.modes[t] else []
  }

  function BucketOf(s: State, k: Key): Bucket {
    if k in s.buckets then s.buckets[k] else EMPTY
  }

  function SurvivedOf(s: State, t: Target): int {
    if t in s.survived then s.survived[t] else 0
  }

  /** Every target has a bucket for each of its modes, so a flush never looks one up in vain. */
  ghost predicate Valid(s: State) {
    && Distinct(s.targets)
    && (forall t :: t in s.targets ==> t in s.modes)
    && (forall t, m :: t in s.targets && m in ModesOf(s, t) ==> Key(t, m) in s.buckets)
  }

  function WithBuckets(buckets: map<Key, Bucket>, t: Target, modes: seq<Mode>): map<Key, Bucket> {
    (map m | m in modes :: Key(t, m) := EMPTY) + buckets
  }

  lemma WithOneMore(buckets: map<Key, Bucket>, t: Target, modes: seq<Mode>, m: Mode)
    ensures var b := WithBuckets(buckets, t, modes);
            WithBuckets(buckets, t, modes + [m]) == if Key(t, m) in b then b else b[Key(t, m) := EMPTY]
  {
    assert forall x :: x in modes + [m] <==> x in modes || x == m;
  }

  function WithEmpty(buckets: map<Key, Bucket>, t: Target, modes: seq<Mode>): map<Key, Bucket> {
    map k | k in buckets :: if k.target == t && k.mode in modes then EMPTY else buckets[k]
  }

  lemma EmptyOneMore(buckets: map<Key, Bucket>, t: Target, modes: seq<Mode>, m: Mode)
    requires Key(t, m) in buckets
    ensures WithEmpty(buckets, t, modes + [m]) == WithEmpty(buckets, t, modes)[Key(t, m) := EMPTY]
  {
    assert forall x :: x in modes + [m] <==> x in modes || x == m;
  }

  /** A mode listed twice is emitted twice, the second time with nothing in it. */
  function EmitModes(s: State, minute: int, t: Target, modes: seq<Mode>): seq<Aggregate> {
    if modes == [] then []
    else
      var init, m := modes[..|modes| - 1], modes[|modes| - 1];
      EmitModes(s, minute, t, init) + [EmitMode(s, minute, Key(t, m), m in init)]
  }

  function EmitMode(s: State, minute: int, k: Key, again: bool): Aggregate {
    Emit(if again then EMPTY else BucketOf(s, k), minute, k, SurvivedOf(s, k.target))
  }

  lemma EmitOneMore(s: State, minute: int, t: Target, modes: seq<Mode>, m: Mode)
    ensures EmitModes(s, minute, t, modes + [m]) ==
            EmitModes(s, minute, t, modes) + [EmitMode(s, minute, Key(t, m), m in modes)]
  {
    assert (modes + [m])[..|modes|] == modes;
  }

  lemma FlushOneMore(s: State, minute: int, t: Target, modes: seq<Mode>, i: nat)
    requires i < |modes| && Key(t, modes[i]) in s.buckets
    ensures var k, emptied := Key(t, modes[i]), WithEmpty(s.buckets, t, modes[..i]);
            && EmitModes(s, minute, t, modes[..i + 1]) ==
               EmitModes(s, minute, t, modes[..i]) + [Emit(emptied[k], minute, k, SurvivedOf(s, t))]
            && WithEmpty(s.buckets, t, modes[..i + 1]) == emptied[k := EMPTY]
  {
    assert modes[..i + 1] == modes[..i] + [modes[i]];
    EmitOneMore(s, minute, t, modes[..i], modes[i]);
    EmptyOneMore(s.buckets, t, modes[..i], modes[i]);
  }

  function EmitTargets(s: State, minute: int, ts: seq<Target>): seq<Aggregate> {
    if ts == [] then []
    else
      var t := ts[|ts| - 1];
      EmitTargets(s, minute, ts[..|ts| - 1]) + EmitModes(s, minute, t, ModesOf(s, t))
  }

  predicate Forgotten(s: State, ts: seq<Target>, t: Target) {
    t in ts && t in s.removed
  }

  function EmptiedBuckets(s: State, ts: seq<Target>): map<Key, Bucket> {
    map k | k in s.buckets && !(Forgotten(s, ts, k.target) && k.mode in ModesOf(s, k.target)) ::
      if k.target in ts && k.mode in ModesOf(s, k.target) then EMPTY else s.buckets[k]
  }

  /** The state once the targets ts are emitted: their buckets are empty and the removed ones forgotten. */
  function Emptied(s: State, ts: seq<Target>): State {
    s.(removed := s.removed - (set t | t in ts),
       modes := (map t | t in s.modes && !Forgotten(s, ts, t) :: s.modes[t]),
       buckets := EmptiedBuckets(s, ts),
       lastFP := (map t | t in s.lastFP && !Forgotten(s, ts, t) :: s.lastFP[t]),
       survived := (map t | t in s.survived && !Forgotten(s, ts, t) :: s.survived[t]))
  }

  function Kept(targets: seq<Target>, removed: set<Target>): (kept: seq<Target>)
    ensures |kept| <= |targets|
  {
    if targets == [] then []
    else
      var last := targets[|targets| - 1];
      Kept(targets[..|targets| - 1], removed) + if last in removed then [] else [last]
  }

  /** Everything emitting t looks up is there. */
  ghost predicate Flushable(s: State, t: Target) {
    && t in s.modes
    && forall m :: m in s.modes[t] ==> Key(t, m) in s.buckets
  }

  lemma EmptiedBeyond(s: State, visited: seq<Target>, t: Target)
    requires Flushable(s, t) && t !in visited
    ensures var after := Emptied(s, visited);
            && Flushable(after, t)
            && ModesOf(after, t) == ModesOf(s, t)
            && (forall m :: BucketOf(after, Key(t, m)) == BucketOf(s, Key(t, m)))
            && SurvivedOf(after, t) == SurvivedOf(s, t)
            && (t in after.removed <==> t in s.removed)
  {
  }

  function Visit(s: State, t: Target): State {
    var emptied := s.(buckets := WithEmpty(s.buckets, t, ModesOf(s, t)));
    if t in s.removed then Forget(emptied, t) else emptied
  }

  function Without(buckets: map<Key, Bucket>, t: Target, modes: seq<Mode>): map<Key, Bucket> {
    map k | k in buckets && !(k.target == t && k.mode in modes) :: buckets[k]
  }

  function Forget(s: State, t: Target): State {
    s.(removed := s.removed - {t},
       buckets := Without(s.buckets, t, ModesOf(s, t)),
       modes := s.modes - {t}, lastFP := s.lastFP - {t}, survived := s.survived - {t})
  }

  lemma VisitBucket(s: State, visited: seq<Target>, t: Target, k: Key)
    requires t !in visited
    ensures var a, b := Visit(Emptied(s, visited), t).buckets, EmptiedBuckets(s, visited + [t]);
            (k in a <==> k in b) && (k in a ==> a[k] == b[k])
  {
    assert k.target in visited + [t] <==> k.target in visited || k.target == t;
    if k.target == t {
      assert ModesOf(Emptied(s, visited), t) == ModesOf(s, t);
    }
  }

  lemma VisitBuckets(s: State, visited: seq<Target>, t: Target)
    requires t !in visited
    ensures Visit(Emptied(s, visited), t).buckets == EmptiedBuckets(s, visited + [t])
  {
    forall k
      ensures var a, b := Visit(Emptied(s, visited), t).buckets, EmptiedBuckets(s, visited + [t]);
              (k in a <==> k in b) && (k in a ==> a[k] == b[k])
    {
      VisitBucket(s, visited, t, k);
    }
  }

  lemma VisitOneMore(s: State, visited: seq<Target>, t: Target)
    requires t !in visited
    ensures Visit(Emptied(s, visited), t) == Emptied(s, visited + [t])
  {
    VisitBuckets(s, visited, t);
    var a, b := Visit(Emptied(s, visited), t), Emptied(s, visited + [t]);
    forall x
      ensures x in visited + [t] <==> x in visited || x == t
      ensures Forgotten(s, visited + [t], x) <==> Forgotten(s, visited, x) || (x == t && t in s.removed)
    {
    }
    assert a.removed == b.removed;
    assert a.modes == b.modes;
    assert a.lastFP == b.lastFP;
    assert a.survived == b.survived;
  }

  /** Visiting t after the others: it is untouched so far, and what it leads to. */
  lemma VisitNext(before: State, now: State, minute: int, visited: seq<Target>, t: Target)
    requires Flushable(before, t) && t !in visited
    requires now == Emptied(before, visited).(targets := now.targets)
    ensures Flushable(now, t) && (t in now.removed <==> t in before.removed)
    ensures EmitModes(now, minute, t, ModesOf(now, t)) == EmitModes(before, minute, t, ModesOf(before, t))
    ensures Visit(now, t) == Emptied(before, visited + [t]).(targets := now.targets)
  {
    var emptied := Emptied(before, visited);
    EmptiedBeyond(before, visited, t);
    EmitModesAgree(before, now, minute, t, ModesOf(before, t));
    VisitOneMore(before, visited, t);
    VisitKeepsTargets(emptied, now.targets, t);
  }

  lemma VisitKeepsTargets(s: State, ts: seq<Target>, t: Target)
    ensures Visit(s.(targets := ts), t) == Visit(s, t).(targets := ts)
  {
  }

  function AfterFlush(s: State): State {
    Emptied(s, s.targets).(targets := Kept(s.targets, s.removed))
  }

  function Step(s: State, op: Op): State {
    match op
    case Register(t, modes) =>
      s.(removed := s.removed - {t},
         targets := if t in s.targets then s.targets else s.targets + [t],
         modes := s.modes[t := modes],
         buckets := WithBuckets(s.buckets, t, modes))
    case Unregister(t) => s.(removed := s.removed + {t})
    case Note(t, mode, record) =>
      var k := Key(t, mode);
      if k in s.buckets then s.(buckets := s.buckets[k := Update(s.buckets[k], mode, record)]) else s
    case Fingerprint(t, fp) => s.(lastFP := s.lastFP[t := fp])
    case SetSurvived(t, gap) =>
      if Key(t, Idle) in s.buckets then s.(survived := s.survived[t := gap]) else s
    case Flush(_) => AfterFlush(s)
  }

  function Steps(s: State, ops: seq<Op>): State {
    if ops == [] then s else Step(Steps(s, ops[..|ops| - 1]), ops[|ops| - 1])
  }

  /** Writing the i-th element at or before i leaves everything after it alone. */
  lemma OverwriteFront(ts: seq<Target>, kept: nat, i: nat)
    requires kept <= i < |ts|
    ensures ts[kept := ts[i]][..kept + 1] == ts[..kept] + [ts[i]]
    ensures ts[kept := ts[i]][i + 1..] == ts[i + 1..]
  {
  }

  lemma {:induction false} KeptElements(targets: seq<Target>, removed: set<Target>)
    requires Distinct(targets)
    ensures Distinct(Kept(targets, removed))
    ensures forall t :: t in Kept(targets, removed) <==> t in targets && t !in removed
  {
    if targets != [] {
      var init := targets[..|targets| - 1];
      KeptElements(init, removed);
      assert targets == init + [targets[|targets| - 1]];
    }
  }

  lemma {:induction false} EmitModesAgree(a: State, b: State, minute: int, t: Target, modes: seq<Mode>)
    requires forall m :: m in modes ==> BucketOf(a, Key(t, m)) == BucketOf(b, Key(t, m))
    requires SurvivedOf(a, t) == SurvivedOf(b, t)
    ensures EmitModes(a, minute, t, modes) == EmitModes(b, minute, t, modes)
  {
    if modes != [] {
      EmitModesAgree(a, b, minute, t, modes[..|modes| - 1]);
    }
  }

  lemma RegisterKeepsValid(s: State, t: Target, modes: seq<Mode>)
    requires Valid(s)
    ensures Valid(Step(s, Register(t, modes)))
  {
    assert forall u :: u in Step(s, Register(t, modes)).targets <==> u in s.targets || u == t;
  }

  lemma FlushKeepsValid(s: State)
    requires Valid(s)
    ensures Valid(AfterFlush(s))
  {
    KeptElements(s.targets, s.removed);
  }

  lemma StepsOneMore(s: State, ops: seq<Op>, op: Op)
    ensures Steps(s, ops + [op]) == Step(Steps(s, ops), op)
  {
    assert (ops + [op])[..|ops|] == ops;
  }

  lemma {:induction false} StepsJoin(s: State, a: seq<Op>, b: seq<Op>)
    ensures Steps(s, a + b) == Steps(Steps(s, a), b)
  {
    if b == [] {
      assert a + b == a;
    } else {
      var init, last := b[..|b| - 1], b[|b| - 1];
      StepsJoin(s, a, init);
      StepsOneMore(s, a + init, last);
      StepsOneMore(Steps(s, a), init, last);
      assert b == init + [last] && a + b == (a + init) + [last];
    }
  }

  // ----- the object

  class Agg {
    var targets: seq<Target>
    var modes: map<Target, seq<Mode>>
    var removed: set<Target>
    var buckets: map<Key, Bucket>
    var lastFP: map<Target, string>
    var survived: map<Target, int>

    function View(): State
      reads this
    {
      State(targets, modes, removed, buckets, lastFP, survived)
    }

    constructor ()
      ensures View() == INITIAL && Valid(View())
    {
      targets, modes, removed := [], map[], {};
      buckets, lastFP, survived := map[], map[], map[];
    }

    method RegisterModes(t: Target, ms: seq<Mode>)
      requires Valid(View())
      modifies this
      ensures View() == Step(old(View()), Register(t, ms))
      ensures Valid(View())
    {
      removed := removed - {t};
      if t !in targets {
        targets := targets + [t];
      }
      modes := modes[t := ms];
      AddBuckets(t, ms);
      RegisterKeepsValid(old(View()), t, ms);
    }

    /** Adds the buckets of ms that are missing. */
    method AddBuckets(t: Target, ms: seq<Mode>)
      modifies this`buckets
      ensures buckets == WithBuckets(old(buckets), t, ms)
    {
      for i := 0 to |ms|
        invariant buckets == WithBuckets(old(buckets), t, ms[..i])
      {
        if Key(t, ms[i]) !in buckets {
          buckets := buckets[Key(t, ms[i]) := EMPTY];
        }
        WithOneMore(old(buckets), t, ms[..i], ms[i]);
        assert ms[..i + 1] == ms[..i] + [ms[i]];
      }
      assert ms[..|ms|] == ms;
    }

    method Remove(t: Target)
      requires Valid(View())
      modifies this`removed
      ensures View() == Step(old(View()), Unregister(t))
      ensures Valid(View())
    {
      removed := removed + {t};
    }

    /** Adds a record to the bucket for (t, mode), if there is one. */
    method With(t: Target, mode: Mode, record: Record)
      requires Valid(View())
      modifies this`buckets
      ensures View() == Step(old(View()), Note(t, mode, record))
      ensures Valid(View())
    {
      var k := Key(t, mode);
      if k in buckets {
        buckets := buckets[k := Update(buckets[k], mode, record)];
      }
    }

    /** Two locked regions: the failure is counted, then the fingerprint compared. */
    method NoteInterception(t: Target, mode: Mode, cert: Cert) returns (news: bool)
      requires Valid(View())
      modifies this
      ensures View() == Steps(old(View()), [Note(t, mode, BadCert(cert)), Fingerprint(t, cert.fingerprint)])
      ensures Valid(View())
      ensures news <==> !(t in old(lastFP) && old(lastFP)[t] == cert.fingerprint)
    {
      With(t, mode, BadCert(cert));
      ghost var ops := [Note(t, mode, BadCert(cert)), Fingerprint(t, cert.fingerprint)];
      assert ops[..1][..0] == [] && ops[..1] == [ops[0]];
      assert Steps(old(View()), ops[..1]) == View();
      if t in lastFP && lastFP[t] == cert.fingerprint {
        assert lastFP[t := cert.fingerprint] == lastFP;
        return false;
      }
      lastFP := lastFP[t := cert.fingerprint];
      return true;
    }

    method IdleSurvived(t: Target, gap: int)
      requires Valid(View())
      modifies this`survived
      ensures View() == Step(old(View()), SetSurvived(t, gap))
      ensures Valid(View())
    {
      if Key(t, Idle) in buckets {
        survived := survived[t := gap];
      }
    }

    /** Emits t's modes and empties their buckets. */
    method FlushModes(minute: int, t: Target, ms: seq<Mode>) returns (out: seq<Aggregate>)
      requires forall m :: m in ms ==> Key(t, m) in buckets
      modifies this`buckets
      ensures out == EmitModes(old(View()), minute, t, ms)
      ensures buckets == WithEmpty(old(buckets), t, ms)
    {
      ghost var start := View();
      out := [];
      for i := 0 to |ms|
        invariant View().(buckets := start.buckets) == start
        invariant out == EmitModes(start, minute, t, ms[..i])
        invariant buckets == WithEmpty(start.buckets, t, ms[..i])
      {
        var k := Key(t, ms[i]);
        FlushOneMore(start, minute, t, ms, i);
        out := out + [Emit(buckets[k], minute, k, if t in survived then survived[t] else 0)];
        buckets := buckets[k := EMPTY];
      }
      assert ms[..|ms|] == ms;
    }

    method FlushTarget(minute: int, t: Target) returns (out: seq<Aggregate>, gone: bool)
      requires Flushable(View(), t)
      modifies this`buckets, this`removed, this`modes, this`lastFP, this`survived
      ensures out == EmitModes(old(View()), minute, t, ModesOf(old(View()), t))
      ensures View() == Visit(old(View()), t)
      ensures gone <==> t in old(removed)
    {
      var ms := modes[t];
      out := FlushModes(minute, t, ms);
      gone := t in removed;
      if gone {
        removed := removed - {t};
        buckets := Without(buckets, t, ms);
        modes, lastFP, survived := modes - {t}, lastFP - {t}, survived - {t};
      }
    }

    /** The first i of before's targets are visited, the ones to keep moved to the front. */
    ghost predicate Midway(before: State, i: nat, kept: nat)
      reads this
    {
      && kept <= i <= |before.targets| == |targets|
      && targets[..kept] == Kept(before.targets[..i], before.removed)
      && targets[i..] == before.targets[i..]
      && View() == Emptied(before, before.targets[..i]).(targets := targets)
    }

    method FlushNext(ghost before: State, minute: int, i: nat, kept: nat)
      returns (out: seq<Aggregate>, kept': nat)
      requires Valid(before) && i < |before.targets| && Midway(before, i, kept)
      modifies this
      ensures Midway(before, i + 1, kept')
      ensures out == EmitModes(before, minute, before.targets[i], ModesOf(before, before.targets[i]))
    {
      var t := targets[i];
      ghost var visited := before.targets[..i];
      assert t == before.targets[i] && before.targets[..i + 1] == visited + [t];
      assert targets[i..][1..] == targets[i + 1..] && before.targets[i..][1..] == before.targets[i + 1..];
      VisitNext(before, View(), minute, visited, t);
      OverwriteFront(targets, kept, i);
      var gone;
      out, gone := FlushTarget(minute, t);
      kept' := kept;
      if !gone {
        targets := targets[kept := t];
        kept' := kept + 1;
      }
    }

    /**
     Emits and empties every bucket and forgets the removed targets. The kept
     targets are written over the front of the very slice being read.
     */
    method FlushMinute(minute: int) returns (out: seq<Aggregate>)
      requires Valid(View())
      modifies this
      ensures out == EmitTargets(old(View()), minute, old(targets))
      ensures View() == Step(old(View()), Flush(minute))
      ensures Valid(View())
    {
      ghost var before := View();
      var n := |targets|;
      var kept: nat := 0;
      out := [];
      assert Emptied(before, []) == before by {
        assert EmptiedBuckets(before, []) == before.buckets;
      }
      for i := 0 to n
        invariant Midway(before, i, kept)
        invariant out == EmitTargets(before, minute, before.targets[..i])
      {
        var more;
        more, kept := FlushNext(before, minute, i, kept);
        out := out + more;
        assert before.targets[..i + 1][..i] == before.targets[..i];
      }
      assert before.targets[..n] == before.targets;
      targets := targets[..kept];
      FlushKeepsValid(before);
    }
  }
}
