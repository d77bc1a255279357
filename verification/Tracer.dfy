/**
 The route tracer: probes of growing TTL, a shared probe size that shrinks when
 a router says so, and an error queue holding whatever the network put there.

 The socket is an arbitrary environment: the outcome of every system call of
 the n-th probe attempt is env(n), so a statement about all env covers every
 sequence of replies, late, forged or missing.
 */
module Tracer {
  import opened Prelude

  const MAX_HOPS: nat := 30
  const PROBES_PER_HOP: nat := 2
  const MAX_SILENT: nat := 5
  const HEADERS: nat := 28
  const MIN_MTU: nat := 576

  // EMSGSIZE and SO_EE_ORIGIN_ICMP on Linux.
  const TOO_BIG_ERRNO: nat := 90
  const ORIGIN_ICMP: nat := 2

  /** The address an ICMP error came from; it may carry none. */
  datatype Addr = NoAddr | V4(bits: nat)

  datatype RecvErr = RecvErr(errno: nat, origin: nat, icmpType: nat, icmpCode: nat, info: nat, offender: Addr)

  /** One entry of the error queue; an unparsable one reads as all zeros, quoting nothing. */
  datatype Entry = Entry(err: RecvErr, quoted: seq<Byte>)

  datatype Kind = Ignore | Hop | Reached | Unreachable | TooBig

  function KindOf(e: RecvErr): Kind {
    if e.errno == TOO_BIG_ERRNO then TooBig
    else if e.origin != ORIGIN_ICMP then Ignore
    else if e.icmpType == 11 then Hop
    else if e.icmpType == 3 && e.icmpCode == 3 then Reached
    else if e.icmpType == 3 then Unreachable
    else Ignore
  }

  /** One turn of waiting: cancelled, a failed poll, nothing queued, or entries to read. */
  datatype Turn = Cancelled | PollFailed | Quiet | Queued(entries: seq<Entry>)

  datatype Written = Sent | Refused | WriteFailed

  /**
   What the system does during one attempt: two writes, each after a drain, the
   queue read after a refused write, and the turns until the probe's deadline.
   */
  datatype Attempt = Attempt(
    stale: seq<Entry>, write: Written, stale': seq<Entry>, rewrite: Written,
    queue: seq<Entry>, turns: seq<Turn>)

  type Env = nat -> Attempt

  datatype Probe = Probe(seqno: nat, ttl: nat, mtu: int)

  // ----- the pieces of one attempt

  function Word(b: seq<Byte>): nat
    requires |b| >= 4
  {
    b[0] as int * 0x100_0000 + b[1] as int * 0x1_0000 + b[2] as int * 0x100 + b[3] as int
  }

  /** The MTU of the last local too-big entry, 0 if there is none. */
  function DrainedMTU(entries: seq<Entry>): nat {
    if entries == [] then 0
    else if KindOf(entries[|entries| - 1].err) == TooBig then entries[|entries| - 1].err.info
    else DrainedMTU(entries[..|entries| - 1])
  }

  /** A failed write is tried once more: a queued error fails a send just once. */
  function SendOutcome(a: Attempt): Written {
    if a.write == WriteFailed then a.rewrite else a.write
  }

  predicate Answers(e: Entry, seqno: nat) {
    KindOf(e.err) != Ignore && (|e.quoted| < 4 || Word(e.quoted) == seqno)
  }

  datatype Awaited = Answer(entry: Entry) | Timeout | WaitFailed

  function FirstAnswer(entries: seq<Entry>, seqno: nat): (r: Option<Entry>)
    ensures r.Some? ==> r.value in entries && Answers(r.value, seqno)
    ensures r.None? ==> forall e :: e in entries ==> !Answers(e, seqno)
  {
    if entries == [] then None
    else if Answers(entries[0], seqno) then Some(entries[0])
    else FirstAnswer(entries[1..], seqno)
  }

  function Await(turns: seq<Turn>, seqno: nat): Awaited {
    if turns == [] then Timeout
    else
      match turns[0]
      case Cancelled => WaitFailed
      case PollFailed => WaitFailed
      case Quiet => Await(turns[1..], seqno)
      case Queued(entries) =>
        var found := FirstAnswer(entries, seqno);
        if found.Some? then Answer(found.value) else Await(turns[1..], seqno)
  }

  function Lowered(mtu: int, advised: nat): int {
    if MIN_MTU <= advised < mtu then advised else Max(MIN_MTU, mtu - HEADERS)
  }

  // ----- one TTL

  datatype State = State(mtu: int, seqno: nat, log: seq<Probe>)

  datatype HopResult = Replied(addr: Addr, kind: Kind) | Silent | HopFailed

  /** What an attempt comes to, before it is known whether it used up a try. */
  datatype Outcome = Shrink(advised: nat) | Retry | Finish(result: HopResult)

  function OutcomeOf(a: Attempt, seqno: nat): Outcome {
    match SendOutcome(a)
    case Refused => Shrink(DrainedMTU(a.queue))
    case WriteFailed => Finish(HopFailed)
    case Sent =>
      match Await(a.turns, seqno)
      case WaitFailed => Finish(HopFailed)
      case Timeout => Retry
      case Answer(entry) =>
        if KindOf(entry.err) == TooBig then Shrink(entry.err.info)
        else Finish(Replied(entry.err.offender, KindOf(entry.err)))
  }

  function Slack(mtu: int): nat { if mtu > MIN_MTU then mtu - MIN_MTU else 0 }

  function Launch(s: State, ttl: nat): State {
    var seqno := (s.seqno + 1) % WORD;
    s.(seqno := seqno, log := s.log + [Probe(seqno, ttl, s.mtu)])
  }

  /** One TTL from its try-th try on. A drop of the MTU does not use up a try. */
  function RunHop(env: Env, s: State, ttl: nat, tried: nat): (State, HopResult)
    requires tried <= PROBES_PER_HOP
    decreases PROBES_PER_HOP - tried + Slack(s.mtu)
  {
    if tried == PROBES_PER_HOP then (s, Silent)
    else
      var launched := Launch(s, ttl);
      match OutcomeOf(env(|s.log|), launched.seqno)
      case Finish(result) => (launched, result)
      case Retry => RunHop(env, launched, ttl, tried + 1)
      case Shrink(advised) =>
        var mtu := Lowered(s.mtu, advised);
        RunHop(env, launched.(mtu := mtu), ttl, if mtu < s.mtu then tried else tried + 1)
  }

  // ----- the whole trace

  datatype TraceHop = TraceHop(ttl: nat, ip: Option<Addr>)

  /** last is the kind of the last hop's answer, Ignore if it had none. */
  datatype Result = Result(hops: seq<TraceHop>, reached: bool, pmtu: int, failed: bool, last: Kind)

  function HopOf(ttl: nat, r: HopResult): TraceHop {
    TraceHop(ttl, if r.Replied? then Some(r.addr) else None)
  }

  function WithHop(res: Result, s: State, ttl: nat, r: HopResult): Result {
    Result(res.hops + [HopOf(ttl, r)], false, s.mtu, false, if r.Replied? then r.kind else Ignore)
  }

  /** The trace goes on after this answer. */
  predicate GoesOn(r: HopResult) {
    !r.HopFailed? && (r.Replied? ==> r.kind != Reached && r.kind != Unreachable)
  }

  /** The trace from ttl on; ttlSet says whether the TTL could be set on the socket. */
  function RunFrom(env: Env, ttlSet: nat -> bool, s: State, ttl: nat, silent: nat, res: Result): (State, Result)
    requires 1 <= ttl <= MAX_HOPS + 1
    decreases MAX_HOPS + 1 - ttl
  {
    if ttl > MAX_HOPS || silent >= MAX_SILENT then (s, res)
    else if !ttlSet(ttl) then (s, res.(failed := true))
    else
      var (s', r) := RunHop(env, s, ttl, 0);
      var res' := WithHop(res, s', ttl, r);
      if r.HopFailed? then (s', res'.(failed := true))
      else if res'.last == Reached then (s', res'.(reached := true))
      else if res'.last == Unreachable then (s', res')
      else RunFrom(env, ttlSet, s', ttl + 1, if r.Silent? then silent + 1 else 0, res')
  }

  const NOTHING: Result := Result([], false, 0, false, Ignore)

  function Trace(env: Env, ttlSet: nat -> bool, mtu: int): (State, Result) {
    RunFrom(env, ttlSet, State(mtu, 0, []), 1, 0, NOTHING)
  }

  // ----- the object

  class Tracer {
    var mtu: int
    var seqno: nat
    // How many attempts were made; the position in the environment.
    var attempts: nat
    ghost var log: seq<Probe>

    ghost predicate Valid()
      reads this
    {
      // A probe's payload holds its sequence number.
      mtu >= HEADERS + 4 && attempts == |log|
    }

    ghost function View(): State
      reads this
    {
      State(mtu, seqno, log)
    }

    constructor (mtu: int)
      requires mtu >= HEADERS + 4
      ensures Valid() && View() == State(mtu, 0, [])
    {
      this.mtu, seqno, attempts, log := mtu, 0, 0, [];
    }

    /** Drops the probe size to the advised one or, if that is no use, by a header. */
    method Lower(advised: nat) returns (dropped: bool)
      requires Valid()
      modifies this`mtu
      ensures Valid() && mtu == Lowered(old(mtu), advised)
      ensures dropped <==> mtu < old(mtu)
    {
      var before := mtu;
      if advised >= MIN_MTU && advised < mtu {
        mtu := advised;
      } else {
        mtu := Max(MIN_MTU, mtu - HEADERS);
      }
      dropped := mtu < before;
    }

    method Drain(entries: seq<Entry>) returns (advised: nat)
      ensures advised == DrainedMTU(entries)
    {
      advised := 0;
      for i := 0 to |entries|
        invariant advised == DrainedMTU(entries[..i])
      {
        assert entries[..i + 1][..i] == entries[..i];
        if KindOf(entries[i].err) == TooBig {
          advised := entries[i].err.info;
        }
      }
      assert entries[..|entries|] == entries;
    }

    /** Sends the probe, at most twice, over an emptied error queue. */
    method Send(a: Attempt) returns (written: Written)
      ensures written == SendOutcome(a)
    {
      var _ := Drain(a.stale);
      written := a.write;
      if written == WriteFailed {
        var _ := Drain(a.stale');
        written := a.rewrite;
      }
    }

    method Wait(turns: seq<Turn>) returns (awaited: Awaited)
      ensures awaited == Await(turns, seqno)
    {
      for i := 0 to |turns|
        invariant Await(turns, seqno) == Await(turns[i..], seqno)
      {
        match turns[i] {
          case Cancelled => return WaitFailed;
          case PollFailed => return WaitFailed;
          case Quiet =>
          case Queued(entries) =>
            var n := 0;
            while n < |entries|
              invariant n <= |entries|
              invariant FirstAnswer(entries, seqno) == FirstAnswer(entries[n..], seqno)
            {
              var e := entries[n];
              if KindOf(e.err) != Ignore && (|e.quoted| < 4 || Word(e.quoted) == seqno) {
                return Answer(e);
              }
              n := n + 1;
            }
        }
      }
      awaited := Timeout;
    }

    method ProbeHop(ttl: nat, env: Env) returns (result: HopResult)
      requires Valid()
      modifies this
      ensures (View(), result) == RunHop(env, old(View()), ttl, 0)
      ensures Valid()
    {
      var tried := 0;
      while tried < PROBES_PER_HOP
        invariant tried <= PROBES_PER_HOP && Valid()
        invariant RunHop(env, View(), ttl, tried) == RunHop(env, old(View()), ttl, 0)
        decreases PROBES_PER_HOP - tried + Slack(mtu)
      {
        var a := env(attempts);
        seqno := (seqno + 1) % WORD;
        attempts, log := attempts + 1, log + [Probe(seqno, ttl, mtu)];
        var written := Send(a);
        if written == Refused {
          var advised := Drain(a.queue);
          var dropped := Lower(advised);
          if !dropped {
            tried := tried + 1;
          }
          continue;
        }
        if written == WriteFailed {
          return HopFailed;
        }
        var awaited := Wait(a.turns);
        match awaited {
          case WaitFailed => return HopFailed;
          case Timeout => tried := tried + 1;
          case Answer(entry) =>
            if KindOf(entry.err) != TooBig {
              return Replied(entry.err.offender, KindOf(entry.err));
            }
            var dropped := Lower(entry.err.info);
            if !dropped {
              tried := tried + 1;
            }
        }
      }
      result := Silent;
    }

    method Run(env: Env, ttlSet: nat -> bool) returns (res: Result)
      requires Valid()
      modifies this
      ensures (View(), res) == RunFrom(env, ttlSet, old(View()), 1, 0, NOTHING)
      ensures Valid()
    {
      res := NOTHING;
      var silent, ttl := 0, 1;
      while ttl <= MAX_HOPS && silent < MAX_SILENT
        invariant 1 <= ttl <= MAX_HOPS + 1 && Valid()
        invariant RunFrom(env, ttlSet, View(), ttl, silent, res)
               == RunFrom(env, ttlSet, old(View()), 1, 0, NOTHING)
      {
        if !ttlSet(ttl) {
          return res.(failed := true);
        }
        var r := ProbeHop(ttl, env);
        var kind := if r.Replied? then r.kind else Ignore;
        res := Result(res.hops + [HopOf(ttl, r)], false, mtu, false, kind);
        if r.HopFailed? {
          return res.(failed := true);
        }
        if kind == Reached {
          return res.(reached := true);
        }
        if kind == Unreachable {
          return res;
        }
        silent := if r.Silent? then silent + 1 else 0;
        ttl := ttl + 1;
      }
    }
  }

  // ----- how long a trace can take

  /** MTU drops are paid for by the whole trace, not by each TTL. */
  lemma {:induction false} HopBound(env: Env, s: State, ttl: nat, tried: nat)
    requires tried <= PROBES_PER_HOP
    ensures var (after, _) := RunHop(env, s, ttl, tried);
            && s.log <= after.log
            && |after.log| + Slack(after.mtu) <= |s.log| + Slack(s.mtu) + (PROBES_PER_HOP - tried)
    decreases PROBES_PER_HOP - tried + Slack(s.mtu)
  {
    if tried < PROBES_PER_HOP {
      var launched := Launch(s, ttl);
      match OutcomeOf(env(|s.log|), launched.seqno)
      case Finish(_) =>
      case Retry => HopBound(env, launched, ttl, tried + 1);
      case Shrink(advised) =>
        var mtu := Lowered(s.mtu, advised);
        HopBound(env, launched.(mtu := mtu), ttl, if mtu < s.mtu then tried else tried + 1);
    }
  }

  lemma {:induction false} RunBound(env: Env, ttlSet: nat -> bool, s: State, ttl: nat, silent: nat, res: Result)
    requires 1 <= ttl <= MAX_HOPS + 1
    ensures var (after, _) := RunFrom(env, ttlSet, s, ttl, silent, res);
            && s.log <= after.log
            && |after.log| + Slack(after.mtu) <= |s.log| + Slack(s.mtu) + PROBES_PER_HOP * (MAX_HOPS + 1 - ttl)
    decreases MAX_HOPS + 1 - ttl
  {
    if ttl <= MAX_HOPS && silent < MAX_SILENT && ttlSet(ttl) {
      HopBound(env, s, ttl, 0);
      var (s', r) := RunHop(env, s, ttl, 0);
      if GoesOn(r) {
        RunBound(env, ttlSet, s', ttl + 1, if r.Silent? then silent + 1 else 0, WithHop(res, s', ttl, r));
      }
    }
  }

  /** Whatever the network answers, a trace makes a bounded number of attempts. */
  lemma TraceIsBounded(env: Env, ttlSet: nat -> bool, mtu: int)
    ensures |Trace(env, ttlSet, mtu).0.log| <= MAX_HOPS * PROBES_PER_HOP + Max(0, mtu - MIN_MTU)
  {
    RunBound(env, ttlSet, State(mtu, 0, []), 1, 0, NOTHING);
  }

  // ----- sequence numbers and probe sizes

  /** Attempts are numbered from 1. */
  ghost predicate Numbered(s: State) {
    && s.seqno == |s.log| % WORD
    && forall i :: 0 <= i < |s.log| ==> s.log[i].seqno == (i + 1) % WORD
  }

  /** No probe was larger than the one before, all between the minimum and top. */
  ghost predicate Sized(s: State, top: int) {
    && MIN_MTU <= s.mtu <= top
    && (forall i, j :: 0 <= i < j < |s.log| ==> s.log[j].mtu <= s.log[i].mtu)
    && (forall i :: 0 <= i < |s.log| ==> s.mtu <= s.log[i].mtu <= top)
  }

  lemma NextNumber(n: nat)
    ensures (n % WORD + 1) % WORD == (n + 1) % WORD
  {
  }

  lemma {:induction false} HopKeepsOrder(env: Env, s: State, ttl: nat, tried: nat, top: int)
    requires tried <= PROBES_PER_HOP && Numbered(s)
    ensures var (after, _) := RunHop(env, s, ttl, tried);
            Numbered(after) && (Sized(s, top) ==> Sized(after, top))
    decreases PROBES_PER_HOP - tried + Slack(s.mtu)
  {
    if tried < PROBES_PER_HOP {
      var launched := Launch(s, ttl);
      NextNumber(|s.log|);
      match OutcomeOf(env(|s.log|), launched.seqno)
      case Finish(_) =>
      case Retry => HopKeepsOrder(env, launched, ttl, tried + 1, top);
      case Shrink(advised) =>
        var mtu := Lowered(s.mtu, advised);
        HopKeepsOrder(env, launched.(mtu := mtu), ttl, if mtu < s.mtu then tried else tried + 1, top);
    }
  }

  lemma {:induction false} RunKeepsOrder(env: Env, ttlSet: nat -> bool, s: State, ttl: nat, silent: nat, res: Result,
                                         top: int)
    requires 1 <= ttl <= MAX_HOPS + 1 && Numbered(s)
    ensures var (after, _) := RunFrom(env, ttlSet, s, ttl, silent, res);
            Numbered(after) && (Sized(s, top) ==> Sized(after, top))
    decreases MAX_HOPS + 1 - ttl
  {
    if ttl <= MAX_HOPS && silent < MAX_SILENT && ttlSet(ttl) {
      HopKeepsOrder(env, s, ttl, 0, top);
      var (s', r) := RunHop(env, s, ttl, 0);
      if GoesOn(r) {
        RunKeepsOrder(env, ttlSet, s', ttl + 1, if r.Silent? then silent + 1 else 0, WithHop(res, s', ttl, r), top);
      }
    }
  }

  /** e was read from the error queue while the attempt waited. */
  ghost predicate Delivered(a: Attempt, e: Entry) {
    exists k :: 0 <= k < |a.turns| && a.turns[k].Queued? && e in a.turns[k].entries
  }

  lemma {:induction false} AwaitReads(turns: seq<Turn>, seqno: nat) returns (k: nat)
    requires Await(turns, seqno).Answer?
    ensures k < |turns| && turns[k].Queued?
    ensures var e := Await(turns, seqno).entry; e in turns[k].entries && Answers(e, seqno)
  {
    if turns[0].Queued? && FirstAnswer(turns[0].entries, seqno).Some? {
      k := 0;
    } else {
      var rest := AwaitReads(turns[1..], seqno);
      k := rest + 1;
    }
  }

  /** The i-th attempt went out at ttl and e, delivered while it was awaited, answers it with address addr. */
  ghost predicate Credits(env: Env, log: seq<Probe>, i: nat, e: Entry, ttl: nat, addr: Addr) {
    && i < |log| && log[i].ttl == ttl
    && Delivered(env(i), e) && Answers(e, log[i].seqno)
    && e.err.offender == addr
  }

  lemma {:induction false} HopIsCredited(env: Env, s: State, ttl: nat, tried: nat) returns (i: nat, e: Entry)
    requires tried <= PROBES_PER_HOP
    requires RunHop(env, s, ttl, tried).1.Replied?
    ensures var (after, r) := RunHop(env, s, ttl, tried);
            Credits(env, after.log, i, e, ttl, r.addr)
    decreases PROBES_PER_HOP - tried + Slack(s.mtu)
  {
    var launched := Launch(s, ttl);
    var a := env(|s.log|);
    match OutcomeOf(a, launched.seqno)
    case Finish(_) =>
      var k := AwaitReads(a.turns, launched.seqno);
      i, e := |s.log|, Await(a.turns, launched.seqno).entry;
    case Retry =>
      i, e := HopIsCredited(env, launched, ttl, tried + 1);
    case Shrink(advised) =>
      var mtu := Lowered(s.mtu, advised);
      i, e := HopIsCredited(env, launched.(mtu := mtu), ttl, if mtu < s.mtu then tried else tried + 1);
  }

  // ----- the shape of a trace

  function TrailingSilent(hops: seq<TraceHop>): nat {
    if hops == [] || hops[|hops| - 1].ip.Some? then 0 else 1 + TrailingSilent(hops[..|hops| - 1])
  }

  ghost predicate Credited(env: Env, log: seq<Probe>, hop: TraceHop) {
    hop.ip.Some? ==> exists i: nat, e: Entry :: Credits(env, log, i, e, hop.ttl, hop.ip.value)
  }

  /** TTLs in order, no five silent ones in a row before the end, every address earned. */
  ghost predicate HopsFine(env: Env, log: seq<Probe>, hops: seq<TraceHop>) {
    && (forall n :: 0 <= n < |hops| ==> hops[n].ttl == n + 1)
    && (forall n :: 0 <= n < |hops| ==> TrailingSilent(hops[..n]) < MAX_SILENT)
    && (forall n :: 0 <= n < |hops| ==> Credited(env, log, hops[n]))
  }

  /** What holds before each TTL is probed. */
  ghost predicate Underway(env: Env, s: State, ttl: nat, silent: nat, res: Result) {
    && |res.hops| == ttl - 1
    && HopsFine(env, s.log, res.hops)
    && TrailingSilent(res.hops) == silent
    && (res.hops != [] ==> res.pmtu == s.mtu)
    && !res.reached && !res.failed && res.last != Reached && res.last != Unreachable
  }

  ghost predicate WellShaped(env: Env, s: State, res: Result) {
    && |res.hops| <= MAX_HOPS
    && HopsFine(env, s.log, res.hops)
    && (res.hops != [] ==> res.pmtu == s.mtu)
    && (res.reached <==> res.last == Reached)
    && (!res.failed ==> res.reached || res.last == Unreachable
                        || TrailingSilent(res.hops) == MAX_SILENT || |res.hops| == MAX_HOPS)
  }

  lemma CreditedLonger(env: Env, log: seq<Probe>, longer: seq<Probe>, hop: TraceHop)
    requires Credited(env, log, hop) && log <= longer
    ensures Credited(env, longer, hop)
  {
    if hop.ip.Some? {
      var i: nat, e: Entry :| Credits(env, log, i, e, hop.ttl, hop.ip.value);
      assert Credits(env, longer, i, e, hop.ttl, hop.ip.value);
    }
  }

  lemma AppendedHop(env: Env, s: State, ttl: nat, hops: seq<TraceHop>)
    requires |hops| + 1 == ttl && HopsFine(env, s.log, hops) && TrailingSilent(hops) < MAX_SILENT
    ensures var (s', r) := RunHop(env, s, ttl, 0);
            HopsFine(env, s'.log, hops + [HopOf(ttl, r)])
  {
    var (s', r) := RunHop(env, s, ttl, 0);
    var longer := hops + [HopOf(ttl, r)];
    HopBound(env, s, ttl, 0);
    forall n | 0 <= n < |longer|
      ensures Credited(env, s'.log, longer[n])
      ensures TrailingSilent(longer[..n]) < MAX_SILENT
    {
      if n < |hops| {
        CreditedLonger(env, s.log, s'.log, hops[n]);
        assert longer[..n] == hops[..n];
      } else {
        assert longer[..n] == hops;
        if r.Replied? {
          var i, e := HopIsCredited(env, s, ttl, 0);
          assert Credits(env, s'.log, i, e, ttl, r.addr);
        }
      }
    }
  }

  lemma HopKeepsShape(env: Env, s: State, ttl: nat, silent: nat, res: Result, s': State, r: HopResult)
    requires 1 <= ttl <= MAX_HOPS && Underway(env, s, ttl, silent, res)
    requires HopsFine(env, s'.log, res.hops + [HopOf(ttl, r)])
    ensures var res' := WithHop(res, s', ttl, r);
            if GoesOn(r) then Underway(env, s', ttl + 1, if r.Silent? then silent + 1 else 0, res')
            else WellShaped(env, s', res'.(failed := r.HopFailed?, reached := res'.last == Reached))
  {
    var hops := res.hops + [HopOf(ttl, r)];
    assert hops[..|hops| - 1] == res.hops;
  }

  lemma OneTTL(env: Env, s: State, ttl: nat, silent: nat, res: Result)
    requires 1 <= ttl <= MAX_HOPS && silent < MAX_SILENT && Underway(env, s, ttl, silent, res)
    ensures var (s', r) := RunHop(env, s, ttl, 0);
            var res' := WithHop(res, s', ttl, r);
            if GoesOn(r) then Underway(env, s', ttl + 1, if r.Silent? then silent + 1 else 0, res')
            else WellShaped(env, s', res'.(failed := r.HopFailed?, reached := res'.last == Reached))
  {
    AppendedHop(env, s, ttl, res.hops);
    var (s', r) := RunHop(env, s, ttl, 0);
    HopKeepsShape(env, s, ttl, silent, res, s', r);
  }

  lemma {:induction false} RunIsWellShaped(env: Env, ttlSet: nat -> bool, s: State, ttl: nat, silent: nat, res: Result)
    requires 1 <= ttl <= MAX_HOPS + 1 && silent <= MAX_SILENT && Underway(env, s, ttl, silent, res)
    ensures var (after, out) := RunFrom(env, ttlSet, s, ttl, silent, res);
            WellShaped(env, after, out)
    decreases MAX_HOPS + 1 - ttl
  {
    if ttl <= MAX_HOPS && silent < MAX_SILENT && ttlSet(ttl) {
      var (s', r) := RunHop(env, s, ttl, 0);
      OneTTL(env, s, ttl, silent, res);
      if GoesOn(r) {
        RunIsWellShaped(env, ttlSet, s', ttl + 1, if r.Silent? then silent + 1 else 0, WithHop(res, s', ttl, r));
      }
    }
  }

  /**
   TTLs 1 to n without a gap, five silent ones in a row only at the very end,
   and a trace without error ends for one of the four intended reasons.
   */
  lemma TraceIsWellShaped(env: Env, ttlSet: nat -> bool, mtu: int)
    ensures var (s, res) := Trace(env, ttlSet, mtu); WellShaped(env, s, res)
  {
    RunIsWellShaped(env, ttlSet, State(mtu, 0, []), 1, 0, NOTHING);
  }

  /** Starting at or above the minimum, probes only ever shrink, never below it; the result is the last size. */
  lemma PathMTUOnlyShrinks(env: Env, ttlSet: nat -> bool, mtu: int)
    requires mtu >= MIN_MTU
    ensures var (s, res) := Trace(env, ttlSet, mtu);
            && (forall i, j :: 0 <= i < j < |s.log| ==> s.log[j].mtu <= s.log[i].mtu)
            && (forall i :: 0 <= i < |s.log| ==> MIN_MTU <= s.mtu <= s.log[i].mtu <= mtu)
            && (res.hops != [] ==> res.pmtu == s.mtu)
  {
    RunKeepsOrder(env, ttlSet, State(mtu, 0, []), 1, 0, NOTHING, mtu);
    TraceIsWellShaped(env, ttlSet, mtu);
  }

  /** From below the minimum, an attempt to lower the probe size raises it. */
  lemma LoweringNeedsTheMinimum(mtu: int, advised: nat)
    ensures Lowered(mtu, advised) <= mtu <==> mtu >= MIN_MTU
    ensures Lowered(mtu, advised) >= MIN_MTU
  {
  }

  lemma NumbersAreUnique(s: State)
    requires Numbered(s) && |s.log| < WORD
    ensures forall i :: 0 <= i < |s.log| ==> s.log[i].seqno == i + 1
  {
    forall i | 0 <= i < |s.log|
      ensures s.log[i].seqno == i + 1
    {
      assert s.log[i].seqno == (i + 1) % WORD;
    }
  }

  /** The hop's address answers an attempt at its TTL, and if it quotes a number, of that attempt alone. */
  ghost predicate CreditedAlone(env: Env, log: seq<Probe>, hop: TraceHop)
    requires hop.ip.Some?
  {
    exists i: nat, e: Entry ::
      && Credits(env, log, i, e, hop.ttl, hop.ip.value)
      && (|e.quoted| >= 4 ==> forall j :: 0 <= j < |log| ==> (log[j].seqno == Word(e.quoted) <==> j == i))
  }

  /**
   A hop's address comes from a reply quoting a probe sent at that very TTL, or
   quoting too little to tell: no two attempts share a number, so a late reply
   is never credited to another TTL.
   */
  lemma RepliesStayAtTheirTTL(env: Env, ttlSet: nat -> bool, mtu: int)
    requires mtu < 0x8000_0000
    ensures var (s, res) := Trace(env, ttlSet, mtu);
            forall n :: 0 <= n < |res.hops| && res.hops[n].ip.Some? ==>
              res.hops[n].ttl == n + 1 && CreditedAlone(env, s.log, res.hops[n])
  {
    var (s, res) := Trace(env, ttlSet, mtu);
    TraceIsWellShaped(env, ttlSet, mtu);
    TraceIsBounded(env, ttlSet, mtu);
    RunKeepsOrder(env, ttlSet, State(mtu, 0, []), 1, 0, NOTHING, mtu);
    NumbersAreUnique(s);
    forall n | 0 <= n < |res.hops| && res.hops[n].ip.Some?
      ensures CreditedAlone(env, s.log, res.hops[n])
    {
      NumberedOnce(env, s.log, res.hops[n]);
    }
  }

  lemma NumberedOnce(env: Env, log: seq<Probe>, hop: TraceHop)
    requires forall i :: 0 <= i < |log| ==> log[i].seqno == i + 1
    requires hop.ip.Some? && Credited(env, log, hop)
    ensures CreditedAlone(env, log, hop)
  {
    var i: nat, e: Entry :| Credits(env, log, i, e, hop.ttl, hop.ip.value);
    assert |e.quoted| >= 4 ==> Word(e.quoted) == log[i].seqno;
  }
}
