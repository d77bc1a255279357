/**
 The idle connection: pinged at once, then after ever longer silences, until a
 PING fails. Reports the longest silence survived and the one that killed it.
 */
module IdleConnection {
  import opened Prelude
  import opened Aggregator
  import opened AggregatorHistory

  const IDLE_GAPS: seq<int> := [30 * SECOND, 1 * MINUTE, 2 * MINUTE, 5 * MINUTE, 10 * MINUTE, 30 * MINUTE]

  /** How a PING came back; socket tells an error of the connection itself from HTTP/2 winding it down. */
  datatype Reply = Answered(rtt: int) | Unanswered | Broken(cause: Class, socket: bool)

  /** When the loop was cancelled: before the PING's own look at it, or between that and the session's. */
  datatype Cancel = Never | Early | Late

  /**
   One PING and what surrounds it: a cancellation, whether the server had
   announced it would close, and whether the silence after it was cut short.
   */
  datatype Ping = Ping(reply: Reply, cancel: Cancel, closing: bool, cut: bool)

  /** The event a session ends with. */
  datatype End = End(how: How, phase: Option<Phase>, gap: int, survived: int)

  // ----- in closed form

  /** The silence before the next PING once k were answered. */
  function GapBefore(k: nat): int {
    if k == 0 then 0 else IDLE_GAPS[Min(k - 1, |IDLE_GAPS| - 1)]
  }

  /** The longest silence survived once k PINGs were answered. */
  function SurvivedAfter(k: nat): int {
    if k < 2 then 0 else IDLE_GAPS[Min(k - 2, |IDLE_GAPS| - 1)]
  }

  /** The silences only grow, so the last one survived is the longest. */
  lemma GapsGrow(k: nat)
    ensures GapBefore(k) <= GapBefore(k + 1) && SurvivedAfter(k) <= GapBefore(k)
    ensures 0 < k ==> 0 < GapBefore(k) && SurvivedAfter(k + 1) == Max(SurvivedAfter(k), GapBefore(k))
  {
    assert IDLE_GAPS == [30 * SECOND, 1 * MINUTE, 2 * MINUTE, 5 * MINUTE, 10 * MINUTE, 30 * MINUTE];
    assert forall i :: 0 <= i < 5 ==> 0 < IDLE_GAPS[i] < IDLE_GAPS[i + 1];
  }

  predicate KeepsGoing(p: Ping) { p.reply.Answered? && p.cancel == Never && !p.cut }

  predicate Dies(p: Ping) { !p.reply.Answered? && p.cancel == Never }

  /** A connection the server announced to close is not a drop, unless the socket failed or nothing answered. */
  function HowOf(p: Ping): How
    requires !p.reply.Answered?
  {
    match p.reply
    case Unanswered => Dropped(Timeout)
    case Broken(cause, socket) => if p.closing && !socket then ServerClosed else Dropped(cause)
  }

  function EndOf(k: nat, p: Ping): End
    requires Dies(p)
  {
    var how := HowOf(p);
    End(how,
        if how != Dropped(ConnReset) then None else if k == 0 then Some(Transfer) else Some(IdlePhase),
        GapBefore(k), SurvivedAfter(k))
  }

  function EndedOps(t: Target, mode: Mode, how: How, phase: Phase): seq<Op> {
    match how
    case ServerClosed => [Note(t, mode, ClosedByServer)]
    case Dropped(cause) =>
      [Note(t, mode, ConnDropped)] + if cause == ConnReset then [Note(t, mode, ResetIn(phase))] else []
  }

  /** What the PING itself records. */
  function PingOps(t: Target, p: Ping): seq<Op> {
    match p.reply
    case Answered(rtt) => [Note(t, Idle, Pong(rtt))]
    case Unanswered => if p.cancel == Early then [] else [Note(t, Idle, LostPong)]
    case Broken(_, _) => []
  }

  function DeathOps(t: Target, k: nat, p: Ping): seq<Op>
    requires Dies(p)
  {
    var end := EndOf(k, p);
    EndedOps(t, Idle, end.how, if k == 0 then Transfer else IdlePhase)
    + [Note(t, Idle, IdleDied(Death(end.gap, end.survived, end.how)))]
    + [SetSurvived(t, 0)]
  }

  /** What the session records about the PING after k answered ones. */
  function VerdictOps(t: Target, k: nat, p: Ping): seq<Op> {
    if p.cancel != Never then []
    else if Dies(p) then DeathOps(t, k, p)
    else if k == 0 then []
    else [SetSurvived(t, SurvivedAfter(k + 1))]
  }

  function RoundOps(t: Target, k: nat, p: Ping): seq<Op> {
    PingOps(t, p) + VerdictOps(t, k, p)
  }

  /** The calls of a session up to and including its n-th PING. */
  function OpsUpTo(t: Target, pings: seq<Ping>, n: nat): seq<Op>
    requires n <= |pings|
  {
    if n == 0 then [SetSurvived(t, 0)]
    else OpsUpTo(t, pings, n - 1) + RoundOps(t, n - 1, pings[n - 1])
  }

  /** How many PINGs were answered before the one that ends the session. */
  function Lasted(pings: seq<Ping>): (n: nat)
    ensures n <= |pings|
    ensures forall i :: 0 <= i < n ==> KeepsGoing(pings[i])
    ensures n < |pings| ==> !KeepsGoing(pings[n])
  {
    if pings == [] || !KeepsGoing(pings[0]) then 0 else 1 + Lasted(pings[1..])
  }

  function SessionOps(t: Target, pings: seq<Ping>): seq<Op> {
    OpsUpTo(t, pings, Min(Lasted(pings) + 1, |pings|))
  }

  function SessionEnd(pings: seq<Ping>): Option<End> {
    var n := Lasted(pings);
    if n < |pings| && Dies(pings[n]) then Some(EndOf(n, pings[n])) else None
  }

  // ----- the session itself

  lemma OneStep(s: State, op: Op)
    ensures Steps(s, [op]) == Step(s, op)
  {
    StepsOneMore(s, [], op);
    assert [] + [op] == [op];
  }

  method Ended(agg: Agg, t: Target, mode: Mode, phase: Phase, p: Ping) returns (how: How)
    requires Valid(agg.View()) && !p.reply.Answered?
    modifies agg
    ensures how == HowOf(p)
    ensures agg.View() == Steps(old(agg.View()), EndedOps(t, mode, how, phase))
    ensures Valid(agg.View())
  {
    ghost var start := agg.View();
    how := HowOf(p);
    match how {
      case ServerClosed =>
        agg.With(t, mode, ClosedByServer);
        OneStep(start, Note(t, mode, ClosedByServer));
      case Dropped(cause) =>
        agg.With(t, mode, ConnDropped);
        OneStep(start, Note(t, mode, ConnDropped));
        if cause == ConnReset {
          agg.With(t, mode, ResetIn(phase));
          StepsOneMore(start, [Note(t, mode, ConnDropped)], Note(t, mode, ResetIn(phase)));
        }
    }
  }

  /** Sends one PING and records it. */
  method IdlePing(agg: Agg, t: Target, p: Ping)
    requires Valid(agg.View())
    modifies agg
    ensures agg.View() == Steps(old(agg.View()), PingOps(t, p))
    ensures Valid(agg.View())
  {
    if p.reply.Answered? {
      agg.With(t, Idle, Pong(p.reply.rtt));
      OneStep(old(agg.View()), Note(t, Idle, Pong(p.reply.rtt)));
    } else if p.cancel != Early && p.reply.Unanswered? {
      agg.With(t, Idle, LostPong);
      OneStep(old(agg.View()), Note(t, Idle, LostPong));
    }
  }

  method Die(agg: Agg, t: Target, p: Ping, gap: int, survived: int, ghost k: nat) returns (end: End)
    requires Valid(agg.View()) && Dies(p) && gap == GapBefore(k) && survived == SurvivedAfter(k)
    modifies agg
    ensures agg.View() == Steps(old(agg.View()), DeathOps(t, k, p))
    ensures Valid(agg.View())
    ensures end == EndOf(k, p)
  {
    // The first PING follows the handshake directly: not idle yet.
    var phase := if gap == 0 then Transfer else IdlePhase;
    var how := Ended(agg, t, Idle, phase, p);
    ghost var ended := EndedOps(t, Idle, how, phase);
    ghost var died := Note(t, Idle, IdleDied(Death(gap, survived, how)));
    StepsOneMore(old(agg.View()), ended, died);
    StepsOneMore(old(agg.View()), ended + [died], SetSurvived(t, 0));
    agg.With(t, Idle, IdleDied(Death(gap, survived, how)));
    agg.IdleSurvived(t, 0);
    end := End(how, if how == Dropped(ConnReset) then Some(phase) else None, gap, survived);
  }

  method Survive(agg: Agg, t: Target, ghost p: Ping, gap: int, survived: int, ghost k: nat) returns (longest: int)
    requires Valid(agg.View()) && p.reply.Answered? && p.cancel == Never
    requires gap == GapBefore(k) && survived == SurvivedAfter(k)
    modifies agg
    ensures agg.View() == Steps(old(agg.View()), VerdictOps(t, k, p))
    ensures Valid(agg.View())
    ensures longest == SurvivedAfter(k + 1)
  {
    GapsGrow(k);
    longest := survived;
    if gap > 0 {
      longest := Max(survived, gap);
      agg.IdleSurvived(t, longest);
      OneStep(old(agg.View()), SetSurvived(t, longest));
    }
  }

  lemma OpsOneMore(s: State, t: Target, pings: seq<Ping>, n: nat)
    requires n < |pings|
    ensures Steps(s, OpsUpTo(t, pings, n + 1))
         == Steps(Steps(Steps(s, OpsUpTo(t, pings, n)), PingOps(t, pings[n])), VerdictOps(t, n, pings[n]))
  {
    var before := OpsUpTo(t, pings, n);
    StepsJoin(s, before, RoundOps(t, n, pings[n]));
    StepsJoin(Steps(s, before), PingOps(t, pings[n]), VerdictOps(t, n, pings[n]));
  }

  lemma LastedIs(pings: seq<Ping>, n: nat)
    requires n <= |pings| && (forall i :: 0 <= i < n ==> KeepsGoing(pings[i]))
    requires n < |pings| ==> !KeepsGoing(pings[n])
    ensures Lasted(pings) == n
  {
  }

  method IdleSession(agg: Agg, t: Target, pings: seq<Ping>) returns (end: Option<End>)
    requires Valid(agg.View())
    modifies agg
    ensures agg.View() == Steps(old(agg.View()), SessionOps(t, pings))
    ensures end == SessionEnd(pings)
    ensures Valid(agg.View())
  {
    ghost var start := agg.View();
    var gap, survived := 0, 0;
    agg.IdleSurvived(t, 0);
    OneStep(start, SetSurvived(t, 0));
    for i := 0 to |pings|
      invariant Valid(agg.View())
      invariant forall j :: 0 <= j < i ==> KeepsGoing(pings[j])
      invariant agg.View() == Steps(start, OpsUpTo(t, pings, i))
      invariant gap == GapBefore(i) && survived == SurvivedAfter(i)
    {
      OpsOneMore(start, t, pings, i);
      var done;
      done, end, gap, survived := IdleRound(agg, t, pings[i], gap, survived, i);
      if done {
        LastedIs(pings, i);
        return;
      }
    }
    LastedIs(pings, |pings|);
    end := None;
  }

  /** One turn of the session's loop. */
  method IdleRound(agg: Agg, t: Target, p: Ping, gap: int, survived: int, k: nat)
    returns (done: bool, end: Option<End>, gap': int, survived': int)
    requires Valid(agg.View())
    requires gap == GapBefore(k) && survived == SurvivedAfter(k)
    modifies agg
    ensures agg.View() == Steps(Steps(old(agg.View()), PingOps(t, p)), VerdictOps(t, k, p))
    ensures Valid(agg.View())
    ensures done <==> !KeepsGoing(p)
    ensures end == if Dies(p) then Some(EndOf(k, p)) else None
    ensures !done ==> gap' == GapBefore(k + 1) && survived' == SurvivedAfter(k + 1)
  {
    gap', survived', end := gap, survived, None;
    IdlePing(agg, t, p);
    if p.cancel != Never {
      return true, None, gap, survived;
    }
    if !p.reply.Answered? {
      var death := Die(agg, t, p, gap, survived, k);
      return true, Some(death), gap, survived;
    }
    survived' := Survive(agg, t, p, gap, survived, k);
    gap' := IDLE_GAPS[Min(k, |IDLE_GAPS| - 1)];
    done := p.cut;
  }

  // ----- what a session leaves in the aggregator

  predicate AllIdle(t: Target, ops: seq<Op>) {
    ops == [] || (AllIdle(t, ops[..|ops| - 1]) && Concerns(t, Idle, ops[|ops| - 1]))
  }

  function OpWeight(op: Op, c: Counter): nat {
    if op.Note? then Weight(Idle, op.record, c) else 0
  }

  /** What ops add to a counter of their bucket. */
  function Added(ops: seq<Op>, c: Counter): nat {
    if ops == [] then 0 else Added(ops[..|ops| - 1], c) + OpWeight(ops[|ops| - 1], c)
  }

  /** The last survival ops set. */
  function LastSet(ops: seq<Op>, otherwise: int): int {
    if ops == [] then otherwise
    else if ops[|ops| - 1].SetSurvived? then ops[|ops| - 1].gap
    else LastSet(ops[..|ops| - 1], otherwise)
  }

  lemma {:induction false} CountedOnIdle(start: History, h: History, t: Target, ops: seq<Op>, c: Counter)
    requires Continues(start, h, t, Idle, ops) && HeardSince(start, h, t, Idle)
    ensures Sum(Idle, Accepted(h, Key(t, Idle)), c) == Sum(Idle, Accepted(start, Key(t, Idle)), c) + Added(ops, c)
    decreases h
  {
    if h != start {
      if Concerns(t, Idle, h.op) {
        CountedOnIdle(start, h.past, t, ops[..|ops| - 1], c);
        if h.op.Note? {
          SumOneMore(Idle, Accepted(h.past, Key(t, Idle)), h.op.record, c);
        }
      } else {
        CountedOnIdle(start, h.past, t, ops, c);
      }
    }
  }

  lemma {:induction false} SurvivedOnIdle(start: History, h: History, t: Target, ops: seq<Op>)
    requires Open(start, Key(t, Idle)) && Continues(start, h, t, Idle, ops) && RemainsSince(start, h, t)
    ensures SurvivedAt(h, t) == LastSet(ops, SurvivedAt(start, t))
    decreases h
  {
    if h != start {
      var before := if Concerns(t, Idle, h.op) then ops[..|ops| - 1] else ops;
      SurvivedOnIdle(start, h.past, t, before);
      RemainingIsHeard(start, h.past, t, Idle, before);
    }
  }

  lemma {:induction false} OpsJoin(t: Target, a: seq<Op>, b: seq<Op>, c: Counter, otherwise: int)
    ensures Added(a + b, c) == Added(a, c) + Added(b, c)
    ensures LastSet(a + b, otherwise) == LastSet(b, LastSet(a, otherwise))
    ensures AllIdle(t, a + b) <==> AllIdle(t, a) && AllIdle(t, b)
  {
    if b == [] {
      assert a + b == a;
    } else {
      OpsJoin(t, a, b[..|b| - 1], c, otherwise);
      assert (a + b)[..|a + b| - 1] == a + b[..|b| - 1];
    }
  }

  lemma OneOp(t: Target, op: Op, c: Counter, otherwise: int)
    ensures Added([op], c) == OpWeight(op, c)
    ensures LastSet([op], otherwise) == if op.SetSurvived? then op.gap else otherwise
    ensures AllIdle(t, [op]) <==> Concerns(t, Idle, op)
  {
    assert [op][..0] == [];
    assert AllIdle(t, []);
  }

  /** What one PING adds to each counter. */
  function RoundCount(k: nat, p: Ping, c: Counter): nat {
    PingCount(p, c) + if Dies(p) then DeathCount(EndOf(k, p), c) else 0
  }

  function PingCount(p: Ping, c: Counter): nat {
    match c
    case Samples => One(p.reply.Answered? || (p.reply.Unanswered? && p.cancel != Early))
    case Losses => One(p.reply.Unanswered? && p.cancel != Early)
    case _ => 0
  }

  function DeathCount(end: End, c: Counter): nat {
    match c
    case Drops => One(end.how.Dropped?)
    case ServerCloses => One(end.how.ServerClosed?)
    case Resets(phase) => One(end.phase == Some(phase))
    case _ => 0
  }

  lemma PingAdds(t: Target, p: Ping, c: Counter, before: int)
    ensures var ops := PingOps(t, p);
            Added(ops, c) == PingCount(p, c) && LastSet(ops, before) == before && AllIdle(t, ops)
  {
    var ops := PingOps(t, p);
    if ops != [] {
      OneOp(t, ops[0], c, before);
      assert ops == [ops[0]];
    }
  }

  lemma EndedAdds(t: Target, end: End, phase: Phase, c: Counter, before: int)
    requires end.phase == if end.how == Dropped(ConnReset) then Some(phase) else None
    ensures var ops := EndedOps(t, Idle, end.how, phase);
            Added(ops, c) == DeathCount(end, c) && LastSet(ops, before) == before && AllIdle(t, ops)
  {
    var way := if end.how.ServerClosed? then Note(t, Idle, ClosedByServer) else Note(t, Idle, ConnDropped);
    OneOp(t, way, c, before);
    if end.how == Dropped(ConnReset) {
      OneOp(t, Note(t, Idle, ResetIn(phase)), c, before);
      OpsJoin(t, [way], [Note(t, Idle, ResetIn(phase))], c, before);
    } else {
      assert EndedOps(t, Idle, end.how, phase) == [way];
    }
  }

  lemma DeathAdds(t: Target, k: nat, p: Ping, c: Counter, before: int)
    requires Dies(p)
    ensures var ops := DeathOps(t, k, p);
            Added(ops, c) == DeathCount(EndOf(k, p), c) && LastSet(ops, before) == 0 && AllIdle(t, ops)
  {
    var end := EndOf(k, p);
    var phase := if k == 0 then Transfer else IdlePhase;
    var ended := EndedOps(t, Idle, end.how, phase);
    var died := Note(t, Idle, IdleDied(Death(end.gap, end.survived, end.how)));
    EndedAdds(t, end, phase, c, before);
    OneOp(t, died, c, before);
    OpsJoin(t, ended, [died], c, before);
    OneOp(t, SetSurvived(t, 0), c, before);
    OpsJoin(t, ended + [died], [SetSurvived(t, 0)], c, before);
  }

  /** The survival reported after a PING that found it at before. */
  function SurvivalAfter(k: nat, p: Ping, before: int): int {
    if p.cancel != Never then before else if Dies(p) then 0 else if k == 0 then before else SurvivedAfter(k + 1)
  }

  lemma VerdictAdds(t: Target, k: nat, p: Ping, c: Counter, before: int)
    ensures var ops := VerdictOps(t, k, p);
            && Added(ops, c) == (if Dies(p) then DeathCount(EndOf(k, p), c) else 0)
            && LastSet(ops, before) == SurvivalAfter(k, p, before)
            && AllIdle(t, ops)
  {
    if Dies(p) {
      DeathAdds(t, k, p, c, before);
    } else if p.cancel == Never && k > 0 {
      OneOp(t, SetSurvived(t, SurvivedAfter(k + 1)), c, before);
    }
  }

  lemma RoundAdds(t: Target, k: nat, p: Ping, c: Counter, before: int)
    ensures var ops := RoundOps(t, k, p);
            Added(ops, c) == RoundCount(k, p, c) && LastSet(ops, before) == SurvivalAfter(k, p, before) && AllIdle(t, ops)
  {
    PingAdds(t, p, c, before);
    VerdictAdds(t, k, p, c, before);
    OpsJoin(t, PingOps(t, p), VerdictOps(t, k, p), c, before);
  }

  /** What a prefix of a session adds to a counter, and the survival it leaves. */
  ghost predicate Leaves(t: Target, ops: seq<Op>, c: Counter, before: int, count: nat, survived: int) {
    Added(ops, c) == count && LastSet(ops, before) == survived && AllIdle(t, ops)
  }

  lemma OneMoreLeaves(t: Target, pings: seq<Ping>, n: nat, c: Counter, before: int, count: nat, survived: int)
    requires n < |pings| && Leaves(t, OpsUpTo(t, pings, n), c, before, count, survived)
    ensures Leaves(t, OpsUpTo(t, pings, n + 1), c, before,
                   count + RoundCount(n, pings[n], c), SurvivalAfter(n, pings[n], survived))
  {
    RoundAdds(t, n, pings[n], c, survived);
    OpsJoin(t, OpsUpTo(t, pings, n), RoundOps(t, n, pings[n]), c, before);
  }

  lemma StartLeaves(t: Target, c: Counter, before: int)
    ensures Leaves(t, [SetSurvived(t, 0)], c, before, 0, 0)
  {
    OneOp(t, SetSurvived(t, 0), c, before);
  }

  lemma OneSample(k: nat, p: Ping, c: Counter)
    requires KeepsGoing(p)
    ensures RoundCount(k, p, c) == One(c == Samples)
    ensures SurvivalAfter(k, p, SurvivedAfter(k)) == SurvivedAfter(k + 1)
  {
  }

  /** PINGs answered in time count one sample each and nothing else, and move the survival on. */
  lemma {:induction false} AnsweredLeave(t: Target, pings: seq<Ping>, n: nat, c: Counter, before: int)
    requires n <= Lasted(pings)
    ensures Leaves(t, OpsUpTo(t, pings, n), c, before, if c == Samples then n else 0, SurvivedAfter(n))
  {
    if n == 0 {
      StartLeaves(t, c, before);
    } else {
      AnsweredLeave(t, pings, n - 1, c, before);
      OneMoreLeaves(t, pings, n - 1, c, before, if c == Samples then n - 1 else 0, SurvivedAfter(n - 1));
      OneSample(n - 1, pings[n - 1], c);
    }
  }

  /** What a whole session adds to a counter. */
  function SessionCount(pings: seq<Ping>, c: Counter): nat {
    var n := Lasted(pings);
    (if c == Samples then n else 0) + if n < |pings| then RoundCount(n, pings[n], c) else 0
  }

  /** Reset by a death, else that of the PINGs seen through to the next silence. */
  function SessionSurvived(pings: seq<Ping>): int {
    var n := Lasted(pings);
    if n < |pings| then SurvivalAfter(n, pings[n], SurvivedAfter(n)) else SurvivedAfter(n)
  }

  lemma SessionLeaves(t: Target, pings: seq<Ping>, c: Counter, before: int)
    ensures Leaves(t, SessionOps(t, pings), c, before, SessionCount(pings, c), SessionSurvived(pings))
  {
    var n := Lasted(pings);
    AnsweredLeave(t, pings, n, c, before);
    if n < |pings| {
      OneMoreLeaves(t, pings, n, c, before, if c == Samples then n else 0, SurvivedAfter(n));
    }
  }

  /**
   The whole effect of a session on its bucket, as long as the bucket is there
   to hear of it: one sample per answered PING, and for the PING it ends with
   what that PING alone adds; and the survival, if the target remains.
   */
  lemma SessionEffect(start: History, h: History, t: Target, pings: seq<Ping>, c: Counter)
    requires Continues(start, h, t, Idle, SessionOps(t, pings))
    ensures HeardSince(start, h, t, Idle) ==>
              Sum(Idle, Accepted(h, Key(t, Idle)), c)
              == Sum(Idle, Accepted(start, Key(t, Idle)), c) + SessionCount(pings, c)
    ensures Open(start, Key(t, Idle)) && RemainsSince(start, h, t) ==>
              HeardSince(start, h, t, Idle) && SurvivedAt(h, t) == SessionSurvived(pings)
  {
    SessionLeaves(t, pings, c, SurvivedAt(start, t));
    if HeardSince(start, h, t, Idle) {
      CountedOnIdle(start, h, t, SessionOps(t, pings), c);
    }
    if Open(start, Key(t, Idle)) && RemainsSince(start, h, t) {
      RemainingIsHeard(start, h, t, Idle, SessionOps(t, pings));
      SurvivedOnIdle(start, h, t, SessionOps(t, pings));
    }
  }

  /** A session counts one drop or one server close if it died, and neither otherwise. */
  lemma SessionEndsOnce(start: History, h: History, t: Target, pings: seq<Ping>)
    requires Continues(start, h, t, Idle, SessionOps(t, pings))
    ensures HeardSince(start, h, t, Idle) ==>
              var before, after := Accepted(start, Key(t, Idle)), Accepted(h, Key(t, Idle));
              Sum(Idle, after, Drops) + Sum(Idle, after, ServerCloses) ==
              Sum(Idle, before, Drops) + Sum(Idle, before, ServerCloses) + One(SessionEnd(pings).Some?)
    ensures Open(start, Key(t, Idle)) && RemainsSince(start, h, t) && SessionEnd(pings).Some? ==> SurvivedAt(h, t) == 0
  {
    SessionEffect(start, h, t, pings, Drops);
    SessionEffect(start, h, t, pings, ServerCloses);
  }

  /** A death's event: the gap that killed the connection is no shorter than the longest it survived. */
  lemma DeathReportsGap(pings: seq<Ping>)
    requires SessionEnd(pings).Some?
    ensures var end, n := SessionEnd(pings).value, Lasted(pings);
            && end.gap == (if n == 0 then 0 else IDLE_GAPS[Min(n - 1, 5)])
            && end.survived == (if n < 2 then 0 else IDLE_GAPS[Min(n - 2, 5)])
            && end.survived <= end.gap
            && (end.phase.Some? <==> end.how == Dropped(ConnReset))
            && (end.phase == Some(IdlePhase) ==> end.gap > 0)
  {
    GapsGrow(Lasted(pings));
  }

  // ----- a session told of its PINGs

  /** The first n PINGs were answered and left alone, and the next one, if any, was not. */
  predicate Lasts(pings: seq<Ping>, n: nat) {
    && n <= |pings|
    && (forall i :: 0 <= i < n ==> pings[i].reply.Answered? && pings[i].cancel == Never && !pings[i].cut)
    && (n < |pings| ==> !(pings[n].reply.Answered? && pings[n].cancel == Never && !pings[n].cut))
  }

  /** The silence before the next PING after k answers. */
  function Silence(k: nat): int {
    if k == 0 then 0
    else if k == 1 then 30_000_000_000
    else if k == 2 then 60_000_000_000
    else if k == 3 then 120_000_000_000
    else if k == 4 then 300_000_000_000
    else if k == 5 then 600_000_000_000
    else 1_800_000_000_000
  }

  /** The PING after n answers was not answered, and nobody had asked to stop. */
  predicate DiesAt(pings: seq<Ping>, n: nat) {
    n < |pings| && !pings[n].reply.Answered? && pings[n].cancel == Never
  }

  /** The server had announced to close, and it was neither the socket that failed nor an answer that was missing. */
  predicate Closes(p: Ping) { p.reply.Broken? && p.closing && !p.reply.socket }

  /** How a session ends that dies of p after n answers. */
  function DeathOf(p: Ping, n: nat): Death
    requires !p.reply.Answered?
  {
    Death(Silence(n), if n == 0 then 0 else Silence(n - 1),
          if Closes(p) then ServerClosed
          else if p.reply.Unanswered? then Dropped(Timeout)
          else Dropped(p.reply.cause))
  }

  /** The records of the first n PINGs, which were answered. */
  function Pongs(pings: seq<Ping>, n: nat): seq<Record>
    requires n <= |pings| && forall i :: 0 <= i < n ==> pings[i].reply.Answered?
  {
    if n == 0 then [] else Pongs(pings, n - 1) + [Pong(pings[n - 1].reply.rtt)]
  }

  /** What the last PING records by itself. */
  function LastRecords(p: Ping): seq<Record> {
    if p.reply.Answered? then [Pong(p.reply.rtt)]
    else if p.reply.Unanswered? && p.cancel != Early then [LostPong]
    else []
  }

  function DeathRecords(death: Death, n: nat): seq<Record> {
    [if death.how == ServerClosed then ClosedByServer else ConnDropped]
    + (if death.how == Dropped(ConnReset) then [ResetIn(if n == 0 then Transfer else IdlePhase)] else [])
    + [IdleDied(death)]
  }

  lemma SilenceIs(k: nat)
    ensures GapBefore(k) == Silence(k) && SurvivedAfter(k) == if k == 0 then 0 else Silence(k - 1)
  {
    assert IDLE_GAPS == [30 * SECOND, 1 * MINUTE, 2 * MINUTE, 5 * MINUTE, 10 * MINUTE, 30 * MINUTE];
  }

  /** The event of a session that dies after n answers, and none for one that does not. */
  lemma SessionEndTold(pings: seq<Ping>, n: nat)
    requires Lasts(pings, n)
    ensures SessionEnd(pings).Some? <==> DiesAt(pings, n)
    ensures DiesAt(pings, n) ==>
              var death := DeathOf(pings[n], n);
              SessionEnd(pings) == Some(End(death.how,
                                            if death.how != Dropped(ConnReset) then None
                                            else Some(if n == 0 then Transfer else IdlePhase),
                                            death.gap, death.survived))
    ensures SessionSurvived(pings) ==
            if n == |pings| || (pings[n].cancel != Never) then (if n == 0 then 0 else Silence(n - 1))
            else if DiesAt(pings, n) || n == 0 then 0
            else Silence(n)
  {
    LastedIs(pings, n);
    SilenceIs(n);
    SilenceIs(n + 1);
  }

  lemma {:induction false} AnsweredRecords(t: Target, pings: seq<Ping>, n: nat)
    requires n <= |pings|
    requires forall i :: 0 <= i < n ==> pings[i].reply.Answered? && pings[i].cancel == Never && !pings[i].cut
    ensures RecordsOf(OpsUpTo(t, pings, n)) == Pongs(pings, n)
  {
    if n == 0 {
      RecordOf(SetSurvived(t, 0));
    } else {
      AnsweredRecords(t, pings, n - 1);
      OneMoreRound(t, pings, n - 1);
    }
  }

  lemma {:induction false} RoundRecords(t: Target, k: nat, p: Ping)
    ensures RecordsOf(RoundOps(t, k, p)) ==
            LastRecords(p) + if Dies(p) then DeathRecords(DeathOf(p, k), k) else []
  {
    RecordsJoin(PingOps(t, p), VerdictOps(t, k, p));
    if PingOps(t, p) != [] {
      RecordOf(PingOps(t, p)[0]);
      assert PingOps(t, p) == [PingOps(t, p)[0]];
    }
    if Dies(p) {
      SilenceIs(k);
      DyingRecords(t, k, p, DeathOf(p, k));
    } else if VerdictOps(t, k, p) != [] {
      RecordOf(VerdictOps(t, k, p)[0]);
      assert VerdictOps(t, k, p) == [VerdictOps(t, k, p)[0]];
    }
  }

  lemma {:induction false} DyingRecords(t: Target, k: nat, p: Ping, death: Death)
    requires Dies(p)
    requires death == Death(GapBefore(k), SurvivedAfter(k), HowOf(p))
    ensures RecordsOf(DeathOps(t, k, p)) == DeathRecords(death, k)
  {
    var phase := if k == 0 then Transfer else IdlePhase;
    var ended := EndedOps(t, Idle, death.how, phase);
    EndedRecords(t, death.how, phase);
    RecordsJoin(ended + [Note(t, Idle, IdleDied(death))], [SetSurvived(t, 0)]);
    RecordsJoin(ended, [Note(t, Idle, IdleDied(death))]);
    RecordOf(Note(t, Idle, IdleDied(death)));
    RecordOf(SetSurvived(t, 0));
  }

  lemma {:induction false} EndedRecords(t: Target, how: How, phase: Phase)
    ensures RecordsOf(EndedOps(t, Idle, how, phase)) ==
            [if how == ServerClosed then ClosedByServer else ConnDropped]
            + if how == Dropped(ConnReset) then [ResetIn(phase)] else []
  {
    var ops := EndedOps(t, Idle, how, phase);
    RecordOf(ops[0]);
    if |ops| == 2 {
      RecordOf(ops[1]);
      RecordsJoin([ops[0]], [ops[1]]);
      assert ops == [ops[0]] + [ops[1]];
    } else {
      assert ops == [ops[0]];
    }
  }

  lemma Regroup(a: seq<Record>, b: seq<Record>, c: seq<Record>)
    ensures a + b + c == a + (b + c)
  {
  }

  /** The records of a session, in order: its answers, what the last PING records, and the death if it is one. */
  lemma {:induction false} SessionRecords(t: Target, pings: seq<Ping>, n: nat)
    requires Lasts(pings, n)
    ensures RecordsOf(SessionOps(t, pings)) ==
            Pongs(pings, n)
            + (if n < |pings| then LastRecords(pings[n]) else [])
            + if DiesAt(pings, n) then DeathRecords(DeathOf(pings[n], n), n) else []
  {
    LastedIs(pings, n);
    AnsweredRecords(t, pings, n);
    if n < |pings| {
      OneMoreRound(t, pings, n);
      Regroup(Pongs(pings, n), LastRecords(pings[n]),
              if Dies(pings[n]) then DeathRecords(DeathOf(pings[n], n), n) else []);
    }
  }

  lemma {:induction false} OneMoreRound(t: Target, pings: seq<Ping>, n: nat)
    requires n < |pings|
    ensures RecordsOf(OpsUpTo(t, pings, n + 1)) ==
            RecordsOf(OpsUpTo(t, pings, n))
            + (LastRecords(pings[n]) + if Dies(pings[n]) then DeathRecords(DeathOf(pings[n], n), n) else [])
  {
    RecordsJoin(OpsUpTo(t, pings, n), RoundOps(t, n, pings[n]));
    RoundRecords(t, n, pings[n]);
  }
}
