/**
 The long connection: pinged every second, its retransmits read off the kernel,
 given up when nothing was answered for too long.
 */
module LongConnection {
  import opened Prelude
  import opened Aggregator
  import opened AggregatorHistory
  import opened IdleConnection

  const DEAD_AFTER: int := 30_000_000_000

  type Count = x: nat | x < WORD

  /** The kernel's view of a connection; total is its 32-bit count of retransmits. */
  datatype Reading = Reading(rtt: int, rttVar: int, total: Count)

  /** What the session's select picks, with whether the server announced to close by then. */
  datatype Turn =
    | Stopped
    | Tick(now: int, reading: Option<Reading>, closing: bool)
    | Pinged(now: int, reply: Reply, cancelled: bool, closing: bool)

  /** The loop's variables. */
  datatype Watch = Watch(lastAnswer: int, lastRetrans: Count)

  predicate Ends(w: Watch, turn: Turn) {
    match turn
    case Stopped => true
    case Tick(now, _, _) => now - w.lastAnswer > DEAD_AFTER
    case Pinged(_, reply, cancelled, _) => !reply.Answered? && (cancelled || reply.Broken?)
  }

  /** The failure that ends the session, if one does. */
  function FailureOf(turn: Turn): Option<Ping> {
    match turn
    case Stopped => None
    case Tick(_, _, closing) => Some(Ping(Unanswered, Never, closing, false))
    case Pinged(_, reply, cancelled, closing) =>
      if cancelled then None else Some(Ping(reply, Never, closing, false))
  }

  function EndedBy(w: Watch, turn: Turn): Option<How>
    requires Ends(w, turn)
  {
    var p := FailureOf(turn);
    if p.None? then None else Some(HowOf(p.value))
  }

  /** uint32 subtraction. */
  function Difference(total: Count, last: Count): Count {
    if total >= last then total - last else total - last + WORD
  }

  function TurnOps(t: Target, w: Watch, turn: Turn): seq<Op> {
    if Ends(w, turn) then
      match EndedBy(w, turn)
      case None => []
      case Some(how) => EndedOps(t, Long, how, Transfer)
    else
      match turn
      case Stopped => []
      case Tick(_, None, _) => []
      case Tick(_, Some(r), _) => [Note(t, Long, TcpReading(r.rtt, r.rttVar, Difference(r.total, w.lastRetrans)))]
      case Pinged(_, Answered(rtt), _, _) => [Note(t, Long, Pong(rtt))]
      case Pinged(_, _, _, _) => [Note(t, Long, LostPong)]
  }

  function Seen(w: Watch, turn: Turn): Watch {
    match turn
    case Tick(_, Some(r), _) => w.(lastRetrans := r.total)
    case Pinged(now, Answered(_), _, _) => w.(lastAnswer := now)
    case _ => w
  }

  /** The calls of the session from here on. */
  function SessionOps(t: Target, w: Watch, turns: seq<Turn>): seq<Op>
    decreases |turns|
  {
    if turns == [] then []
    else if Ends(w, turns[0]) then TurnOps(t, w, turns[0])
    else TurnOps(t, w, turns[0]) + SessionOps(t, Seen(w, turns[0]), turns[1..])
  }

  function SessionEnd(w: Watch, turns: seq<Turn>): Option<How>
    decreases |turns|
  {
    if turns == [] then None
    else if Ends(w, turns[0]) then EndedBy(w, turns[0])
    else SessionEnd(Seen(w, turns[0]), turns[1..])
  }

  lemma OneMoreTurn(t: Target, w: Watch, turns: seq<Turn>, i: nat, made: seq<Op>)
    requires i < |turns|
    ensures made + SessionOps(t, w, turns[i..]) ==
            if Ends(w, turns[i]) then made + TurnOps(t, w, turns[i])
            else (made + TurnOps(t, w, turns[i])) + SessionOps(t, Seen(w, turns[i]), turns[i + 1..])
    ensures SessionEnd(w, turns[i..]) ==
            if Ends(w, turns[i]) then EndedBy(w, turns[i]) else SessionEnd(Seen(w, turns[i]), turns[i + 1..])
  {
    var rest := turns[i..];
    assert rest[0] == turns[i] && rest[1..] == turns[i + 1..];
  }

  // ----- the session itself

  /** Runs the session over turns; initial is the first reading's count. */
  method LongSession(agg: Agg, t: Target, started: int, initial: Option<Count>, turns: seq<Turn>)
    returns (end: Option<How>)
    requires Valid(agg.View())
    modifies agg
    ensures var w := Watch(started, if initial.Some? then initial.value else 0);
            && agg.View() == Steps(old(agg.View()), SessionOps(t, w, turns))
            && end == SessionEnd(w, turns)
    ensures Valid(agg.View())
  {
    ghost var start := agg.View();
    var w := Watch(started, if initial.Some? then initial.value else 0);
    ghost var first, made := w, [];
    assert made + SessionOps(t, w, turns) == SessionOps(t, w, turns);
    for i := 0 to |turns|
      invariant Valid(agg.View())
      invariant agg.View() == Steps(start, made)
      invariant made + SessionOps(t, w, turns[i..]) == SessionOps(t, first, turns)
      invariant SessionEnd(w, turns[i..]) == SessionEnd(first, turns)
    {
      var turn := turns[i];
      OneMoreTurn(t, w, turns, i, made);
      StepsJoin(start, made, TurnOps(t, w, turn));
      var done;
      done, end := LongTurn(agg, t, w, turn);
      if done {
        return;
      }
      made, w := made + TurnOps(t, w, turn), Seen(w, turn);
    }
    assert made + [] == made;
    end := None;
  }

  /** One turn of the session's loop, but for the variables. */
  method LongTurn(agg: Agg, t: Target, w: Watch, turn: Turn) returns (done: bool, end: Option<How>)
    requires Valid(agg.View())
    modifies agg
    ensures agg.View() == Steps(old(agg.View()), TurnOps(t, w, turn))
    ensures Valid(agg.View())
    ensures done <==> Ends(w, turn)
    ensures end == if done then EndedBy(w, turn) else None
  {
    done, end := false, None;
    match turn {
      case Stopped => done := true;
      case Tick(now, reading, closing) =>
        if now - w.lastAnswer > DEAD_AFTER {
          var how := Ended(agg, t, Long, Transfer, Ping(Unanswered, Never, closing, false));
          return true, Some(how);
        }
        if reading.Some? {
          Record(agg, t, TcpReading(reading.value.rtt, reading.value.rttVar,
                                    Difference(reading.value.total, w.lastRetrans)));
        }
      case Pinged(now, reply, cancelled, closing) =>
        match reply {
          case Answered(rtt) => Record(agg, t, Pong(rtt));
          case Unanswered =>
            if cancelled {
              return true, None;
            }
            Record(agg, t, LostPong);
          case Broken(_, _) =>
            if cancelled {
              return true, None;
            }
            var how := Ended(agg, t, Long, Transfer, Ping(reply, Never, closing, false));
            return true, Some(how);
        }
    }
  }

  method Record(agg: Agg, t: Target, r: Aggregator.Record)
    requires Valid(agg.View())
    modifies agg
    ensures agg.View() == Steps(old(agg.View()), [Note(t, Long, r)])
    ensures Valid(agg.View())
  {
    agg.With(t, Long, r);
    OneStep(old(agg.View()), Note(t, Long, r));
  }

  // ----- retransmits

  /** The kernel's counts read before the session ends. */
  function Totals(w: Watch, turns: seq<Turn>): seq<Count>
    decreases |turns|
  {
    if turns == [] || Ends(w, turns[0]) then []
    else
      (if turns[0].Tick? && turns[0].reading.Some? then [turns[0].reading.value.total] else [])
      + Totals(Seen(w, turns[0]), turns[1..])
  }

  function LastTotal(w: Watch, turns: seq<Turn>): Count {
    var totals := Totals(w, turns);
    if totals == [] then w.lastRetrans else totals[|totals| - 1]
  }

  lemma {:induction false} RetransmitsJoin(a: seq<Aggregator.Record>, b: seq<Aggregator.Record>)
    ensures Retransmits(a + b) == Retransmits(a) + Retransmits(b)
  {
    if b == [] {
      assert a + b == a;
    } else {
      RetransmitsJoin(a, b[..|b| - 1]);
      assert (a + b)[..|a + b| - 1] == a + b[..|b| - 1];
    }
  }

  function Retrans(ops: seq<Op>): nat {
    if ops == [] then 0
    else
      var op := ops[|ops| - 1];
      Retrans(ops[..|ops| - 1]) + if op.Note? && op.record.TcpReading? then op.record.retrans else 0
  }

  lemma {:induction false} RetransRecorded(ops: seq<Op>)
    ensures Retransmits(RecordsOf(ops)) == Retrans(ops)
  {
    if ops != [] {
      RetransRecorded(ops[..|ops| - 1]);
      var before := RecordsOf(ops[..|ops| - 1]);
      assert RecordsOf(ops) == before || RecordsOf(ops)[..|before|] == before;
    }
  }

  lemma {:induction false} RetransJoin(a: seq<Op>, b: seq<Op>)
    ensures Retrans(a + b) == Retrans(a) + Retrans(b)
  {
    if b == [] {
      assert a + b == a;
    } else {
      RetransJoin(a, b[..|b| - 1]);
      assert (a + b)[..|a + b| - 1] == a + b[..|b| - 1];
    }
  }

  lemma OneRetrans(op: Op)
    ensures Retrans([op]) == if op.Note? && op.record.TcpReading? then op.record.retrans else 0
  {
    assert [op][..0] == [];
  }

  lemma NoRetransAtEnd(t: Target, how: How)
    ensures Retrans(EndedOps(t, Long, how, Transfer)) == 0
  {
    match how
    case ServerClosed => OneRetrans(Note(t, Long, ClosedByServer));
    case Dropped(cause) =>
      OneRetrans(Note(t, Long, ConnDropped));
      if cause == ConnReset {
        OneRetrans(Note(t, Long, ResetIn(Transfer)));
        RetransJoin([Note(t, Long, ConnDropped)], [Note(t, Long, ResetIn(Transfer))]);
      } else {
        RetransJoin([Note(t, Long, ConnDropped)], []);
      }
  }

  /** What one turn adds to the retransmits. */
  lemma TurnRetrans(t: Target, w: Watch, turn: Turn)
    ensures Retrans(TurnOps(t, w, turn)) ==
            if Ends(w, turn) then 0 else Difference(Seen(w, turn).lastRetrans, w.lastRetrans)
  {
    if Ends(w, turn) {
      if EndedBy(w, turn).Some? {
        NoRetransAtEnd(t, EndedBy(w, turn).value);
      }
    } else if |TurnOps(t, w, turn)| == 1 {
      OneRetrans(TurnOps(t, w, turn)[0]);
    }
  }

  lemma OneTurn(t: Target, w: Watch, turns: seq<Turn>)
    requires turns != [] && !Ends(w, turns[0])
    ensures var seen, rest := Seen(w, turns[0]), turns[1..];
            Retrans(SessionOps(t, w, turns)) ==
            Difference(seen.lastRetrans, w.lastRetrans) + Retrans(SessionOps(t, seen, rest))
  {
    TurnRetrans(t, w, turns[0]);
    RetransJoin(TurnOps(t, w, turns[0]), SessionOps(t, Seen(w, turns[0]), turns[1..]));
  }

  /** How often the kernel's count was below the one read before. */
  function Wraps(first: Count, totals: seq<Count>): nat
    decreases |totals|
  {
    if totals == [] then 0 else One(totals[0] < first) + Wraps(totals[0], totals[1..])
  }

  lemma OneTurnRead(w: Watch, turns: seq<Turn>)
    requires turns != [] && !Ends(w, turns[0])
    ensures var seen, rest := Seen(w, turns[0]), turns[1..];
            && LastTotal(w, turns) == LastTotal(seen, rest)
            && Wraps(w.lastRetrans, Totals(w, turns)) ==
               One(seen.lastRetrans < w.lastRetrans) + Wraps(seen.lastRetrans, Totals(seen, rest))
  {
    var seen := Seen(w, turns[0]);
    var later := Totals(seen, turns[1..]);
    if turns[0].Tick? && turns[0].reading.Some? {
      assert Totals(w, turns) == [seen.lastRetrans] + later && Totals(w, turns)[1..] == later;
    } else {
      assert Totals(w, turns) == later;
    }
  }

  /** The differences add up to the last count read minus the first, and 2^32 for every time the count wrapped. */
  lemma {:induction false} RetransmitsTelescope(t: Target, w: Watch, turns: seq<Turn>)
    ensures Retrans(SessionOps(t, w, turns))
         == LastTotal(w, turns) - w.lastRetrans + WORD * Wraps(w.lastRetrans, Totals(w, turns))
    decreases |turns|
  {
    if turns != [] {
      if Ends(w, turns[0]) {
        TurnRetrans(t, w, turns[0]);
      } else {
        RetransmitsTelescope(t, Seen(w, turns[0]), turns[1..]);
        OneTurn(t, w, turns);
        OneTurnRead(w, turns);
      }
    }
  }

  /** They are exactly the kernel's difference if and only if its count was never read below the one before. */
  lemma RetransmitsExactIff(t: Target, w: Watch, turns: seq<Turn>)
    ensures Retrans(SessionOps(t, w, turns)) == LastTotal(w, turns) - w.lastRetrans
            <==> Growing(w.lastRetrans, Totals(w, turns))
  {
    RetransmitsTelescope(t, w, turns);
    GrowingIff(w.lastRetrans, Totals(w, turns));
  }

  predicate Growing(first: Count, totals: seq<Count>) {
    (totals != [] ==> first <= totals[0]) && forall i :: 0 < i < |totals| ==> totals[i - 1] <= totals[i]
  }

  lemma {:induction false} GrowingIff(first: Count, totals: seq<Count>)
    ensures Growing(first, totals) <==> Wraps(first, totals) == 0
    decreases |totals|
  {
    if totals != [] {
      var rest := totals[1..];
      GrowingIff(totals[0], rest);
      if Growing(totals[0], rest) && first <= totals[0] {
        forall i | 0 < i < |totals|
          ensures totals[i - 1] <= totals[i]
        {
          assert totals[i] == rest[i - 1];
          assert i > 1 ==> totals[i - 1] == rest[i - 2];
        }
      }
    }
  }

  /** Whatever falls in between, the bucket gets exactly the connection's retransmits. */
  lemma SessionReachesBucket(start: History, h: History, t: Target, w: Watch, turns: seq<Turn>)
    requires Continues(start, h, t, Long, SessionOps(t, w, turns)) && HeardSince(start, h, t, Long)
    ensures Retransmits(Accepted(h, Key(t, Long)))
         == Retransmits(Accepted(start, Key(t, Long)))
            + LastTotal(w, turns) - w.lastRetrans + WORD * Wraps(w.lastRetrans, Totals(w, turns))
  {
    ContinuedRecords(start, h, t, Long, SessionOps(t, w, turns));
    RetransmitsJoin(Accepted(start, Key(t, Long)), RecordsOf(SessionOps(t, w, turns)));
    RetransRecorded(SessionOps(t, w, turns));
    RetransmitsTelescope(t, w, turns);
  }

  // ----- what a session counts

  /** The phase of a reset on the long connection. */
  function EndWith(how: How): End {
    End(how, if how == Dropped(ConnReset) then Some(Transfer) else None, 0, 0)
  }

  function TurnCount(w: Watch, turn: Turn, c: Counter): nat {
    if Ends(w, turn) then
      if EndedBy(w, turn).Some? then DeathCount(EndWith(EndedBy(w, turn).value), c) else 0
    else if !turn.Pinged? then 0
    else
      match c
      case Samples => 1
      case Losses => One(turn.reply.Unanswered?)
      case _ => 0
  }

  function SessionCount(w: Watch, turns: seq<Turn>, c: Counter): nat
    decreases |turns|
  {
    if turns == [] then 0
    else TurnCount(w, turns[0], c) + if Ends(w, turns[0]) then 0 else SessionCount(Seen(w, turns[0]), turns[1..], c)
  }

  lemma EndAdds(t: Target, how: How, c: Counter)
    ensures Added(EndedOps(t, Long, how, Transfer), c) == DeathCount(EndWith(how), c)
  {
    var way := if how.ServerClosed? then Note(t, Long, ClosedByServer) else Note(t, Long, ConnDropped);
    OneOp(t, way, c, 0);
    if how == Dropped(ConnReset) {
      OneOp(t, Note(t, Long, ResetIn(Transfer)), c, 0);
      OpsJoin(t, [way], [Note(t, Long, ResetIn(Transfer))], c, 0);
    } else {
      assert EndedOps(t, Long, how, Transfer) == [way];
    }
  }

  lemma TurnAdds(t: Target, w: Watch, turn: Turn, c: Counter)
    ensures Added(TurnOps(t, w, turn), c) == TurnCount(w, turn, c)
  {
    if Ends(w, turn) {
      if EndedBy(w, turn).Some? {
        EndAdds(t, EndedBy(w, turn).value, c);
      }
    } else if |TurnOps(t, w, turn)| == 1 {
      OneOp(t, TurnOps(t, w, turn)[0], c, 0);
    }
  }

  lemma {:induction false} SessionAdds(t: Target, w: Watch, turns: seq<Turn>, c: Counter)
    ensures Added(SessionOps(t, w, turns), c) == SessionCount(w, turns, c)
    decreases |turns|
  {
    if turns != [] {
      TurnAdds(t, w, turns[0], c);
      if !Ends(w, turns[0]) {
        var seen, rest := Seen(w, turns[0]), turns[1..];
        SessionAdds(t, seen, rest, c);
        OpsJoin(t, TurnOps(t, w, turns[0]), SessionOps(t, seen, rest), c, 0);
      }
    }
  }

  lemma SameWeight(r: Aggregator.Record, c: Counter)
    ensures Weight(Idle, r, c) == Weight(Long, r, c)
  {
  }

  lemma {:induction false} SumRecorded(ops: seq<Op>, before: seq<Aggregator.Record>, c: Counter)
    ensures Sum(Long, before + RecordsOf(ops), c) == Sum(Long, before, c) + Added(ops, c)
  {
    if ops == [] {
      assert before + RecordsOf(ops) == before;
    } else {
      var init, last := ops[..|ops| - 1], ops[|ops| - 1];
      var recorded := before + RecordsOf(init);
      SumRecorded(init, before, c);
      if last.Note? {
        SumOneMore(Long, recorded, last.record, c);
        SameWeight(last.record, c);
        assert before + RecordsOf(ops) == recorded + [last.record];
        assert Added(ops, c) == Added(init, c) + Weight(Idle, last.record, c);
      } else {
        assert before + RecordsOf(ops) == recorded;
      }
    }
  }

  /** Whatever falls in between, a session adds these counts to its bucket. */
  lemma SessionEffect(start: History, h: History, t: Target, w: Watch, turns: seq<Turn>, c: Counter)
    requires Continues(start, h, t, Long, SessionOps(t, w, turns)) && HeardSince(start, h, t, Long)
    ensures Sum(Long, Accepted(h, Key(t, Long)), c)
         == Sum(Long, Accepted(start, Key(t, Long)), c) + SessionCount(w, turns, c)
  {
    ContinuedRecords(start, h, t, Long, SessionOps(t, w, turns));
    SumRecorded(SessionOps(t, w, turns), Accepted(start, Key(t, Long)), c);
    SessionAdds(t, w, turns, c);
  }

  /** A session counts one drop or one server close if it ended by itself, and neither if it was stopped. */
  lemma {:induction false} SessionEndsOnce(w: Watch, turns: seq<Turn>)
    ensures SessionCount(w, turns, Drops) == One(SessionEnd(w, turns).Some? && SessionEnd(w, turns).value.Dropped?)
    ensures SessionCount(w, turns, ServerCloses) == One(SessionEnd(w, turns) == Some(ServerClosed))
    ensures SessionCount(w, turns, Resets(Transfer)) == One(SessionEnd(w, turns) == Some(Dropped(ConnReset)))
    decreases |turns|
  {
    if turns != [] && !Ends(w, turns[0]) {
      SessionEndsOnce(Seen(w, turns[0]), turns[1..]);
    }
  }

  // ----- giving up

  /** The loop's variables before the i-th turn, if the session gets there. */
  function WatchAt(w: Watch, turns: seq<Turn>, i: nat): Watch
    requires i <= |turns|
    decreases i
  {
    if i == 0 then w else WatchAt(Seen(w, turns[0]), turns[1..], i - 1)
  }

  function TimeOf(turn: Turn, otherwise: int): int {
    if turn.Stopped? then otherwise else turn.now
  }

  /** No turn is earlier than one before it, or than the start. */
  predicate Timely(start: int, turns: seq<Turn>)
    decreases |turns|
  {
    turns == [] || (start <= TimeOf(turns[0], start) && Timely(TimeOf(turns[0], start), turns[1..]))
  }

  predicate AnswersBy(turn: Turn, now: int) {
    turn.Pinged? && turn.reply.Answered? && now - turn.now <= DEAD_AFTER
  }

  /** At a tick the connection is given up just when it started and was last answered too long ago. */
  lemma {:induction false} DeadAfterSilence(w: Watch, turns: seq<Turn>, i: nat, earlier: int)
    requires i < |turns| && turns[i].Tick?
    requires w.lastAnswer <= earlier && Timely(earlier, turns)
    ensures Ends(WatchAt(w, turns, i), turns[i]) <==>
            && turns[i].now - w.lastAnswer > DEAD_AFTER
            && forall j :: 0 <= j < i ==> !AnswersBy(turns[j], turns[i].now)
    decreases |turns|
  {
    if i > 0 {
      var rest := turns[1..];
      DeadAfterSilence(Seen(w, turns[0]), rest, i - 1, TimeOf(turns[0], earlier));
      assert forall j :: 0 <= j < i - 1 ==> rest[j] == turns[j + 1];
      assert forall j :: 0 < j < i ==> turns[j] == rest[j - 1];
      var now := turns[i].now;
      assert (forall j :: 0 <= j < i ==> !AnswersBy(turns[j], now)) <==>
             !AnswersBy(turns[0], now) && forall j :: 0 <= j < i - 1 ==> !AnswersBy(rest[j], now);
    }
  }

  // ----- a session told of its turns

  /** The i-th turn ends the session, if none before it does. */
  ghost predicate Fatal(started: int, turns: seq<Turn>, i: nat)
    requires i < |turns|
  {
    match turns[i]
    case Stopped => true
    case Tick(now, _, _) =>
      now - started > 30_000_000_000
      && forall j :: 0 <= j < i ==> !(turns[j].Pinged? && turns[j].reply.Answered? && now - turns[j].now <= 30_000_000_000)
    case Pinged(_, reply, cancelled, _) => reply.Broken? || (reply.Unanswered? && cancelled)
  }

  /** The first n turns leave the session alive, and the next one, if any, ends it. */
  ghost predicate Lives(started: int, turns: seq<Turn>, n: nat) {
    && n <= |turns|
    && (forall i :: 0 <= i < n ==> !Fatal(started, turns, i))
    && (n < |turns| ==> Fatal(started, turns, n))
  }

  /** How the turn that ends a session ends it; None if the loop was told to stop. */
  function EndTold(turn: Turn): Option<How> {
    match turn
    case Stopped => None
    case Tick(_, _, _) => Some(Dropped(Timeout))
    case Pinged(_, reply, cancelled, closing) =>
      if cancelled || !reply.Broken? then None
      else if closing && !reply.socket then Some(ServerClosed)
      else Some(Dropped(reply.cause))
  }

  function EndRecords(how: How): seq<Aggregator.Record> {
    [if how == ServerClosed then ClosedByServer else ConnDropped]
    + if how == Dropped(ConnReset) then [ResetIn(Transfer)] else []
  }

  /** The records of turns that leave the session alive; last is the count of retransmits read before. */
  function TurnsTold(last: Count, turns: seq<Turn>): seq<Aggregator.Record>
    decreases |turns|
  {
    if turns == [] then []
    else
      match turns[0]
      case Tick(_, Some(r), _) =>
        [TcpReading(r.rtt, r.rttVar, if r.total >= last then r.total - last else r.total - last + 0x1_0000_0000)]
        + TurnsTold(r.total, turns[1..])
      case Pinged(_, Answered(rtt), _, _) => [Pong(rtt)] + TurnsTold(last, turns[1..])
      case Pinged(_, _, _, _) => [LostPong] + TurnsTold(last, turns[1..])
      case _ => TurnsTold(last, turns[1..])
  }

  lemma FatalIff(w: Watch, turns: seq<Turn>, i: nat, earlier: int)
    requires i < |turns| && w.lastAnswer <= earlier && Timely(earlier, turns)
    ensures Ends(WatchAt(w, turns, i), turns[i]) <==> Fatal(w.lastAnswer, turns, i)
  {
    if turns[i].Tick? {
      DeadAfterSilence(w, turns, i, earlier);
      forall j | 0 <= j < i
        ensures AnswersBy(turns[j], turns[i].now) <==>
                turns[j].Pinged? && turns[j].reply.Answered? && turns[i].now - turns[j].now <= 30_000_000_000
      {
      }
    }
  }

  lemma {:induction false} AliveTurn(t: Target, w: Watch, turn: Turn, rest: seq<Turn>)
    requires !Ends(w, turn)
    ensures RecordsOf(TurnOps(t, w, turn)) + TurnsTold(Seen(w, turn).lastRetrans, rest)
         == TurnsTold(w.lastRetrans, [turn] + rest)
  {
    assert ([turn] + rest)[1..] == rest;
    if TurnOps(t, w, turn) != [] {
      RecordOf(TurnOps(t, w, turn)[0]);
      assert TurnOps(t, w, turn) == [TurnOps(t, w, turn)[0]];
    } else {
      assert [] + TurnsTold(w.lastRetrans, rest) == TurnsTold(w.lastRetrans, rest);
    }
  }

  lemma {:induction false} FinalTurn(t: Target, w: Watch, turn: Turn)
    requires Ends(w, turn)
    ensures EndedBy(w, turn) == EndTold(turn)
    ensures RecordsOf(TurnOps(t, w, turn)) == if EndTold(turn).Some? then EndRecords(EndTold(turn).value) else []
  {
    if EndTold(turn).Some? {
      var ops := TurnOps(t, w, turn);
      RecordOf(ops[0]);
      if |ops| == 2 {
        RecordOf(ops[1]);
        RecordsJoin([ops[0]], [ops[1]]);
        assert ops == [ops[0]] + [ops[1]];
      } else {
        assert ops == [ops[0]];
      }
    }
  }

  lemma {:induction false} SessionUnrolled(t: Target, w: Watch, turns: seq<Turn>, n: nat)
    requires n <= |turns| && forall i :: 0 <= i < n ==> !Ends(WatchAt(w, turns, i), turns[i])
    requires n < |turns| ==> Ends(WatchAt(w, turns, n), turns[n])
    ensures SessionEnd(w, turns) == if n < |turns| then EndTold(turns[n]) else None
    ensures RecordsOf(SessionOps(t, w, turns)) ==
            TurnsTold(w.lastRetrans, turns[..n])
            + if n < |turns| && EndTold(turns[n]).Some? then EndRecords(EndTold(turns[n]).value) else []
    decreases n
  {
    if n == 0 {
      if turns != [] {
        assert WatchAt(w, turns, 0) == w;
        FinalTurn(t, w, turns[0]);
      }
    } else {
      assert !Ends(WatchAt(w, turns, 0), turns[0]);
      var seen, rest := Seen(w, turns[0]), turns[1..];
      forall i | 0 <= i < n - 1
        ensures !Ends(WatchAt(seen, rest, i), rest[i])
      {
        assert !Ends(WatchAt(w, turns, i + 1), turns[i + 1]);
      }
      SessionUnrolled(t, seen, rest, n - 1);
      UnrollOne(t, w, turns);
      ToldOne(t, w, turns, n);
    }
  }

  lemma {:induction false} UnrollOne(t: Target, w: Watch, turns: seq<Turn>)
    requires turns != [] && !Ends(w, turns[0])
    ensures RecordsOf(SessionOps(t, w, turns)) ==
            RecordsOf(TurnOps(t, w, turns[0])) + RecordsOf(SessionOps(t, Seen(w, turns[0]), turns[1..]))
  {
    RecordsJoin(TurnOps(t, w, turns[0]), SessionOps(t, Seen(w, turns[0]), turns[1..]));
  }

  lemma {:induction false} ToldOne(t: Target, w: Watch, turns: seq<Turn>, n: nat)
    requires 0 < n <= |turns| && !Ends(w, turns[0])
    ensures TurnsTold(w.lastRetrans, turns[..n]) ==
            RecordsOf(TurnOps(t, w, turns[0])) + TurnsTold(Seen(w, turns[0]).lastRetrans, turns[1..][..n - 1])
  {
    AliveTurn(t, w, turns[0], turns[1..][..n - 1]);
    assert turns[..n] == [turns[0]] + turns[1..][..n - 1];
  }

  /**
   How a session ends and what it records, told of its turns: it lives until it
   is stopped, breaks, or at a tick was last answered too long ago.
   */
  lemma {:induction false} SessionTold(t: Target, started: int, initial: Option<Count>, turns: seq<Turn>, n: nat)
    requires Timely(started, turns) && Lives(started, turns, n)
    ensures var first := if initial.Some? then initial.value else 0;
            var w := Watch(started, first);
            var end := if n < |turns| then EndTold(turns[n]) else None;
            && SessionEnd(w, turns) == end
            && RecordsOf(SessionOps(t, w, turns)) ==
               TurnsTold(first, turns[..n]) + if end.Some? then EndRecords(end.value) else []
  {
    var w := Watch(started, if initial.Some? then initial.value else 0);
    forall i | 0 <= i < |turns|
      ensures Ends(WatchAt(w, turns, i), turns[i]) <==> Fatal(started, turns, i)
    {
      FatalIff(w, turns, i, started);
    }
    SessionUnrolled(t, w, turns, n);
  }
}
