/**
 What a trace reports, told by the fields of the errors that were queued while
 it ran: which entry answered which attempt, how each answer moved the probe
 size, and which one ended the trace.
 */
module TraceReplies {
  import opened Prelude
  import opened Tracer

  // ----- the entries, by their fields

  predicate IsTooBig(e: Entry) { e.err.errno == 90 }

  /** An ICMP error other than the local too-big one. */
  predicate IsICMP(e: Entry, icmpType: nat) {
    e.err.errno != 90 && e.err.origin == 2 && e.err.icmpType == icmpType
  }

  predicate FromRouter(e: Entry) { IsICMP(e, 11) }

  predicate FromDestination(e: Entry) { IsICMP(e, 3) && e.err.icmpCode == 3 }

  predicate EndsPath(e: Entry) { IsICMP(e, 3) && e.err.icmpCode != 3 }

  /** The four bytes a probe starts with. */
  function BigEndian(n: nat): seq<Byte>
    requires n < WORD
  {
    [(n / 0x100_0000) as Byte, (n / 0x1_0000 % 0x100) as Byte, (n / 0x100 % 0x100) as Byte, (n % 0x100) as Byte]
  }

  /** Speaks of the probe numbered seqno, or quotes too little to tell. */
  predicate Quotes(e: Entry, seqno: nat)
    requires seqno < WORD
  {
    |e.quoted| < 4 || e.quoted[..4] == BigEndian(seqno)
  }

  predicate Counts(e: Entry, seqno: nat)
    requires seqno < WORD
  {
    (IsTooBig(e) || IsICMP(e, 11) || IsICMP(e, 3)) && Quotes(e, seqno)
  }

  lemma WordIs(b: seq<Byte>, n: nat)
    requires |b| >= 4 && n < WORD
    ensures Word(b) == n <==> b[..4] == BigEndian(n)
  {
    var b0, b1, b2, b3 := b[0] as int, b[1] as int, b[2] as int, b[3] as int;
    if Word(b) == n {
      WordParts(b0, b1, b2, b3);
      assert b[..4] == BigEndian(n);
    }
    if b[..4] == BigEndian(n) {
      assert b[0] == b[..4][0] && b[1] == b[..4][1] && b[2] == b[..4][2] && b[3] == b[..4][3];
      PartsJoin(n);
    }
  }

  lemma WordParts(b0: int, b1: int, b2: int, b3: int)
    requires 0 <= b0 < 0x100 && 0 <= b1 < 0x100 && 0 <= b2 < 0x100 && 0 <= b3 < 0x100
    ensures var n := b0 * 0x100_0000 + b1 * 0x1_0000 + b2 * 0x100 + b3;
            n / 0x100_0000 == b0 && n / 0x1_0000 % 0x100 == b1 && n / 0x100 % 0x100 == b2 && n % 0x100 == b3
  {
    var n := b0 * 0x100_0000 + b1 * 0x1_0000 + b2 * 0x100 + b3;
    assert n / 0x100 == b0 * 0x1_0000 + b1 * 0x100 + b2;
    assert n / 0x1_0000 == b0 * 0x100 + b1;
  }

  lemma PartsJoin(n: nat)
    ensures n == n / 0x100_0000 * 0x100_0000 + n / 0x1_0000 % 0x100 * 0x1_0000 + n / 0x100 % 0x100 * 0x100 + n % 0x100
  {
    assert n / 0x1_0000 == n / 0x100 / 0x100 && n / 0x100_0000 == n / 0x1_0000 / 0x100;
  }

  lemma AnswersIff(e: Entry, seqno: nat)
    requires seqno < WORD
    ensures Answers(e, seqno) <==> Counts(e, seqno)
  {
    if |e.quoted| >= 4 {
      WordIs(e.quoted, seqno);
    }
  }

  // ----- one attempt

  /** Neither cancelled nor failed nor answered in the first k turns. */
  ghost predicate QuietBefore(turns: seq<Turn>, k: nat, seqno: nat)
    requires k <= |turns| && seqno < WORD
  {
    forall j :: 0 <= j < k ==>
      turns[j].Quiet?
      || (turns[j].Queued? && forall n :: 0 <= n < |turns[j].entries| ==> !Counts(turns[j].entries[n], seqno))
  }

  /** The n-th entry read in the k-th turn is the first that counts. */
  ghost predicate Reads(turns: seq<Turn>, k: nat, n: nat, seqno: nat)
    requires seqno < WORD
  {
    && k < |turns| && turns[k].Queued? && n < |turns[k].entries|
    && QuietBefore(turns, k, seqno)
    && Counts(turns[k].entries[n], seqno)
    && forall m :: 0 <= m < n ==> !Counts(turns[k].entries[m], seqno)
  }

  ghost predicate Stops(turns: seq<Turn>, k: nat, seqno: nat)
    requires seqno < WORD
  {
    k < |turns| && QuietBefore(turns, k, seqno) && (turns[k].Cancelled? || turns[k].PollFailed?)
  }

  /** The write's result: that of the second one if the first failed. */
  predicate Went(a: Attempt, w: Written) {
    if a.write == WriteFailed then a.rewrite == w else a.write == w
  }

  ghost predicate AnsweredBy(a: Attempt, seqno: nat, e: Entry)
    requires seqno < WORD
  {
    Went(a, Sent) && exists k: nat, n: nat :: Reads(a.turns, k, n, seqno) && a.turns[k].entries[n] == e
  }

  ghost predicate Unanswered(a: Attempt, seqno: nat)
    requires seqno < WORD
  {
    Went(a, Sent) && QuietBefore(a.turns, |a.turns|, seqno)
  }

  ghost predicate BrokeOff(a: Attempt, seqno: nat)
    requires seqno < WORD
  {
    Went(a, WriteFailed) || (Went(a, Sent) && exists k: nat :: Stops(a.turns, k, seqno))
  }

  /** m is what the last local too-big error in the queue says, 0 if there is none. */
  ghost predicate LastAdvice(entries: seq<Entry>, m: nat) {
    || (m == 0 && forall i :: 0 <= i < |entries| ==> !IsTooBig(entries[i]))
    || exists i :: 0 <= i < |entries| && IsTooBig(entries[i]) && m == entries[i].err.info
                   && forall j :: i < j < |entries| ==> !IsTooBig(entries[j])
  }

  /** The attempt was too big; m is the size to use, if that is of any use. */
  ghost predicate Advises(a: Attempt, seqno: nat, m: nat)
    requires seqno < WORD
  {
    || (Went(a, Refused) && LastAdvice(a.queue, m))
    || exists e :: AnsweredBy(a, seqno, e) && IsTooBig(e) && m == e.err.info
  }

  lemma {:induction false} FirstAnswerIs(entries: seq<Entry>, seqno: nat) returns (n: nat)
    requires seqno < WORD
    ensures var found := FirstAnswer(entries, seqno);
            && n <= |entries|
            && (found.Some? <==> n < |entries|)
            && (n < |entries| ==> found == Some(entries[n]) && Counts(entries[n], seqno))
    ensures forall m :: 0 <= m < n ==> !Counts(entries[m], seqno)
  {
    n := 0;
    if entries != [] {
      AnswersIff(entries[0], seqno);
      if !Answers(entries[0], seqno) {
        var rest := FirstAnswerIs(entries[1..], seqno);
        n := rest + 1;
        assert forall m :: 0 < m < n ==> entries[m] == entries[1..][m - 1];
      }
    }
  }

  lemma QuietLater(turns: seq<Turn>, k: nat, seqno: nat)
    requires turns != [] && k < |turns| && seqno < WORD
    ensures QuietBefore(turns, k + 1, seqno) <==> QuietBefore(turns, 1, seqno) && QuietBefore(turns[1..], k, seqno)
  {
    assert forall j :: 0 < j < k + 1 ==> turns[j] == turns[1..][j - 1];
    if QuietBefore(turns, k + 1, seqno) {
      assert forall j :: 0 <= j < k ==> turns[1..][j] == turns[j + 1];
    }
  }

  /** Waiting ends in the turn that decides it. */
  lemma {:induction false} AwaitIs(turns: seq<Turn>, seqno: nat) returns (k: nat, n: nat)
    requires seqno < WORD
    ensures k <= |turns| && QuietBefore(turns, k, seqno)
    ensures match Await(turns, seqno)
            case Answer(e) => Reads(turns, k, n, seqno) && turns[k].entries[n] == e
            case Timeout => k == |turns|
            case WaitFailed => Stops(turns, k, seqno)
  {
    k, n := 0, 0;
    if turns != [] && !turns[0].Cancelled? && !turns[0].PollFailed? {
      if turns[0].Queued? {
        n := FirstAnswerIs(turns[0].entries, seqno);
        if n < |turns[0].entries| {
          return;
        }
      }
      assert QuietBefore(turns, 1, seqno);
      var later;
      later, n := AwaitIs(turns[1..], seqno);
      k := later + 1;
      if later < |turns[1..]| {
        QuietLater(turns, later, seqno);
        assert turns[k] == turns[1..][later];
      } else {
        assert forall j :: 0 < j < |turns| ==> turns[j] == turns[1..][j - 1];
      }
    }
  }

  /** Only one turn can decide. */
  lemma FirstTurnOnly(turns: seq<Turn>, j: nat, k: nat, seqno: nat)
    requires seqno < WORD && j < |turns| && k <= |turns|
    requires QuietBefore(turns, j, seqno) && QuietBefore(turns, k, seqno)
    requires turns[j].Cancelled? || turns[j].PollFailed?
             || (turns[j].Queued? && exists n :: 0 <= n < |turns[j].entries| && Counts(turns[j].entries[n], seqno))
    ensures k <= j
  {
  }

  /** Exactly the first entry that counts answers. */
  lemma AwaitIff(turns: seq<Turn>, seqno: nat, e: Entry)
    requires seqno < WORD
    ensures Await(turns, seqno) == Answer(e) <==>
            exists k: nat, n: nat :: Reads(turns, k, n, seqno) && turns[k].entries[n] == e
    ensures Await(turns, seqno) == Timeout <==> QuietBefore(turns, |turns|, seqno)
    ensures Await(turns, seqno) == WaitFailed <==> exists k: nat :: Stops(turns, k, seqno)
  {
    var k, n := AwaitIs(turns, seqno);
    if j: nat, m: nat :| Reads(turns, j, m, seqno) && turns[j].entries[m] == e {
      FirstTurnOnly(turns, j, k, seqno);
      if k < |turns| {
        FirstTurnOnly(turns, k, j, seqno);
      }
    }
    if j: nat :| Stops(turns, j, seqno) {
      FirstTurnOnly(turns, j, k, seqno);
      if k < |turns| {
        FirstTurnOnly(turns, k, j, seqno);
      }
    }
    if QuietBefore(turns, |turns|, seqno) && k < |turns| {
      FirstTurnOnly(turns, k, |turns|, seqno);
    }
  }

  lemma {:induction false} DrainedIs(entries: seq<Entry>)
    ensures LastAdvice(entries, DrainedMTU(entries))
  {
    if entries != [] {
      var init, last := entries[..|entries| - 1], entries[|entries| - 1];
      assert entries == init + [last];
      if !IsTooBig(last) {
        DrainedIs(init);
        AdviceOneMore(init, last, DrainedMTU(init));
      }
    }
  }

  lemma AdviceOneMore(init: seq<Entry>, last: Entry, m: nat)
    requires LastAdvice(init, m) && !IsTooBig(last)
    ensures LastAdvice(init + [last], m)
  {
    var entries := init + [last];
    if i :| 0 <= i < |init| && IsTooBig(init[i]) && m == init[i].err.info
            && forall j :: i < j < |init| ==> !IsTooBig(init[j]) {
      assert IsTooBig(entries[i]);
    }
  }

  /** The kind of an answer, by its fields. */
  predicate KindIs(e: Entry, kind: Kind) {
    match kind
    case Hop => FromRouter(e)
    case Reached => FromDestination(e)
    case Unreachable => EndsPath(e)
    case TooBig => IsTooBig(e)
    case Ignore => false
  }

  /** What one attempt comes to, told by what was queued. */
  ghost predicate OutcomeIs(a: Attempt, seqno: nat, o: Outcome)
    requires seqno < WORD
  {
    match o
    case Shrink(advised) => Advises(a, seqno, advised)
    case Retry => Unanswered(a, seqno)
    case Finish(HopFailed) => BrokeOff(a, seqno)
    case Finish(Silent) => false
    case Finish(Replied(addr, kind)) =>
      !kind.TooBig? && exists e :: AnsweredBy(a, seqno, e) && KindIs(e, kind) && e.err.offender == addr
  }

  lemma AttemptIs(a: Attempt, seqno: nat)
    requires seqno < WORD
    ensures OutcomeIs(a, seqno, OutcomeOf(a, seqno))
  {
    DrainedIs(a.queue);
    if SendOutcome(a) == Sent {
      var k, n := AwaitIs(a.turns, seqno);
      if Await(a.turns, seqno).Answer? {
        var e := Await(a.turns, seqno).entry;
        AwaitIff(a.turns, seqno, e);
        assert AnsweredBy(a, seqno, e);
        assert Counts(e, seqno);
      }
    }
  }

  /** An answer that counts first is the one reported. */
  lemma AnsweredIsFinished(a: Attempt, seqno: nat, e: Entry)
    requires seqno < WORD && AnsweredBy(a, seqno, e) && !IsTooBig(e)
    ensures OutcomeOf(a, seqno) == Finish(Replied(e.err.offender, KindOf(e.err)))
  {
    AwaitIff(a.turns, seqno, e);
  }

  /** The last attempt of a trace has one outcome. */
  lemma OutcomesExclude(a: Attempt, seqno: nat, e: Entry)
    requires seqno < WORD && AnsweredBy(a, seqno, e) && !IsTooBig(e)
    ensures !Unanswered(a, seqno) && !BrokeOff(a, seqno)
    ensures forall m: nat :: !Advises(a, seqno, m)
    ensures forall e' :: AnsweredBy(a, seqno, e') ==> e' == e
  {
    AwaitIff(a.turns, seqno, e);
    forall e' | AnsweredBy(a, seqno, e')
      ensures e' == e
    {
      AwaitIff(a.turns, seqno, e');
    }
  }

  // ----- the attempts at one TTL

  /** The probe size before the i-th attempt, or after the last. */
  function MtuAt(s: State, i: nat): int
    requires i <= |s.log|
  {
    if i < |s.log| then s.log[i].mtu else s.mtu
  }

  function Shrunk(mtu: int, advised: nat): int {
    if 576 <= advised < mtu then advised else if mtu >= 604 then mtu - 28 else 576
  }

  /** Nothing came of the i-th attempt, or it was too big and moved the probe size. */
  ghost predicate Retried(env: Env, s: State, i: nat)
    requires i < |s.log| && s.log[i].seqno < WORD
  {
    var a, p := env(i), s.log[i];
    || (Unanswered(a, p.seqno) && MtuAt(s, i + 1) == p.mtu)
    || exists advised: nat :: Advises(a, p.seqno, advised) && MtuAt(s, i + 1) == Shrunk(p.mtu, advised)
  }

  /** How many attempts did not make the probe smaller. */
  function UsedUp(s: State, from: nat, to: nat): nat
    requires from <= to <= |s.log|
    decreases if from <= to then to - from else 0
  {
    if from == to then 0 else (if MtuAt(s, from + 1) < MtuAt(s, from) then 0 else 1) + UsedUp(s, from + 1, to)
  }

  /** The attempts at one TTL, and what came of them. */
  ghost predicate HopIs(env: Env, s: State, from: nat, to: nat, ttl: nat, r: HopResult) {
    && from < to <= |s.log|
    && (forall i :: from <= i < to ==> s.log[i].ttl == ttl && s.log[i].seqno < WORD)
    && (forall i :: from <= i < to - 1 ==> Retried(env, s, i))
    && if r.Silent?
       then Retried(env, s, to - 1) && MtuAt(s, to) >= MtuAt(s, to - 1) && UsedUp(s, from, to) == 2
       else OutcomeIs(env(to - 1), s.log[to - 1].seqno, Finish(r)) && MtuAt(s, to) == MtuAt(s, to - 1)
            && UsedUp(s, from, to - 1) < 2
  }

  /** The same from the try-th try on, when some tries are used up already. */
  ghost predicate RestIs(env: Env, s: State, from: nat, ttl: nat, tried: nat, r: HopResult) {
    var to := |s.log|;
    if tried == 2 then from == to && r.Silent?
    else
      && tried < 2 && from < to
      && (forall i :: from <= i < to ==> s.log[i].ttl == ttl && s.log[i].seqno < WORD)
      && (forall i :: from <= i < to - 1 ==> Retried(env, s, i))
      && if r.Silent?
         then Retried(env, s, to - 1) && MtuAt(s, to) >= MtuAt(s, to - 1) && UsedUp(s, from, to) == 2 - tried
         else OutcomeIs(env(to - 1), s.log[to - 1].seqno, Finish(r)) && MtuAt(s, to) == MtuAt(s, to - 1)
              && UsedUp(s, from, to - 1) < 2 - tried
  }

  lemma {:induction false} HopTold(env: Env, s: State, ttl: nat, tried: nat)
    requires tried <= 2
    ensures var (after, r) := RunHop(env, s, ttl, tried);
            && s.log <= after.log && MtuAt(after, |s.log|) == s.mtu
            && RestIs(env, after, |s.log|, ttl, tried, r)
    decreases PROBES_PER_HOP - tried + Slack(s.mtu)
  {
    if tried < 2 {
      var launched := Launch(s, ttl);
      var seqno := launched.seqno;
      AttemptIs(env(|s.log|), seqno);
      var (after, r) := RunHop(env, s, ttl, tried);
      match OutcomeOf(env(|s.log|), seqno)
      case Finish(_) =>
      case Retry =>
        HopTold(env, launched, ttl, tried + 1);
        OneRetry(env, after, |s.log|, ttl, tried, tried + 1, r);
      case Shrink(advised) =>
        var mtu := Lowered(s.mtu, advised);
        var next := if mtu < s.mtu then tried else tried + 1;
        HopTold(env, launched.(mtu := mtu), ttl, next);
        assert mtu == Shrunk(s.mtu, advised);
        OneRetry(env, after, |s.log|, ttl, tried, next, r);
    }
  }

  lemma OneRetry(env: Env, s: State, from: nat, ttl: nat, tried: nat, next: nat, r: HopResult)
    requires tried < 2 && from < |s.log| && s.log[from].ttl == ttl && s.log[from].seqno < WORD
    requires Retried(env, s, from)
    requires next == if MtuAt(s, from + 1) < MtuAt(s, from) then tried else tried + 1
    requires RestIs(env, s, from + 1, ttl, next, r)
    ensures RestIs(env, s, from, ttl, tried, r)
  {
  }

  // ----- the whole trace

  lemma {:induction false} UsedUpLater(s: State, later: State, from: nat, to: nat)
    requires s.log <= later.log && MtuAt(later, |s.log|) == s.mtu && from <= to <= |s.log|
    ensures UsedUp(later, from, to) == UsedUp(s, from, to)
    decreases if from <= to then to - from else 0
  {
    if from < to {
      UsedUpLater(s, later, from + 1, to);
    }
  }

  lemma HopIsLater(env: Env, s: State, later: State, from: nat, to: nat, ttl: nat, r: HopResult)
    requires HopIs(env, s, from, to, ttl, r)
    requires s.log <= later.log && MtuAt(later, |s.log|) == s.mtu
    ensures HopIs(env, later, from, to, ttl, r)
  {
    UsedUpLater(s, later, from, to);
    UsedUpLater(s, later, from, to - 1);
    assert forall i :: 0 <= i <= |s.log| ==> MtuAt(later, i) == MtuAt(s, i);
    forall i | from <= i < to && Retried(env, s, i)
      ensures Retried(env, later, i)
    {
      assert later.log[i] == s.log[i];
    }
  }

  /** Where each hop's attempts start, and what came of each hop. */
  datatype Story = Story(starts: seq<nat>, results: seq<HopResult>)

  /** The hops from ttl on, told from the from-th attempt on. */
  ghost predicate Tells(env: Env, s: State, from: nat, ttl: nat, hops: seq<TraceHop>, story: Story) {
    && |story.results| == |hops| && |story.starts| == |hops| + 1
    && story.starts[0] == from && story.starts[|hops|] == |s.log|
    && (forall n :: 0 <= n < |hops| ==> hops[n] == HopOf(ttl + n, story.results[n]))
    && (forall n :: 0 <= n < |hops| ==>
          HopIs(env, s, story.starts[n], story.starts[n + 1], ttl + n, story.results[n]))
    && (forall n :: 0 <= n < |hops| - 1 ==>
          story.results[n].Silent? || (story.results[n].Replied? && story.results[n].kind == Hop))
  }

  lemma TellsOneMore(env: Env, s: State, from: nat, to: nat, ttl: nat, r: HopResult, hops: seq<TraceHop>, later: Story)
    requires HopIs(env, s, from, to, ttl, r)
    requires Tells(env, s, to, ttl + 1, hops, later)
    requires hops != [] ==> r.Silent? || (r.Replied? && r.kind == Hop)
    ensures Tells(env, s, from, ttl, [HopOf(ttl, r)] + hops, Story([from] + later.starts, [r] + later.results))
  {
    var story := Story([from] + later.starts, [r] + later.results);
    var all := [HopOf(ttl, r)] + hops;
    forall n | 0 <= n < |all|
      ensures all[n] == HopOf(ttl + n, story.results[n])
      ensures HopIs(env, s, story.starts[n], story.starts[n + 1], ttl + n, story.results[n])
    {
      if n > 0 {
        assert story.results[n] == later.results[n - 1] && story.starts[n] == later.starts[n - 1];
        assert story.starts[n + 1] == later.starts[n] && ttl + n == ttl + 1 + (n - 1);
      }
    }
  }

  predicate Passes(r: HopResult) { r.Silent? || (r.Replied? && r.kind == Hop) }

  /** How a trace ends, by what came of its last hop. */
  predicate EndIs(ttlSet: nat -> bool, out: Result, results: seq<HopResult>) {
    var passed := results == [] || Passes(results[|results| - 1]);
    var next := |out.hops| + 1;
    && (out.reached <==> results != [] && results[|results| - 1].Replied? && results[|results| - 1].kind == Reached)
    && (out.failed <==>
        || (results != [] && results[|results| - 1].HopFailed?)
        || (passed && next <= 30 && TrailingSilent(out.hops) < 5 && !ttlSet(next)))
    && (passed && !out.failed ==> next > 30 || TrailingSilent(out.hops) == 5)
  }

  lemma EndOneMore(ttlSet: nat -> bool, out: Result, r: HopResult, later: seq<HopResult>)
    requires EndIs(ttlSet, out, later)
    requires later == [] ==> Passes(r)
    ensures EndIs(ttlSet, out, [r] + later)
  {
    var all := [r] + later;
    assert later != [] ==> all[|all| - 1] == later[|later| - 1];
  }

  /** One TTL that is tried: either the trace goes on from its end, or it ends there as told. */
  lemma OneHopTold(env: Env, ttlSet: nat -> bool, s: State, ttl: nat, silent: nat, res: Result)
    requires 1 <= ttl <= MAX_HOPS && silent < MAX_SILENT && ttlSet(ttl)
    requires |res.hops| == ttl - 1 && TrailingSilent(res.hops) == silent && !res.reached && !res.failed
    ensures var (s', r) := RunHop(env, s, ttl, 0);
            var res' := WithHop(res, s', ttl, r);
            && s.log <= s'.log && MtuAt(s', |s.log|) == s.mtu
            && HopIs(env, s', |s.log|, |s'.log|, ttl, r)
            && res'.hops == res.hops + [HopOf(ttl, r)]
            && TrailingSilent(res'.hops) == (if r.Silent? || r.HopFailed? then silent + 1 else 0)
            && (GoesOn(r) <==> Passes(r))
            && var (after, out) := RunFrom(env, ttlSet, s, ttl, silent, res);
               if Passes(r) then
                 (after, out) == RunFrom(env, ttlSet, s', ttl + 1, if r.Silent? then silent + 1 else 0, res')
               else
                 after == s' && out.hops == res'.hops && EndIs(ttlSet, out, [r])
  {
    HopTold(env, s, ttl, 0);
    var (s', r) := RunHop(env, s, ttl, 0);
    var hops := res.hops + [HopOf(ttl, r)];
    assert hops[..|hops| - 1] == res.hops;
  }

  /** What after and out are told to be by the hops from ttl on, after the earlier ones. */
  ghost predicate RunIs(env: Env, ttlSet: nat -> bool, s: State, ttl: nat, earlier: seq<TraceHop>, after: State,
                        out: Result, story: Story) {
    && s.log <= after.log && MtuAt(after, |s.log|) == s.mtu
    && earlier <= out.hops
    && Tells(env, after, |s.log|, ttl, out.hops[|earlier|..], story)
    && EndIs(ttlSet, out, story.results)
  }

  lemma NoHopTold(env: Env, ttlSet: nat -> bool, s: State, ttl: nat, silent: nat, res: Result, after: State, out: Result)
    requires 1 <= ttl <= MAX_HOPS + 1 && |res.hops| == ttl - 1
    requires TrailingSilent(res.hops) == silent <= MAX_SILENT && !res.reached && !res.failed
    requires !(ttl <= MAX_HOPS && silent < MAX_SILENT && ttlSet(ttl))
    requires (after, out) == RunFrom(env, ttlSet, s, ttl, silent, res)
    ensures RunIs(env, ttlSet, s, ttl, res.hops, after, out, Story([|s.log|], []))
  {
  }

  lemma {:induction false} RunTold(env: Env, ttlSet: nat -> bool, s: State, ttl: nat, silent: nat, res: Result,
                                   after: State, out: Result)
    returns (story: Story)
    requires 1 <= ttl <= MAX_HOPS + 1 && |res.hops| == ttl - 1
    requires TrailingSilent(res.hops) == silent <= MAX_SILENT && !res.reached && !res.failed
    requires (after, out) == RunFrom(env, ttlSet, s, ttl, silent, res)
    ensures RunIs(env, ttlSet, s, ttl, res.hops, after, out, story)
    decreases MAX_HOPS + 1 - ttl
  {
    if ttl <= MAX_HOPS && silent < MAX_SILENT && ttlSet(ttl) {
      var (s', r) := RunHop(env, s, ttl, 0);
      var res' := WithHop(res, s', ttl, r);
      OneHopTold(env, ttlSet, s, ttl, silent, res);
      var later := Story([|s'.log|], []);
      if Passes(r) {
        later := RunTold(env, ttlSet, s', ttl + 1, if r.Silent? then silent + 1 else 0, res', after, out);
      }
      story := StoryOneMore(env, ttlSet, s, s', after, ttl, r, res, out, later);
    } else {
      NoHopTold(env, ttlSet, s, ttl, silent, res, after, out);
      story := Story([|s.log|], []);
    }
  }

  lemma StoryOneMore(env: Env, ttlSet: nat -> bool, s: State, s': State, after: State, ttl: nat, r: HopResult,
                     res: Result, out: Result, later: Story)
    returns (story: Story)
    requires s.log <= s'.log && MtuAt(s', |s.log|) == s.mtu
    requires HopIs(env, s', |s.log|, |s'.log|, ttl, r)
    requires if Passes(r)
             then RunIs(env, ttlSet, s', ttl + 1, res.hops + [HopOf(ttl, r)], after, out, later)
             else after == s' && out.hops == res.hops + [HopOf(ttl, r)] && EndIs(ttlSet, out, [r])
                  && later == Story([|s'.log|], [])
    ensures RunIs(env, ttlSet, s, ttl, res.hops, after, out, story)
  {
    assert out.hops[..|res.hops|] == res.hops;
    if Passes(r) {
      EndOneMore(ttlSet, out, r, later.results);
    } else {
      assert out.hops[|res.hops| + 1..] == [];
    }
    JoinStory(env, s, s', after, ttl, r, res, out, later);
    story := Story([|s.log|] + later.starts, [r] + later.results);
    assert later.results == [] ==> story.results == [r];
  }

  lemma JoinStory(env: Env, s: State, s': State, after: State, ttl: nat, r: HopResult, res: Result, out: Result,
                  later: Story)
    requires s.log <= s'.log <= after.log && MtuAt(s', |s.log|) == s.mtu && MtuAt(after, |s'.log|) == s'.mtu
    requires HopIs(env, s', |s.log|, |s'.log|, ttl, r)
    requires res.hops + [HopOf(ttl, r)] <= out.hops
    requires Tells(env, after, |s'.log|, ttl + 1, out.hops[|res.hops| + 1..], later)
    requires |out.hops| > |res.hops| + 1 ==> Passes(r)
    ensures MtuAt(after, |s.log|) == s.mtu
    ensures Tells(env, after, |s.log|, ttl, out.hops[|res.hops|..], Story([|s.log|] + later.starts, [r] + later.results))
  {
    HopIsLater(env, s', after, |s.log|, |s'.log|, ttl, r);
    var rest := out.hops[|res.hops| + 1..];
    assert out.hops[|res.hops|..] == [HopOf(ttl, r)] + rest;
    TellsOneMore(env, after, |s.log|, |s'.log|, ttl, r, rest, later);
  }

  /**
   Every trace, told by what was queued: the attempts fall into one stretch per
   hop, each stretch ends with the attempt that decided its hop or the second
   one of no use, and the last hop says how the trace ended.
   */
  lemma TraceIsTold(env: Env, ttlSet: nat -> bool, mtu: int) returns (story: Story)
    ensures var (s, res) := Trace(env, ttlSet, mtu);
            && MtuAt(s, 0) == mtu
            && Tells(env, s, 0, 1, res.hops, story)
            && EndIs(ttlSet, res, story.results)
  {
    var (s, res) := Trace(env, ttlSet, mtu);
    story := RunTold(env, ttlSet, State(mtu, 0, []), 1, 0, NOTHING, s, res);
    assert res.hops[0..] == res.hops;
  }

  /** e answered the last attempt of all. */
  ghost predicate AnsweredLast(env: Env, log: seq<Probe>, e: Entry) {
    log != [] && log[|log| - 1].seqno < WORD && AnsweredBy(env(|log| - 1), log[|log| - 1].seqno, e)
  }

  /** The last attempt of all is the last hop's. */
  lemma LastHop(env: Env, s: State, hops: seq<TraceHop>, story: Story)
    requires Tells(env, s, 0, 1, hops, story)
    ensures hops == [] <==> s.log == []
    ensures hops != [] ==>
              HopIs(env, s, story.starts[|hops| - 1], |s.log|, |hops|, story.results[|hops| - 1])
  {
    if hops != [] {
      assert HopIs(env, s, story.starts[|hops| - 1], story.starts[|hops|], |hops|, story.results[|hops| - 1]);
    }
  }

  /** How the end told of a trace shows in its last attempt. */
  lemma EndShows(env: Env, ttlSet: nat -> bool, s: State, res: Result, story: Story)
    requires Tells(env, s, 0, 1, res.hops, story) && EndIs(ttlSet, res, story.results)
    ensures res.reached <==> exists e :: AnsweredLast(env, s.log, e) && FromDestination(e)
    ensures !res.failed && !res.reached && |res.hops| < 30 && TrailingSilent(res.hops) < 5 ==>
              exists e :: AnsweredLast(env, s.log, e) && EndsPath(e)
    ensures res.failed <==>
            || (s.log != [] && s.log[|s.log| - 1].seqno < WORD
                && BrokeOff(env(|s.log| - 1), s.log[|s.log| - 1].seqno))
            || (|res.hops| < 30 && TrailingSilent(res.hops) < 5 && !ttlSet(|res.hops| + 1)
                && !exists e :: AnsweredLast(env, s.log, e) && IsICMP(e, 3))
  {
    LastHop(env, s, res.hops, story);
    if s.log != [] {
      LastExcludes(env, s);
    }
  }

  /** The destination was reached if and only if it answered the last attempt with a port unreachable. */
  lemma ReachedIff(env: Env, ttlSet: nat -> bool, mtu: int)
    ensures var (s, res) := Trace(env, ttlSet, mtu);
            res.reached <==>
            exists e :: AnsweredLast(env, s.log, e)
                        && e.err.errno != 90 && e.err.origin == 2 && e.err.icmpType == 3 && e.err.icmpCode == 3
  {
    var (s, res) := Trace(env, ttlSet, mtu);
    var story := TraceIsTold(env, ttlSet, mtu);
    EndShows(env, ttlSet, s, res, story);
    ReachedForm(env, s.log);
  }

  lemma ReachedForm(env: Env, log: seq<Probe>)
    ensures (exists e :: AnsweredLast(env, log, e) && FromDestination(e)) <==>
            exists e :: AnsweredLast(env, log, e)
                        && e.err.errno != 90 && e.err.origin == 2 && e.err.icmpType == 3 && e.err.icmpCode == 3
  {
  }

  /**
   An error-free trace that does not reach the destination, make 30 hops or end
   in five silent ones ends where the path does: at an answer that some other
   thing is unreachable.
   */
  lemma EndsWherePathDoes(env: Env, ttlSet: nat -> bool, mtu: int)
    requires var res := Trace(env, ttlSet, mtu).1;
             !res.failed && !res.reached && |res.hops| < 30 && TrailingSilent(res.hops) < 5
    ensures exists e :: AnsweredLast(env, Trace(env, ttlSet, mtu).0.log, e) && EndsPath(e)
  {
    var (s, res) := Trace(env, ttlSet, mtu);
    var story := TraceIsTold(env, ttlSet, mtu);
    EndShows(env, ttlSet, s, res, story);
  }

  /** A trace fails if and only if a call failed: the last attempt's, or that of setting the next TTL. */
  lemma FailedIff(env: Env, ttlSet: nat -> bool, mtu: int)
    ensures var (s, res) := Trace(env, ttlSet, mtu);
            res.failed <==>
            || (s.log != [] && s.log[|s.log| - 1].seqno < WORD
                && BrokeOff(env(|s.log| - 1), s.log[|s.log| - 1].seqno))
            || (|res.hops| < 30 && TrailingSilent(res.hops) < 5 && !ttlSet(|res.hops| + 1)
                && !exists e :: AnsweredLast(env, s.log, e) && IsICMP(e, 3))
  {
    var (s, res) := Trace(env, ttlSet, mtu);
    var story := TraceIsTold(env, ttlSet, mtu);
    EndShows(env, ttlSet, s, res, story);
  }

  /** An attempt that broke off was not answered, and no answer but one. */
  lemma LastExcludes(env: Env, s: State)
    requires s.log != [] && s.log[|s.log| - 1].seqno < WORD
    ensures var a, seqno := env(|s.log| - 1), s.log[|s.log| - 1].seqno;
            && (forall e :: AnsweredBy(a, seqno, e) && !IsTooBig(e) ==>
                  !BrokeOff(a, seqno) && !Unanswered(a, seqno)
                  && (forall m: nat :: !Advises(a, seqno, m))
                  && forall e' :: AnsweredBy(a, seqno, e') ==> e' == e)
            && (BrokeOff(a, seqno) ==> !Unanswered(a, seqno) && forall m: nat :: !Advises(a, seqno, m))
  {
    var a, seqno := env(|s.log| - 1), s.log[|s.log| - 1].seqno;
    forall e | AnsweredBy(a, seqno, e) && !IsTooBig(e)
      ensures !BrokeOff(a, seqno) && !Unanswered(a, seqno)
      ensures forall m: nat :: !Advises(a, seqno, m)
      ensures forall e' :: AnsweredBy(a, seqno, e') ==> e' == e
    {
      OutcomesExclude(a, seqno, e);
    }
    if BrokeOff(a, seqno) {
      forall e
        ensures !AnsweredBy(a, seqno, e)
      {
        AwaitIff(a.turns, seqno, e);
      }
      AwaitIff(a.turns, seqno, Entry(RecvErr(0, 0, 0, 0, 0, NoAddr), []));
    }
  }

  lemma RouterAnswered(env: Env, s: State, hops: seq<TraceHop>, story: Story, n: nat) returns (i: nat, e: Entry)
    requires Tells(env, s, 0, 1, hops, story) && n < |hops| - 1 && hops[n].ip.Some?
    ensures i < |s.log| && s.log[i].ttl == n + 1 && s.log[i].seqno < WORD
    ensures AnsweredBy(env(i), s.log[i].seqno, e) && FromRouter(e) && hops[n].ip == Some(e.err.offender)
  {
    var r := story.results[n];
    assert HopIs(env, s, story.starts[n], story.starts[n + 1], n + 1, r);
    assert hops[n] == HopOf(n + 1, r) && r.Replied? && r.kind == Hop;
    i := story.starts[n + 1] - 1;
    e :| AnsweredBy(env(i), s.log[i].seqno, e) && KindIs(e, Hop) && e.err.offender == r.addr;
  }

  /** Every hop before the last that has an address was answered by a router whose TTL ran out. */
  lemma EarlierHopsAreRouters(env: Env, ttlSet: nat -> bool, mtu: int, n: nat) returns (i: nat, e: Entry)
    requires n < |Trace(env, ttlSet, mtu).1.hops| - 1 && Trace(env, ttlSet, mtu).1.hops[n].ip.Some?
    ensures var (s, res) := Trace(env, ttlSet, mtu);
            && i < |s.log| && s.log[i].ttl == n + 1 && s.log[i].seqno < WORD
            && AnsweredBy(env(i), s.log[i].seqno, e)
            && e.err.errno != 90 && e.err.origin == 2 && e.err.icmpType == 11
            && res.hops[n].ip == Some(e.err.offender)
  {
    var (s, res) := Trace(env, ttlSet, mtu);
    var story := TraceIsTold(env, ttlSet, mtu);
    i, e := RouterAnswered(env, s, res.hops, story, n);
  }
}
