/**
 The resolver loop of one host: every successful lookup starts measuring the
 new addresses and stops measuring the vanished ones.
 */
module Resolver {
  import opened Prelude
  import opened Aggregator
  import opened AggregatorHistory

  const PORT: nat := 443

  datatype Change = Added | Removed

  datatype Event = Event(ip: string, change: Change)

  /**
   One turn of the loop. order is the order in which the running addresses
   happen to be visited for removal: the program ranges over a map.
   */
  datatype Lookup = Resolved(ips: seq<string>, order: seq<string>) | LookupFailed

  function TargetOf(host: string, ip: string): Target { Target(host, ip, PORT) }

  function Elements(s: seq<string>): set<string> { set x | x in s }

  // ----- one lookup

  /** The addresses of ips that are not running yet, without repetition. */
  function NewIPs(running: set<string>, ips: seq<string>): (unseen: seq<string>)
    ensures forall x :: x in unseen <==> x in ips && x !in running
  {
    if ips == [] then []
    else
      var rest, last := NewIPs(running, ips[..|ips| - 1]), ips[|ips| - 1];
      if last in running || last in rest then rest else rest + [last]
  }

  /** The addresses of order that are not wanted any more. */
  function Gone(order: seq<string>, want: set<string>): (gone: seq<string>)
    ensures forall x :: x in gone <==> x in order && x !in want
  {
    if order == [] then []
    else
      Gone(order[..|order| - 1], want) + if order[|order| - 1] in want then [] else [order[|order| - 1]]
  }

  function Registers(host: string, ips: seq<string>): seq<Op> {
    if ips == [] then []
    else Registers(host, ips[..|ips| - 1]) + [Register(TargetOf(host, ips[|ips| - 1]), TARGET_MODES)]
  }

  function Unregisters(host: string, ips: seq<string>): seq<Op> {
    if ips == [] then []
    else Unregisters(host, ips[..|ips| - 1]) + [Unregister(TargetOf(host, ips[|ips| - 1]))]
  }

  function Changes(ips: seq<string>, change: Change): seq<Event> {
    if ips == [] then []
    else Changes(ips[..|ips| - 1], change) + [Event(ips[|ips| - 1], change)]
  }

  lemma OneMoreElement(s: seq<string>, x: string)
    ensures Elements(s + [x]) == Elements(s) + {x}
    ensures Distinct(s) && x !in Elements(s) ==> Distinct(s + [x])
  {
    forall y
      ensures y in Elements(s + [x]) <==> y in Elements(s) || y == x
    {
      assert y in s + [x] <==> y in s || y == x;
    }
  }

  lemma OneLess(before: set<string>, want: set<string>, todo: set<string>, x: string)
    requires x in todo && todo <= before + want
    ensures before - (todo - {x}) == (before - todo) + (if x in before then {x} else {})
    ensures want + (todo - {x}) == (want + todo) - if x in want then {} else {x}
  {
  }

  lemma OneMoreNew(running: set<string>, ips: seq<string>, x: string)
    ensures var before := NewIPs(running, ips);
            NewIPs(running, ips + [x]) == if x in running + Elements(ips) then before else before + [x]
  {
    assert (ips + [x])[..|ips|] == ips;
    assert x in NewIPs(running, ips) <==> x in ips && x !in running;
  }

  lemma OneMoreGone(order: seq<string>, want: set<string>, x: string)
    ensures Gone(order + [x], want) == if x in want then Gone(order, want) else Gone(order, want) + [x]
  {
    assert (order + [x])[..|order|] == order;
  }

  lemma OneMoreChange(log: seq<Event>, ips: seq<string>, change: Change, x: string)
    ensures log + Changes(ips + [x], change) == log + Changes(ips, change) + [Event(x, change)]
  {
    assert (ips + [x])[..|ips|] == ips;
  }

  lemma OneMoreRegister(s: State, host: string, ips: seq<string>, x: string)
    ensures Steps(s, Registers(host, ips + [x]))
         == Step(Steps(s, Registers(host, ips)), Register(TargetOf(host, x), TARGET_MODES))
  {
    assert (ips + [x])[..|ips|] == ips;
    StepsOneMore(s, Registers(host, ips), Register(TargetOf(host, x), TARGET_MODES));
  }

  lemma OneMoreUnregister(s: State, host: string, ips: seq<string>, x: string)
    ensures Steps(s, Unregisters(host, ips + [x]))
         == Step(Steps(s, Unregisters(host, ips)), Unregister(TargetOf(host, x)))
  {
    assert (ips + [x])[..|ips|] == ips;
    StepsOneMore(s, Unregisters(host, ips), Unregister(TargetOf(host, x)));
  }

  /** What the loop has done so far: what runs, which events it wrote and what it asked of the aggregator. */
  datatype Progress = Progress(running: set<string>, events: seq<Event>, requests: seq<Op>)

  function Look(p: Progress, host: string, l: Lookup): Progress {
    match l
    case LookupFailed => p
    case Resolved(ips, order) =>
      var unseen, gone := NewIPs(p.running, ips), Gone(order, Elements(ips));
      Progress(p.running + Elements(unseen) - Elements(gone),
               p.events + Changes(unseen, Added) + Changes(gone, Removed),
               p.requests + Registers(host, unseen) + Unregisters(host, gone))
  }

  function Progressed(host: string, ls: seq<Lookup>): Progress {
    if ls == [] then Progress({}, [], []) else Look(Progressed(host, ls[..|ls| - 1]), host, ls[|ls| - 1])
  }

  function AnswerOf(l: Lookup): Option<seq<string>> {
    if l.Resolved? then Some(l.ips) else None
  }

  lemma LookAppends(p: Progress, host: string, l: Lookup)
    ensures Look(p, host, l).requests == p.requests + Look(Progress(p.running, p.events, []), host, l).requests
  {
    if l.Resolved? {
      var added, removed := Registers(host, NewIPs(p.running, l.ips)), Unregisters(host, Gone(l.order, Elements(l.ips)));
      assert p.requests + ([] + added + removed) == p.requests + added + removed;
    } else {
      assert p.requests + [] == p.requests;
    }
  }

  /** Adding the new addresses and taking away the unwanted ones leaves the resolved ones. */
  lemma GoneElements(order: seq<string>, before: set<string>, ips: seq<string>)
    requires Elements(order) == before
    ensures before + Elements(NewIPs(before, ips)) - Elements(Gone(order, Elements(ips))) == Elements(ips)
  {
    forall x
      ensures x in before + Elements(NewIPs(before, ips)) - Elements(Gone(order, Elements(ips))) <==> x in Elements(ips)
    {
      assert x in order <==> x in Elements(order);
      assert x in NewIPs(before, ips) <==> x in ips && x !in before;
      assert x in Gone(order, Elements(ips)) <==> x in order && x !in Elements(ips);
    }
  }

  class Measurements {
    const host: string
    const agg: Agg
    var running: set<string>
    var events: seq<Event>

    constructor (host: string, agg: Agg)
      ensures this.host == host && this.agg == agg && running == {} && events == []
    {
      this.host, this.agg := host, agg;
      running, events := {}, [];
    }

    method Apply(ips: seq<string>) returns (ghost order: seq<string>)
      requires Valid(agg.View())
      modifies this, agg
      ensures Distinct(order) && Elements(order) == old(running)
      ensures running == Elements(ips)
      ensures var p := Look(Progress(old(running), old(events), []), host, Resolved(ips, order));
              && running == p.running && events == p.events
              && agg.View() == Steps(old(agg.View()), p.requests)
      ensures Valid(agg.View())
    {
      ghost var before := running;
      AddNew(ips);
      order := Drop(Elements(ips), before);
      ghost var unseen, gone := NewIPs(before, ips), Gone(order, Elements(ips));
      StepsJoin(old(agg.View()), Registers(host, unseen), Unregisters(host, gone));
      assert [] + Registers(host, unseen) == Registers(host, unseen);
      GoneElements(order, before, ips);
    }

    /** The resolver's loop: an answer without addresses is a failed lookup. */
    method ResolveAll(answers: seq<Option<seq<string>>>) returns (ghost ls: seq<Lookup>)
      requires Valid(agg.View()) && running == {} && events == []
      modifies this, agg
      ensures Possible(ls) && |ls| == |answers| && forall i :: 0 <= i < |ls| ==> AnswerOf(ls[i]) == answers[i]
      ensures FollowedSince(old(agg.View()), ls)
    {
      ls := [];
      ghost var start := agg.View();
      for i := 0 to |answers|
        invariant Possible(ls) && |ls| == i && forall j :: 0 <= j < i ==> AnswerOf(ls[j]) == answers[j]
        invariant FollowedSince(start, ls)
      {
        ghost var order: seq<string>;
        order := ResolveOne(answers[i], start, ls);
        ls := ls + [if answers[i].Some? then Resolved(answers[i].value, order) else LookupFailed];
      }
    }

    /** What the object and the aggregator are after the lookups. */
    ghost predicate FollowedSince(start: State, ls: seq<Lookup>)
      reads this, agg
    {
      var p := Progressed(host, ls);
      && Valid(agg.View())
      && running == p.running && events == p.events
      && agg.View() == Steps(start, p.requests)
    }

    method ResolveOne(answer: Option<seq<string>>, ghost start: State, ghost ls: seq<Lookup>)
      returns (ghost order: seq<string>)
      requires Possible(ls) && FollowedSince(start, ls)
      modifies this, agg
      ensures var longer := ls + [if answer.Some? then Resolved(answer.value, order) else LookupFailed];
              Possible(longer) && FollowedSince(start, longer)
    {
      order := [];
      ghost var l := LookupFailed;
      if answer.Some? {
        ghost var p := Progressed(host, ls);
        order := Apply(answer.value);
        l := Resolved(answer.value, order);
        ghost var requests := Look(Progress(p.running, p.events, []), host, l).requests;
        StepsJoin(start, p.requests, requests);
        LookAppends(p, host, l);
      }
      assert (ls + [l])[..|ls|] == ls;
      RunningIsResolved(host, ls);
    }

    /** The state after ips were looked at for new addresses. */
    ghost predicate AddedSince(start: State, before: set<string>, log: seq<Event>, ips: seq<string>)
      reads this, agg
    {
      && Valid(agg.View())
      && running == before + Elements(ips)
      && events == log + Changes(NewIPs(before, ips), Added)
      && agg.View() == Steps(start, Registers(host, NewIPs(before, ips)))
    }

    method AddNew(ips: seq<string>)
      requires Valid(agg.View())
      modifies this, agg
      ensures AddedSince(old(agg.View()), old(running), old(events), ips)
    {
      ghost var start, before, log := agg.View(), running, events;
      for i := 0 to |ips|
        invariant AddedSince(start, before, log, ips[..i])
      {
        assert ips[..i + 1] == ips[..i] + [ips[i]];
        AddIfNew(ips[i], start, before, log, ips[..i]);
      }
      assert ips[..|ips|] == ips;
    }

    method AddIfNew(ip: string, ghost start: State, ghost before: set<string>, ghost log: seq<Event>,
                    ghost ips: seq<string>)
      requires AddedSince(start, before, log, ips)
      modifies this, agg
      ensures AddedSince(start, before, log, ips + [ip])
    {
      OneMoreElement(ips, ip);
      OneMoreNew(before, ips, ip);
      assert running + {ip} == before + Elements(ips + [ip]);
      if ip in running {
        assert running == running + {ip};
      } else {
        OneMoreRegister(start, host, NewIPs(before, ips), ip);
        OneMoreChange(log, NewIPs(before, ips), Added, ip);
        Add(ip);
      }
    }

    method Add(ip: string)
      requires Valid(agg.View())
      modifies this, agg
      ensures running == old(running) + {ip} && events == old(events) + [Event(ip, Added)]
      ensures agg.View() == Step(old(agg.View()), Register(TargetOf(host, ip), TARGET_MODES))
      ensures Valid(agg.View())
    {
      running := running + {ip};
      agg.RegisterModes(TargetOf(host, ip), TARGET_MODES);
      events := events + [Event(ip, Added)];
    }

    method Stop(ip: string)
      requires Valid(agg.View())
      modifies this, agg
      ensures running == old(running) - {ip} && events == old(events) + [Event(ip, Removed)]
      ensures agg.View() == Step(old(agg.View()), Unregister(TargetOf(host, ip)))
      ensures Valid(agg.View())
    {
      running := running - {ip};
      agg.Remove(TargetOf(host, ip));
      events := events + [Event(ip, Removed)];
    }

    /** The state once the running addresses order were looked at for removal. */
    ghost predicate DroppedSince(start: State, log: seq<Event>, want: set<string>, order: seq<string>)
      reads this, agg
    {
      && Valid(agg.View())
      && events == log + Changes(Gone(order, want), Removed)
      && agg.View() == Steps(start, Unregisters(host, Gone(order, want)))
    }

    /** Stops what is not wanted; before ran already when the lookup came in. */
    method Drop(want: set<string>, ghost before: set<string>) returns (ghost order: seq<string>)
      requires Valid(agg.View()) && running == before + want
      modifies this, agg
      ensures Distinct(order) && Elements(order) == before
      ensures running == want
      ensures DroppedSince(old(agg.View()), old(events), want, order)
    {
      ghost var start, log := agg.View(), events;
      var todo := running;
      order := [];
      while todo != {}
        invariant Distinct(order) && Elements(order) == before - todo
        invariant todo <= before + want && running == want + todo
        invariant DroppedSince(start, log, want, order)
        decreases todo
      {
        var ip :| ip in todo;
        OneLess(before, want, todo, ip);
        todo := todo - {ip};
        order := DropUnlessWanted(ip, start, log, want, before, order);
      }
    }

    /** Only addresses that ran before are noted in the order. */
    method DropUnlessWanted(ip: string, ghost start: State, ghost log: seq<Event>, want: set<string>,
                            ghost before: set<string>, ghost order: seq<string>)
      returns (ghost order': seq<string>)
      requires DroppedSince(start, log, want, order)
      requires Distinct(order) && ip !in Elements(order) && ip in before + want
      modifies this, agg
      ensures DroppedSince(start, log, want, order')
      ensures Distinct(order') && Elements(order') == Elements(order) + (if ip in before then {ip} else {})
      ensures running == old(running) - if ip in want then {} else {ip}
    {
      OneMoreElement(order, ip);
      OneMoreGone(order, want, ip);
      order' := if ip in before then order + [ip] else order;
      if ip !in want {
        OneMoreUnregister(start, host, Gone(order, want), ip);
        OneMoreChange(log, Gone(order, want), Removed, ip);
        Stop(ip);
      }
    }
  }

  // ----- whole runs

  /** The addresses of the last successful lookup. */
  function Running(ls: seq<Lookup>): set<string> {
    if ls == [] then {}
    else
      match ls[|ls| - 1]
      case Resolved(ips, _) => Elements(ips)
      case LookupFailed => Running(ls[..|ls| - 1])
  }

  ghost predicate Possible(ls: seq<Lookup>) {
    ls != [] ==>
      && Possible(ls[..|ls| - 1])
      && (ls[|ls| - 1].Resolved? ==>
          Distinct(ls[|ls| - 1].order) && Elements(ls[|ls| - 1].order) == Running(ls[..|ls| - 1]))
  }

  /** In every run the added and dropped addresses leave those of the last successful lookup running. */
  lemma {:induction false} RunningIsResolved(host: string, ls: seq<Lookup>)
    requires Possible(ls)
    ensures Progressed(host, ls).running == Running(ls)
  {
    if ls != [] {
      var init, l := ls[..|ls| - 1], ls[|ls| - 1];
      RunningIsResolved(host, init);
      if l.Resolved? {
        GoneElements(l.order, Running(init), l.ips);
      }
    }
  }

  /** The changes of one address among events. */
  function ChangesOf(events: seq<Event>, ip: string): seq<Change> {
    if events == [] then []
    else
      var e := events[|events| - 1];
      ChangesOf(events[..|events| - 1], ip) + if e.ip == ip then [e.change] else []
  }

  lemma {:induction false} ChangesOfJoin(a: seq<Event>, b: seq<Event>, ip: string)
    ensures ChangesOf(a + b, ip) == ChangesOf(a, ip) + ChangesOf(b, ip)
  {
    if b == [] {
      assert a + b == a;
    } else {
      ChangesOfJoin(a, b[..|b| - 1], ip);
      assert (a + b)[..|a + b| - 1] == a + b[..|b| - 1];
    }
  }

  lemma {:induction false} ChangesOfList(ips: seq<string>, change: Change, ip: string)
    requires Distinct(ips)
    ensures ChangesOf(Changes(ips, change), ip) == if ip in ips then [change] else []
  {
    if ips != [] {
      var init, last := ips[..|ips| - 1], ips[|ips| - 1];
      assert ips == init + [last];
      assert last !in init;
      ChangesOfList(init, change, ip);
      ChangesOfOneMore(Changes(init, change), Event(last, change), ip);
    }
  }

  lemma ChangesOfOneMore(events: seq<Event>, e: Event, ip: string)
    ensures ChangesOf(events + [e], ip) == ChangesOf(events, ip) + if e.ip == ip then [e.change] else []
  {
    assert (events + [e])[..|events|] == events;
  }

  lemma {:induction false} NewIPsDistinct(running: set<string>, ips: seq<string>)
    ensures Distinct(NewIPs(running, ips))
  {
    if ips != [] {
      NewIPsDistinct(running, ips[..|ips| - 1]);
    }
  }

  lemma {:induction false} GoneDistinct(order: seq<string>, want: set<string>)
    requires Distinct(order)
    ensures Distinct(Gone(order, want))
  {
    if order != [] {
      var init := order[..|order| - 1];
      GoneDistinct(init, want);
      assert order == init + [order[|order| - 1]];
    }
  }

  lemma LookupChanges(running: set<string>, ips: seq<string>, order: seq<string>, ip: string)
    requires Distinct(order) && Elements(order) == running
    ensures ChangesOf(Changes(NewIPs(running, ips), Added) + Changes(Gone(order, Elements(ips)), Removed), ip) ==
            if ip in ips && ip !in running then [Added]
            else if ip in running && ip !in ips then [Removed]
            else []
  {
    NewIPsDistinct(running, ips);
    GoneDistinct(order, Elements(ips));
    ChangesOfJoin(Changes(NewIPs(running, ips), Added), Changes(Gone(order, Elements(ips)), Removed), ip);
    ChangesOfList(NewIPs(running, ips), Added, ip);
    ChangesOfList(Gone(order, Elements(ips)), Removed, ip);
    assert ip in Elements(order) <==> ip in order;
  }

  /** Added first, then strictly in turns. */
  ghost predicate Alternates(cs: seq<Change>) {
    forall i :: 0 <= i < |cs| ==> cs[i] == if i % 2 == 0 then Added else Removed
  }

  lemma {:induction false} LookupOneMore(host: string, ls: seq<Lookup>, ip: string)
    requires Possible(ls) && ls != []
    ensures var init, last := ls[..|ls| - 1], ls[|ls| - 1];
            ChangesOf(Progressed(host, ls).events, ip) == ChangesOf(Progressed(host, init).events, ip) +
              if last.LookupFailed? || (ip in Running(init) <==> ip in last.ips) then []
              else if ip in last.ips then [Added] else [Removed]
  {
    var init := ls[..|ls| - 1];
    RunningIsResolved(host, init);
    match ls[|ls| - 1]
    case Resolved(ips, order) =>
      var added, removed := Changes(NewIPs(Running(init), ips), Added), Changes(Gone(order, Elements(ips)), Removed);
      assert Progressed(host, init).events + added + removed == Progressed(host, init).events + (added + removed);
      ChangesOfJoin(Progressed(host, init).events, added + removed, ip);
      LookupChanges(Running(init), ips, order, ip);
    case LookupFailed =>
  }

  /** One lookup's change at most keeps the turns and the parity. */
  lemma {:induction false} AlternatesOneMore(before: seq<Change>, was: bool, now: bool)
    requires Alternates(before) && (was <==> |before| % 2 == 1)
    ensures var after := before + if was == now then [] else if now then [Added] else [Removed];
            Alternates(after) && (now <==> |after| % 2 == 1)
  {
  }

  /** Every address's events alternate, and it runs just when the last one added it. */
  lemma {:induction false} EventsAlternate(host: string, ls: seq<Lookup>, ip: string)
    requires Possible(ls)
    ensures Alternates(ChangesOf(Progressed(host, ls).events, ip))
    ensures ip in Running(ls) <==> |ChangesOf(Progressed(host, ls).events, ip)| % 2 == 1
  {
    if ls != [] {
      var init := ls[..|ls| - 1];
      EventsAlternate(host, init, ip);
      LookupOneMore(host, ls, ip);
      RunningOneMore(ls, ip);
      AlternatesOneMore(ChangesOf(Progressed(host, init).events, ip), ip in Running(init), ip in Running(ls));
    }
  }

  lemma {:induction false} RunningOneMore(ls: seq<Lookup>, ip: string)
    requires ls != []
    ensures var init, last := ls[..|ls| - 1], ls[|ls| - 1];
            ip in Running(ls) <==> if last.Resolved? then ip in last.ips else ip in Running(init)
  {
  }

  // ----- the aggregator, shared with everything else

  /** The registrations and removals of host's targets in a history. */
  function Membership(h: History, host: string): seq<Op> {
    match h
    case Start => []
    case Then(past, op) =>
      if (op.Register? || op.Unregister?) && op.target.host == host && op.target.port == PORT
      then Membership(past, host) + [op] else Membership(past, host)
  }

  /** Whether the last of ops about t is a registration. */
  predicate LastRegisters(ops: seq<Op>, t: Target) {
    if ops == [] then false
    else
      match ops[|ops| - 1]
      case Register(u, _) => u == t || LastRegisters(ops[..|ops| - 1], t)
      case Unregister(u) => u != t && LastRegisters(ops[..|ops| - 1], t)
      case _ => LastRegisters(ops[..|ops| - 1], t)
  }

  lemma {:induction false} ActiveByMembership(h: History, host: string, ip: string)
    ensures Active(h, TargetOf(host, ip)) <==> LastRegisters(Membership(h, host), TargetOf(host, ip))
  {
    if h.Then? {
      ActiveByMembership(h.past, host, ip);
    }
  }

  lemma LastOneMore(ops: seq<Op>, op: Op, t: Target)
    ensures LastRegisters(ops + [op], t) <==>
            if op.Register? && op.target == t then true
            else LastRegisters(ops, t) && !(op.Unregister? && op.target == t)
  {
    assert (ops + [op])[..|ops|] == ops;
  }

  lemma {:induction false} AfterRegisters(ops: seq<Op>, host: string, ips: seq<string>, ip: string)
    ensures LastRegisters(ops + Registers(host, ips), TargetOf(host, ip)) <==>
            ip in ips || LastRegisters(ops, TargetOf(host, ip))
  {
    if ips == [] {
      assert ops + [] == ops;
    } else {
      var init := ips[..|ips| - 1];
      AfterRegisters(ops, host, init, ip);
      var op := Register(TargetOf(host, ips[|ips| - 1]), TARGET_MODES);
      assert ops + Registers(host, ips) == (ops + Registers(host, init)) + [op];
      LastOneMore(ops + Registers(host, init), op, TargetOf(host, ip));
      assert ips == init + [ips[|ips| - 1]];
    }
  }

  lemma {:induction false} AfterUnregisters(ops: seq<Op>, host: string, ips: seq<string>, ip: string)
    ensures LastRegisters(ops + Unregisters(host, ips), TargetOf(host, ip)) <==>
            ip !in ips && LastRegisters(ops, TargetOf(host, ip))
  {
    if ips == [] {
      assert ops + [] == ops;
    } else {
      var init := ips[..|ips| - 1];
      AfterUnregisters(ops, host, init, ip);
      var op := Unregister(TargetOf(host, ips[|ips| - 1]));
      assert ops + Unregisters(host, ips) == (ops + Unregisters(host, init)) + [op];
      LastOneMore(ops + Unregisters(host, init), op, TargetOf(host, ip));
      assert ips == init + [ips[|ips| - 1]];
    }
  }

  lemma {:induction false} RequestsFollowRunning(host: string, ls: seq<Lookup>, ip: string)
    requires Possible(ls)
    ensures LastRegisters(Progressed(host, ls).requests, TargetOf(host, ip)) <==> ip in Running(ls)
  {
    if ls != [] {
      var init := ls[..|ls| - 1];
      RequestsFollowRunning(host, init, ip);
      RunningIsResolved(host, init);
      match ls[|ls| - 1]
      case Resolved(ips, order) =>
        var before := Progressed(host, init).requests;
        var unseen, gone := NewIPs(Running(init), ips), Gone(order, Elements(ips));
        AfterRegisters(before, host, unseen, ip);
        AfterUnregisters(before + Registers(host, unseen), host, gone, ip);
        assert ip in order <==> ip in Elements(order);
      case LookupFailed =>
    }
  }

  /**
   Whatever else reaches the aggregator in between, flushes and other hosts
   included, after every lookup it collects exactly the running addresses:
   they are registered and not about to be forgotten.
   */
  lemma AggregatorFollowsResolver(h: History, host: string, ls: seq<Lookup>, ip: string)
    requires Possible(ls) && Membership(h, host) == Progressed(host, ls).requests
    ensures var s, t := Replay(h), TargetOf(host, ip);
            t in s.targets && t !in s.removed <==> ip in Running(ls)
  {
    ActiveByMembership(h, host, ip);
    RequestsFollowRunning(host, ls, ip);
    TargetAgrees(h, TargetOf(host, ip));
    ActiveIsLive(h, TargetOf(host, ip));
  }

  // ----- events and requests, side by side

  /** The request that goes with an event. */
  function RequestOf(host: string, e: Event): Op {
    var t := Target(host, e.ip, 443);
    if e.change == Added then Register(t, [Short, Long, Idle]) else Unregister(t)
  }

  ghost predicate Mirrors(host: string, events: seq<Event>, requests: seq<Op>) {
    |requests| == |events| && forall i :: 0 <= i < |events| ==> requests[i] == RequestOf(host, events[i])
  }

  lemma {:induction false} ChangesMirror(host: string, ips: seq<string>, change: Change)
    ensures Mirrors(host, Changes(ips, change), if change == Added then Registers(host, ips) else Unregisters(host, ips))
    ensures |Changes(ips, change)| == |ips|
    ensures forall i :: 0 <= i < |ips| ==> Changes(ips, change)[i] == Event(ips[i], change)
  {
    if ips != [] {
      ChangesMirror(host, ips[..|ips| - 1], change);
    }
  }

  lemma MirrorsJoin(host: string, a: seq<Event>, b: seq<Event>, x: seq<Op>, y: seq<Op>)
    requires Mirrors(host, a, x) && Mirrors(host, b, y)
    ensures Mirrors(host, a + b, x + y)
  {
  }

  /** In every run each event goes with one request about its address, in the same order. */
  lemma {:induction false} RequestsMirrorEvents(host: string, ls: seq<Lookup>)
    ensures Mirrors(host, Progressed(host, ls).events, Progressed(host, ls).requests)
  {
    if ls != [] {
      var before, l := Progressed(host, ls[..|ls| - 1]), ls[|ls| - 1];
      RequestsMirrorEvents(host, ls[..|ls| - 1]);
      if l.Resolved? {
        var unseen, gone := NewIPs(before.running, l.ips), Gone(l.order, Elements(l.ips));
        ChangesMirror(host, unseen, Added);
        ChangesMirror(host, gone, Removed);
        MirrorsJoin(host, before.events, Changes(unseen, Added), before.requests, Registers(host, unseen));
        MirrorsJoin(host, before.events + Changes(unseen, Added), Changes(gone, Removed),
                    before.requests + Registers(host, unseen), Unregisters(host, gone));
      }
    }
  }

  /** A lookup adds exactly the addresses that are new, then removes exactly those that are gone. */
  lemma {:induction false} LookupEvents(host: string, p: Progress, ips: seq<string>, order: seq<string>)
    returns (more: seq<Event>)
    requires Elements(order) == p.running
    ensures Look(p, host, Resolved(ips, order)).events == p.events + more
    ensures forall x :: Event(x, Added) in more <==> x in ips && x !in p.running
    ensures forall x :: Event(x, Removed) in more <==> x in p.running && x !in ips
    ensures forall i, j :: 0 <= i < j < |more| && more[i].change == Removed ==> more[j].change == Removed
  {
    var unseen, gone := NewIPs(p.running, ips), Gone(order, Elements(ips));
    more := Changes(unseen, Added) + Changes(gone, Removed);
    assert p.events + Changes(unseen, Added) + Changes(gone, Removed) == p.events + more;
    forall x
      ensures Event(x, Added) in more <==> x in ips && x !in p.running
      ensures Event(x, Removed) in more <==> x in p.running && x !in ips
    {
      ChangesHave(host, unseen, Added, x);
      ChangesHave(host, gone, Removed, x);
      assert x in order <==> x in Elements(order);
    }
    AddedFirst(host, unseen, gone);
  }

  lemma {:induction false} AddedFirst(host: string, unseen: seq<string>, gone: seq<string>)
    ensures var more := Changes(unseen, Added) + Changes(gone, Removed);
            forall i, j :: 0 <= i < j < |more| && more[i].change == Removed ==> more[j].change == Removed
  {
    ChangesMirror(host, unseen, Added);
    ChangesMirror(host, gone, Removed);
  }

  lemma {:induction false} ChangesHave(host: string, ips: seq<string>, change: Change, x: string)
    ensures Event(x, change) in Changes(ips, change) <==> x in ips
    ensures forall other :: Event(x, other) in Changes(ips, change) ==> other == change
  {
    ChangesMirror(host, ips, change);
    if x in ips {
      var i :| 0 <= i < |ips| && ips[i] == x;
      assert Changes(ips, change)[i] == Event(x, change);
    }
  }
}
