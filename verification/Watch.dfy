/** The watch loop of the agent, one pass of its body at a time, and the proof that whatever it does
    is a run of the transition system, so that every theorem about runs holds of it. */
module Watch {
  import opened Prelude
  import opened Directives
  import opened ReportingLoop
  import opened ReportingRuns
  import opened ReportingTheorems
  import opened AgentObject
  import opened DirectiveHandler

  /** Everything one pass meets: the event that wakes it, what taking and processing a snapshot
      would give, whether dialling would work, and what the other goroutines do in the gaps. */
  datatype Pass = Pass(event: Event, identity: Option<Identity>, sanitized: Option<Bytes>, marshalled: Option<Bytes>,
                       dialOk: bool, gaps: seq<seq<Label>>)
  {
    function Gap(k: nat): seq<Label> {
      if k < |gaps| then gaps[k] else []
    }
  }

  /** `longer` continues `trace` within pass `p`: no new event, and the pass's own inputs. */
  ghost predicate Within(p: Pass, trace: seq<Label>, longer: seq<Label>) {
    && trace <= longer
    && forall k :: |trace| <= k < |longer| ==>
         && !longer[k].Wake?
         && (longer[k].Process? ==> longer[k].outcome == OutcomeOf(p.identity, p.sanitized, p.marshalled))
         && (longer[k].EnsureComm? ==> longer[k].dialOk == p.dialOk)
  }

  /** Exactly one event starts the pass. */
  ghost predicate OnePass(p: Pass, trace: seq<Label>, longer: seq<Label>) {
    Within(p, trace + [Wake(p.event)], longer)
  }

  /** The event of the pass. Only a non-nil channel delivers a directive. */
  method HandleEvent<E>(a: Agent, dh: BasicDirectiveHandler<E>, ghost s0: State, ghost trace: seq<Label>, event: Event)
    requires a.pc.Select? && Reached(s0, trace, a.View()) && dh.factories == a.factories
    requires event.DirectiveArrived? ==> a.newDirective.Some?
    modifies a, dh
    ensures Reached(s0, trace + [Wake(event)], a.View())
    ensures a.pc.Gate? || a.pc.Returned? || a.pc.Crashed?
    ensures event.DirectiveArrived? && event.directive.Some? && !a.pc.Crashed? ==>
              dh.reported == old(dh.reported) +
                RunAll(dh.run, dh.factories, old(dh.env), event.directive.value.commands).1
    ensures !event.DirectiveArrived? ==> dh.env == old(dh.env) && dh.reported == old(dh.reported)
  {
    ReachedInv(s0, trace, a.View());
    ExecSnoc(s0, trace, Wake(event));
    match event
    case Cancelled => a.pc := Returned;
    case Tick => a.pc := Gate;
    case ConfigChanged(view) =>
      a.HandleAPIKeyConfigChange(view);
      a.pc := Gate;
    case DirectiveArrived(directive) => TakeDirective(a, dh, directive);
  }

  method TakeDirective<E>(a: Agent, dh: BasicDirectiveHandler<E>, directive: Option<Directive>)
    requires a.pc.Select? && dh.factories == a.factories
    modifies a, dh
    ensures a.View() == Woken(old(a.View()), DirectiveArrived(directive))
    ensures directive.Some? && !a.pc.Crashed? ==>
              dh.reported == old(dh.reported) + RunAll(dh.run, dh.factories, old(dh.env), directive.value.commands).1
  {
    var crashed := dh.HandleDirective(a, directive);
    if !crashed {
      a.pc := Gate;
    }
  }

  /** Takes and processes a snapshot, unless reporting is stopped or a sender is busy. */
  method TakeSnapshot(a: Agent, ghost s0: State, ghost trace: seq<Label>, p: Pass) returns (ghost longer: seq<Label>)
    requires a.pc.Gate? && Exec(s0, trace) == Some(a.View())
    modifies a
    ensures Exec(s0, longer) == Some(a.View()) && Within(p, trace, longer)
    ensures a.pc.KeyCheck? || a.pc.Crashed?
  {
    var wanted := !a.reportingStopped && !a.reportRunning;
    ExecSnoc(s0, trace, ReadGate);
    longer := trace + [ReadGate];
    a.pc := if wanted then Processing else KeyCheck;
    longer := a.Interfere(s0, longer, p.Gap(1));
    if wanted && !a.pc.Crashed? {
      longer := StoreSnapshot(a, s0, longer, p);
    }
  }

  method StoreSnapshot(a: Agent, ghost s0: State, ghost trace: seq<Label>, p: Pass) returns (ghost longer: seq<Label>)
    requires a.pc.Processing? && Exec(s0, trace) == Some(a.View())
    modifies a
    ensures Exec(s0, longer) == Some(a.View()) && Within(p, trace, longer)
    ensures a.pc.KeyCheck?
  {
    ghost var outcome := OutcomeOf(p.identity, p.sanitized, p.marshalled);
    ExecSnoc(s0, trace, Process(outcome));
    longer := trace + [Process(outcome)];
    FinishProcessing(a, p);
  }

  method FinishProcessing(a: Agent, p: Pass)
    requires a.pc.Processing?
    modifies a`agentID, a`currentSnapshot, a`produced, a`reportToSend, a`pc
    ensures a.View() == Processed(old(a.View()), OutcomeOf(p.identity, p.sanitized, p.marshalled)).(pc := KeyCheck)
  {
    var _ := a.ProcessSnapshot(p.identity, p.sanitized, p.marshalled);
    a.pc := KeyCheck;
  }

  /** Makes sure there is a key; without one the pass is over. */
  method RequireKey(a: Agent, ghost s0: State, ghost trace: seq<Label>, p: Pass) returns (ghost longer: seq<Label>)
    requires a.pc.KeyCheck? && Exec(s0, trace) == Some(a.View())
    modifies a`pc
    ensures Exec(s0, longer) == Some(a.View()) && Within(p, trace, longer)
    ensures a.pc.Select? || a.pc.Dialling?
  {
    ExecSnoc(s0, trace, CheckKey);
    longer := trace + [CheckKey];
    a.pc := if a.ambassadorAPIKey == "" then Select else Dialling;
  }

  /** Makes sure there is a comm; without one the pass is over. */
  method RequireComm(a: Agent, ghost s0: State, ghost trace: seq<Label>, p: Pass) returns (ghost longer: seq<Label>)
    requires a.pc.Dialling? && Exec(s0, trace) == Some(a.View())
    modifies a
    ensures Exec(s0, longer) == Some(a.View()) && Within(p, trace, longer)
    ensures a.pc.Select? || a.pc.SendGate?
  {
    ExecSnoc(s0, trace, EnsureComm(p.dialOk));
    longer := trace + [EnsureComm(p.dialOk)];
    var _ := a.EnsureComm(p.dialOk);
  }

  /** Launches a sender, unless stopped, busy, or with nothing to send. */
  method MaybeSend(a: Agent, ghost s0: State, ghost trace: seq<Label>, p: Pass) returns (ghost longer: seq<Label>)
    requires a.pc.SendGate? && Exec(s0, trace) == Some(a.View())
    modifies a
    ensures Exec(s0, longer) == Some(a.View()) && Within(p, trace, longer)
    ensures a.pc.Select? || a.pc.Crashed?
  {
    ExecSnoc(s0, trace, ReadSendGate);
    longer := trace + [ReadSendGate];
    if !a.reportingStopped && !a.reportRunning && a.reportToSend.Some? {
      a.pc := Storing;
      ghost var before := longer;
      longer := Send(a, s0, before, p);
      WithinTransitive(p, trace, before, longer);
    } else {
      a.pc := Select;
    }
  }

  method Send(a: Agent, ghost s0: State, ghost trace: seq<Label>, p: Pass) returns (ghost longer: seq<Label>)
    requires a.pc.Storing? && Exec(s0, trace) == Some(a.View())
    modifies a
    ensures Exec(s0, longer) == Some(a.View()) && Grows(trace, longer)
    ensures a.pc.Select? || a.pc.Crashed?
  {
    longer := a.Interfere(s0, trace, p.Gap(5));
    if !a.pc.Crashed? {
      ghost var before := longer;
      longer := a.ReportSnapshot(s0, before, p.Gap(6), p.Gap(7));
      GrowsTransitive(trace, before, longer);
    }
  }

  lemma WithinTransitive(p: Pass, a: seq<Label>, b: seq<Label>, c: seq<Label>)
    requires Within(p, a, b) && (Within(p, b, c) || Grows(b, c))
    ensures Within(p, a, c)
  {
    forall k | |a| <= k < |c|
      ensures k < |b| ==> c[k] == b[k]
    {}
  }

  /** One pass of the loop body is a run of the transition system that starts with the event of the
      pass, uses the inputs of the pass, and ends at the loop head unless the agent is gone. */
  method WatchPass<E>(a: Agent, dh: BasicDirectiveHandler<E>, ghost s0: State, ghost trace: seq<Label>, p: Pass)
    returns (ghost longer: seq<Label>)
    requires a.pc.Select? && Reached(s0, trace, a.View()) && dh.factories == a.factories
    requires p.event.DirectiveArrived? ==> a.newDirective.Some?
    modifies a, dh
    ensures Reached(s0, longer, a.View()) && OnePass(p, trace, longer)
    ensures a.pc.Select? || a.pc.Returned? || a.pc.Crashed?
  {
    HandleEvent(a, dh, s0, trace, p.event);
    ghost var woken := trace + [Wake(p.event)];
    longer := a.Interfere(s0, woken, p.Gap(0));
    if a.pc.Gate? {
      longer := AfterEvent(a, s0, woken, longer, p);
    }
  }

  /** The rest of the pass after its event. */
  method AfterEvent(a: Agent, ghost s0: State, ghost woken: seq<Label>, ghost trace: seq<Label>, p: Pass)
    returns (ghost longer: seq<Label>)
    requires a.pc.Gate? && Exec(s0, trace) == Some(a.View()) && Within(p, woken, trace)
    modifies a
    ensures Exec(s0, longer) == Some(a.View()) && Within(p, woken, longer)
    ensures a.pc.Select? || a.pc.Crashed?
  {
    longer := TakeSnapshot(a, s0, trace, p);
    WithinTransitive(p, woken, trace, longer);
    if !a.pc.Crashed? {
      ghost var before := longer;
      longer := a.Interfere(s0, longer, p.Gap(2));
      WithinTransitive(p, woken, before, longer);
    }
    if !a.pc.Crashed? {
      ghost var before := longer;
      longer := RequireKey(a, s0, longer, p);
      WithinTransitive(p, woken, before, longer);
      before := longer;
      longer := a.Interfere(s0, longer, p.Gap(3));
      WithinTransitive(p, woken, before, longer);
    }
    if a.pc.Dialling? {
      ghost var before := longer;
      longer := RequireComm(a, s0, longer, p);
      WithinTransitive(p, woken, before, longer);
    }
    if a.pc.SendGate? {
      ghost var before := longer;
      longer := a.Interfere(s0, longer, p.Gap(4));
      WithinTransitive(p, woken, before, longer);
    }
    if a.pc.SendGate? {
      ghost var before := longer;
      longer := MaybeSend(a, s0, longer, p);
      WithinTransitive(p, woken, before, longer);
    }
  }

  /** The events a run handled, in order. */
  ghost function Wakes(trace: seq<Label>): seq<Event>
    decreases |trace|
  {
    if trace == [] then []
    else
      var n := |trace| - 1;
      Wakes(trace[..n]) + if trace[n].Wake? then [trace[n].event] else []
  }

  lemma {:induction false} WakesWithin(p: Pass, trace: seq<Label>, longer: seq<Label>)
    requires Within(p, trace, longer)
    ensures Wakes(longer) == Wakes(trace)
    decreases |longer|
  {
    if |trace| == |longer| {
      assert trace == longer;
    } else {
      WakesWithin(p, trace, longer[..|longer| - 1]);
    }
  }

  lemma WakesOnePass(p: Pass, trace: seq<Label>, longer: seq<Label>)
    requires OnePass(p, trace, longer)
    ensures Wakes(longer) == Wakes(trace) + [p.event]
  {
    var woken := trace + [Wake(p.event)];
    assert woken[..|trace|] == trace;
    WakesWithin(p, woken, longer);
  }

  /** A directive only comes once a comm has been dialled: until then its channel is nil. */
  predicate Offered(p: Pass, s: State) {
    p.event.DirectiveArrived? ==> s.connections != []
  }

  /** The run takes the passes in turn, pass `k` leading from `traces[k]` to `traces[k + 1]`: it goes all
      the way through each one, except that a directive on a nil channel is not there to be taken. */
  ghost predicate Walked(s0: State, passes: seq<Pass>, traces: seq<seq<Label>>) {
    && |traces| == |passes| + 1 && traces[0] == []
    && forall k :: 0 <= k < |passes| ==> WalkedOne(s0, passes[k], traces[k], traces[k + 1])
  }

  ghost predicate WalkedOne(s0: State, p: Pass, before: seq<Label>, after: seq<Label>) {
    && Exec(s0, before).Some? && Exec(s0, before).value.pc.Select?
    && if Offered(p, Exec(s0, before).value) then OnePass(p, before, after) else after == before
  }

  lemma WalkedSnoc(s0: State, passes: seq<Pass>, traces: seq<seq<Label>>, p: Pass, longer: seq<Label>)
    requires Walked(s0, passes, traces) && WalkedOne(s0, p, traces[|passes|], longer)
    ensures Walked(s0, passes + [p], traces + [longer])
  {}

  /** A pass at the loop head, if its event is there to be taken. */
  method TakePass<E>(a: Agent, dh: BasicDirectiveHandler<E>, ghost s0: State, ghost trace: seq<Label>, p: Pass)
    returns (took: bool, ghost longer: seq<Label>)
    requires a.pc.Select? && Reached(s0, trace, a.View()) && dh.factories == a.factories
    modifies a, dh
    ensures Reached(s0, longer, a.View()) && WalkedOne(s0, p, trace, longer)
    ensures a.pc.Select? || a.pc.Returned? || a.pc.Crashed?
    ensures Wakes(longer) == Wakes(trace) + if took then [p.event] else []
    ensures !took ==> p.event.DirectiveArrived?
  {
    ReachedInv(s0, trace, a.View());
    took := p.event.DirectiveArrived? ==> a.newDirective.Some?;
    longer := trace;
    if took {
      longer := WatchPass(a, dh, s0, trace, p);
      WakesOnePass(p, trace, longer);
    }
  }

  /** The loop: passes until the context is cancelled. `taken` are the events it handled, in order:
      all those offered while it ran, except directives offered by a channel that is still nil. Whatever
      the passes meet, the agent ends in a state that a run through them reaches, so the invariant of all
      runs holds of the object; and it stops before they do only if it has returned or crashed. */
  method WatchLoop<E>(a: Agent, dh: BasicDirectiveHandler<E>, passes: seq<Pass>)
    returns (taken: seq<Event>, ghost traces: seq<seq<Label>>, ghost trace: seq<Label>)
    requires Init(a.View()) && dh.factories == a.factories
    modifies a, dh
    ensures Reached(old(a.View()), trace, a.View()) && Inv(a.View())
    ensures Wakes(trace) == taken
    ensures 0 < |traces| <= |passes| + 1 && trace == traces[|traces| - 1]
    ensures Walked(old(a.View()), passes[..|traces| - 1], traces)
    ensures |traces| <= |passes| ==> a.pc.Returned? || a.pc.Crashed?
    ensures a.pc.Select? ==> Undirected(taken) == Undirected(Events(passes))
  {
    ghost var s0 := a.View();
    trace, taken, traces := [], [], [[]];
    var k := 0;
    while k < |passes| && a.pc.Select?
      invariant 0 <= k <= |passes| && |traces| == k + 1 && trace == traces[k]
      invariant dh.factories == a.factories
      invariant a.pc.Select? || a.pc.Returned? || a.pc.Crashed?
      invariant s0 == old(a.View()) && Reached(s0, trace, a.View())
      invariant Told(s0, passes[..k], traces, taken)
    {
      var took;
      took, trace := TakePass(a, dh, s0, trace, passes[k]);
      ToldSnoc(s0, passes, k, traces, taken, took, trace);
      traces := traces + [trace];
      taken := taken + if took then [passes[k].event] else [];
      k := k + 1;
    }
    assert passes[..|passes|] == passes;
    ReachedInv(s0, trace, a.View());
  }

  /** The run through the passes, and the events it handled. */
  ghost predicate Told(s0: State, passes: seq<Pass>, traces: seq<seq<Label>>, taken: seq<Event>) {
    && Walked(s0, passes, traces)
    && Wakes(traces[|passes|]) == taken
    && Undirected(taken) == Undirected(Events(passes))
  }

  lemma ToldSnoc(s0: State, passes: seq<Pass>, k: nat, traces: seq<seq<Label>>, taken: seq<Event>, took: bool,
                 longer: seq<Label>)
    requires k < |passes| && Told(s0, passes[..k], traces, taken) && WalkedOne(s0, passes[k], traces[k], longer)
    requires Wakes(longer) == Wakes(traces[k]) + if took then [passes[k].event] else []
    requires !took ==> passes[k].event.DirectiveArrived?
    ensures Told(s0, passes[..k + 1], traces + [longer], taken + if took then [passes[k].event] else [])
  {
    WalkedSnoc(s0, passes[..k], traces, passes[k], longer);
    assert passes[..k] + [passes[k]] == passes[..k + 1];
    UndirectedSnoc(taken, passes, k, took);
  }

  lemma UndirectedSnoc(taken: seq<Event>, passes: seq<Pass>, k: nat, took: bool)
    requires k < |passes| && (!took ==> passes[k].event.DirectiveArrived?)
    requires Undirected(taken) == Undirected(Events(passes[..k]))
    ensures Undirected(taken + if took then [passes[k].event] else []) == Undirected(Events(passes[..k + 1]))
  {
    var event := passes[k].event;
    assert Events(passes[..k + 1]) == Events(passes[..k]) + [event];
    UndirectedOne(Events(passes[..k]), event);
    UndirectedOne(taken, event);
    assert taken + [] == taken;
  }

  lemma UndirectedOne(events: seq<Event>, e: Event)
    ensures Undirected(events + [e]) == if e.DirectiveArrived? then Undirected(events) else Undirected(events) + [e]
  {
    assert (events + [e])[..|events|] == events;
    assert Undirected(events) + [] == Undirected(events);
  }

  function Events(passes: seq<Pass>): seq<Event> {
    seq(|passes|, i requires 0 <= i < |passes| => passes[i].event)
  }

  /** Without the directives. */
  function Undirected(events: seq<Event>): seq<Event>
    decreases |events|
  {
    if events == [] then []
    else
      var n := |events| - 1;
      Undirected(events[..n]) + if events[n].DirectiveArrived? then [] else [events[n]]
  }
}
