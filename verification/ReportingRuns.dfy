/** What every run of the reporting loop keeps, whatever the interleaving. */
module ReportingRuns {
  import opened Prelude
  import opened Directives
  import opened ReportingLoop

  // ----- The invariant, one concern at a time -----

  /** All senders but the last have cleared the flag; the last one has not exactly while the flag
      is set, except between setting the flag and launching. */
  predicate FlagInv(s: State) {
    && (forall i :: 0 <= i < |s.senders| - 1 ==> s.senders[i].phase.Finished?)
    && (s.pc.Spawning? ==> s.running)
    && (!s.pc.Crashed? && s.senders != [] ==>
          (s.senders[|s.senders| - 1].phase.Finished? <==> (!s.running || s.pc.Spawning?)))
    && (!s.pc.Crashed? && s.senders == [] ==> (s.running <==> s.pc.Spawning?))
    && (s.pc.Processing? || s.pc.Storing? ==> !s.running && !s.stopped)
    && (s.pc.Spawning? || s.pc.Forgetting? ==> !s.stopped && s.toSend.Some?)
    && (s.pc.Storing? ==> s.toSend.Some?)
    && (s.pc.Forgetting? ==> s.senders != [])
    && (s.running && !s.pc.Spawning? && !s.pc.Forgetting? && !s.pc.Crashed? ==> s.toSend.None?)
  }

  /** Senders carry reports in the order they were produced, each report at most once, and what is
      waiting to be sent is the newest report and not yet launched. */
  predicate ReportInv(s: State) {
    && (forall i :: 0 <= i < |s.senders| ==> s.senders[i].report.Some? && s.senders[i].report.value < |s.produced|)
    && (forall i, j :: 0 <= i < j < |s.senders| ==> s.senders[i].report.value < s.senders[j].report.value)
    && (s.toSend.Some? ==> s.toSend.value == |s.produced| - 1)
    && (s.toSend.Some? && !s.pc.Forgetting? && !s.pc.Crashed? ==>
          forall i :: 0 <= i < |s.senders| ==> s.senders[i].report.value < s.toSend.value)
  }

  /** The only open connection is the agent's own, and it was dialled with the key in force. */
  predicate CommInv(s: State) {
    && (s.comm.Some? ==> s.comm.value < |s.connections|)
    && (forall c :: 0 <= c < |s.connections| ==> (s.connections[c].open <==> s.comm == Some(c)))
    && (s.comm.Some? ==> s.connections[s.comm.value].apiKey == s.apiKey && s.apiKey != "" && s.source == s.comm)
    && (s.source.Some? <==> s.connections != [])
    && (s.source.Some? ==> s.source.value == |s.connections| - 1)
    && (s.pc.Dialling? ==> s.apiKey != "")
    && (s.pc.SendGate? || s.pc.Storing? || s.pc.Spawning? || s.pc.Forgetting? ==> s.comm.Some?)
    && (forall i :: 0 <= i < |s.senders| ==>
          && s.senders[i].launchComm.Some?
          && s.senders[i].launchComm.value < |s.connections|
          && s.connections[s.senders[i].launchComm.value].apiKey == s.senders[i].apiKey
          && s.senders[i].apiKey != "")
  }

  /** The delays are at least the floor, and each RPC starts no earlier than the end of every
      earlier one plus the delay captured when that one was launched. */
  predicate TimeInv(s: State) {
    && s.minPeriod >= s.floor
    && (forall i :: 0 <= i < |s.senders| ==>
          && s.senders[i].delay >= s.floor
          && (s.senders[i].Started() ==> s.senders[i].start <= s.now)
          && (s.senders[i].Ended() ==> s.senders[i].start <= s.senders[i].end <= s.now)
          && (s.senders[i].phase.Awake? || s.senders[i].phase.Finished? ==>
                s.senders[i].end + s.senders[i].delay <= s.now))
    && (forall i, j :: 0 <= i < j < |s.senders| && s.senders[j].Started() ==>
          s.senders[i].Ended() && s.senders[i].end + s.senders[i].delay <= s.senders[j].start)
  }

  predicate Inv(s: State) {
    FlagInv(s) && ReportInv(s) && CommInv(s) && TimeInv(s)
  }

  // ----- Each transition keeps each concern -----

  /** Same senders, reports and clock. */
  predicate SameReporting(s: State, t: State) {
    && t.senders == s.senders && t.running == s.running && t.now == s.now
    && t.toSend == s.toSend && t.produced == s.produced && t.current == s.current && t.agentID == s.agentID
  }

  /** Same connections and key. */
  predicate SameComm(s: State, t: State) {
    t.comm == s.comm && t.connections == s.connections && t.source == s.source && t.apiKey == s.apiKey
  }

  lemma FlowControlFrame(s: State, d: Directive)
    ensures var t := WithFlowControl(s, d);
            && SameReporting(s, t) && SameComm(s, t) && t.pc == s.pc && t.floor == s.floor
            && t.lastDirective == s.lastDirective
            && (t.stopped <==> s.stopped || d.stopReporting)
            && (s.minPeriod >= s.floor ==> t.minPeriod >= s.floor)
  {}

  lemma DirectiveFrame(s: State, d: Option<Directive>)
    ensures var t := WithDirective(s, d);
            && SameReporting(s, t) && SameComm(s, t) && t.floor == s.floor
            && (s.stopped ==> t.stopped)
            && (s.minPeriod >= s.floor ==> t.minPeriod >= s.floor)
            && (t.pc == s.pc || t.pc.Crashed?)
  {
    if d.Some? {
      FlowControlFrame(s, d.value);
      DirectiveOutcome(s, d.value);
    }
  }

  /** Beyond flow control, a directive leaves its ID, or no agent. */
  lemma DirectiveOutcome(s: State, d: Directive)
    ensures var t := WithFlowControl(s, d);
            WithDirective(s, Some(d)) in {t.(pc := Crashed), t.(lastDirective := d.id)}
  {}

  lemma KeyFrame(s: State, key: string)
    ensures var t := WithKey(s, key);
            && SameReporting(s, t) && t.floor == s.floor && t.stopped == s.stopped
            && t.minPeriod == s.minPeriod && t.pc == s.pc
  {}

  /** An event changes no sender, no report, and no clock. */
  lemma WakeFrame(s: State, e: Event)
    requires s.pc.Select?
    ensures var t := Woken(s, e);
            && SameReporting(s, t) && t.floor == s.floor
            && (s.stopped ==> t.stopped)
            && (s.minPeriod >= s.floor ==> t.minPeriod >= t.floor)
            && (t.pc.Gate? || t.pc.Returned? || t.pc.Crashed?)
  {
    match e
    case ConfigChanged(v) => KeyFrame(s, ResolveKey(v, s.envKey));
    case DirectiveArrived(d) => DirectiveFrame(s, d);
    case _ =>
  }

  /** Only launching a sender and the senders themselves touch the senders, and only the
      environment moves the clock. */
  lemma MainFrame(s: State, l: Label)
    requires Enabled(s, l) && !IsEnvironment(l) && !l.Spawn?
    ensures var t := Next(s, l);
            && t.senders == s.senders && t.now == s.now && t.floor == s.floor
            && (s.minPeriod >= s.floor ==> t.minPeriod >= t.floor)
  {
    if l.Wake? {
      WakeFrame(s, l.event);
    }
  }

  lemma FlagSender(s: State, l: Label)
    requires FlagInv(s) && Enabled(s, l) && IsEnvironment(l)
    ensures FlagInv(Next(s, l))
  {
    var t := Next(s, l);
    if !l.Elapse? {
      assert l.i == |s.senders| - 1;
      assert forall j :: 0 <= j < |s.senders| && j != l.i ==> t.senders[j] == s.senders[j];
    }
  }

  lemma FlagStep(s: State, l: Label)
    requires FlagInv(s) && Enabled(s, l)
    ensures FlagInv(Next(s, l))
  {
    if IsEnvironment(l) {
      FlagSender(s, l);
    } else if l.Wake? {
      WakeFrame(s, l.event);
    }
  }

  lemma ReportSender(s: State, l: Label)
    requires FlagInv(s) && ReportInv(s) && Enabled(s, l) && IsEnvironment(l)
    ensures ReportInv(Next(s, l))
  {
    SenderCarries(s, l);
    ReportFrame(s, Next(s, l));
  }

  /** A sender keeps what it was launched with, and only the clearing of the flag is seen outside. */
  lemma SenderCarries(s: State, l: Label)
    requires Enabled(s, l) && IsEnvironment(l)
    ensures var t := Next(s, l);
            && |t.senders| == |s.senders| && t.toSend == s.toSend && t.produced == s.produced
            && (t.pc == s.pc || t.pc.Crashed?)
            && forall j :: 0 <= j < |s.senders| ==> t.senders[j].report == s.senders[j].report
  {}

  lemma ReportFrame(s: State, t: State)
    requires ReportInv(s)
    requires |t.senders| == |s.senders| && t.toSend == s.toSend && t.produced == s.produced
    requires t.pc == s.pc || t.pc.Crashed?
    requires forall j :: 0 <= j < |s.senders| ==> t.senders[j].report == s.senders[j].report
    ensures ReportInv(t)
  {}

  lemma ReportProcess(s: State, o: Outcome)
    requires FlagInv(s) && ReportInv(s) && Enabled(s, Process(o))
    ensures ReportInv(Next(s, Process(o)))
  {}

  lemma ReportStep(s: State, l: Label)
    requires FlagInv(s) && ReportInv(s) && Enabled(s, l)
    ensures ReportInv(Next(s, l))
  {
    if IsEnvironment(l) {
      ReportSender(s, l);
    } else if l.Spawn? {
      ReportSpawn(s);
    } else if l.Process? {
      ReportProcess(s, l.outcome);
    } else {
      MainFrame(s, l);
      if l.Wake? {
        WakeFrame(s, l.event);
      }
    }
  }

  lemma ReportSpawn(s: State)
    requires FlagInv(s) && ReportInv(s) && s.pc.Spawning?
    ensures ReportInv(Next(s, Spawn))
  {}

  /** ClearComm leaves nothing open, and a new key finds nothing open. */
  lemma CommKey(s: State, key: string)
    requires CommInv(s) && s.pc.Select?
    ensures CommInv(WithKey(s, key))
  {}

  lemma CommWake(s: State, e: Event)
    requires CommInv(s) && Enabled(s, Wake(e))
    ensures CommInv(Woken(s, e))
  {
    match e
    case ConfigChanged(v) =>
      var key := ResolveKey(v, s.envKey);
      CommKey(s, key);
      KeyFrame(s, key);
    case DirectiveArrived(d) => DirectiveFrame(s, d);
    case _ =>
  }

  lemma CommSender(s: State, l: Label)
    requires CommInv(s) && Enabled(s, l) && IsEnvironment(l)
    ensures CommInv(Next(s, l))
  {
    var t := Next(s, l);
    assert SameComm(s, t) && |t.senders| == |s.senders|;
    forall j | 0 <= j < |s.senders|
      ensures t.senders[j].launchComm == s.senders[j].launchComm && t.senders[j].apiKey == s.senders[j].apiKey
    {}
  }

  lemma CommDial(s: State, ok: bool)
    requires CommInv(s) && Enabled(s, EnsureComm(ok))
    ensures CommInv(WithComm(s, ok))
  {}

  lemma CommSpawn(s: State)
    requires CommInv(s) && s.pc.Spawning?
    ensures CommInv(Next(s, Spawn))
  {}

  lemma CommStep(s: State, l: Label)
    requires FlagInv(s) && CommInv(s) && Enabled(s, l)
    ensures CommInv(Next(s, l))
  {
    if IsEnvironment(l) {
      CommSender(s, l);
    } else if l.Wake? {
      CommWake(s, l.event);
    } else if l.EnsureComm? {
      CommDial(s, l.dialOk);
    } else if l.Spawn? {
      CommSpawn(s);
    } else {
      CommMain(s, l);
    }
  }

  lemma CommMain(s: State, l: Label)
    requires CommInv(s) && Enabled(s, l) && !IsEnvironment(l) && !l.Wake? && !l.EnsureComm? && !l.Spawn?
    ensures CommInv(Next(s, l))
  {
    assert SameComm(s, Next(s, l)) && Next(s, l).senders == s.senders;
  }

  lemma TimeElapse(s: State, n: nat)
    requires TimeInv(s) && Enabled(s, Elapse(n))
    ensures TimeInv(Next(s, Elapse(n)))
  {}

  lemma OnlyLastMoves(s: State, i: nat)
    requires FlagInv(s) && i < |s.senders| && !s.senders[i].phase.Finished?
    ensures i == |s.senders| - 1
  {}

  /** Starting: every earlier sender has finished, so its sleep is over by now. */
  lemma TimeStart(s: State, i: nat)
    requires FlagInv(s) && TimeInv(s) && Enabled(s, RpcStart(i))
    ensures TimeInv(Next(s, RpcStart(i)))
  {
    OnlyLastMoves(s, i);
    if s.comm.None? {
      TimeCrash(s);
    } else {
      TimeLast(s, s.senders[i].(phase := Phase.Sending, via := s.comm, start := s.now));
    }
  }

  lemma TimeCrash(s: State)
    requires TimeInv(s)
    ensures TimeInv(s.(pc := Crashed))
  {}

  /** What may become of the last sender. */
  lemma TimeLast(s: State, x: Sender)
    requires FlagInv(s) && TimeInv(s) && s.senders != []
    requires x.delay >= s.floor
    requires x.Started() ==> x.start <= s.now
    requires x.Ended() ==> x.start <= x.end <= s.now
    requires x.phase.Awake? || x.phase.Finished? ==> x.end + x.delay <= s.now
    requires var was := s.senders[|s.senders| - 1];
             x.Started() ==> x.start == s.now || (was.Started() && x.start == was.start)
    ensures TimeInv(WithSender(s, |s.senders| - 1, x))
  {
    var n := |s.senders| - 1;
    var t := WithSender(s, n, x);
    assert forall j :: 0 <= j < n ==> t.senders[j] == s.senders[j];
    forall i, j | 0 <= i < j < |t.senders| && t.senders[j].Started()
      ensures t.senders[i].Ended() && t.senders[i].end + t.senders[i].delay <= t.senders[j].start
    {
      assert s.senders[i].phase.Finished?;
      assert s.senders[i].Ended();
    }
  }

  lemma TimeSender(s: State, l: Label)
    requires FlagInv(s) && TimeInv(s) && Enabled(s, l)
    requires l.RpcDone? || l.SleepDone? || l.ClearFlag?
    ensures TimeInv(Next(s, l))
  {
    OnlyLastMoves(s, l.i);
    var was := s.senders[l.i];
    var x := match l
      case RpcDone(_) => was.(phase := Phase.Sleeping, end := s.now)
      case SleepDone(_) => was.(phase := Phase.Awake)
      case _ => was.(phase := Phase.Finished);
    TimeLast(s, x);
    assert Next(s, l).(running := s.running) == WithSender(s, l.i, x);
  }

  lemma TimeSpawn(s: State)
    requires FlagInv(s) && TimeInv(s) && s.pc.Spawning?
    ensures TimeInv(Next(s, Spawn))
  {}

  lemma TimeStep(s: State, l: Label)
    requires FlagInv(s) && TimeInv(s) && Enabled(s, l)
    ensures TimeInv(Next(s, l))
  {
    if l.Elapse? {
      TimeElapse(s, l.nanos);
    } else if l.RpcStart? {
      TimeStart(s, l.i);
    } else if IsEnvironment(l) {
      TimeSender(s, l);
    } else if l.Spawn? {
      TimeSpawn(s);
    } else {
      MainFrame(s, l);
    }
  }

  lemma InvWake(s: State, e: Event)
    requires Inv(s) && Enabled(s, Wake(e))
    ensures Inv(Woken(s, e))
  {
    InvStep(s, Wake(e));
  }

  /** Every transition keeps the invariant. */
  lemma InvStep(s: State, l: Label)
    requires Inv(s) && Enabled(s, l)
    ensures Inv(Next(s, l))
  {
    FlagStep(s, l);
    ReportStep(s, l);
    CommStep(s, l);
    TimeStep(s, l);
  }

  lemma {:induction false} InvRun(s: State, labels: seq<Label>)
    requires Inv(s) && Exec(s, labels).Some?
    ensures Inv(Exec(s, labels).value)
    decreases |labels|
  {
    if labels != [] {
      var n := |labels| - 1;
      InvRun(s, labels[..n]);
      InvStep(Exec(s, labels[..n]).value, labels[n]);
    }
  }
}
