/** What the fields of the agent are, told from the labels of a run alone: no field holds anything but
    what the events, snapshots and clock of its history put there. */
module ReportingHistory {
  import opened Prelude
  import opened Directives
  import Runs
  import opened ReportingLoop
  import opened ReportingRuns
  import opened ReportingTheorems

  // ----- What a label brings -----

  function DirectiveIn(l: Label): Option<Directive> {
    if l.Wake? && l.event.DirectiveArrived? then l.event.directive else None
  }

  function PeriodAsked(l: Label): Option<ProtoDuration> {
    if DirectiveIn(l).Some? then DirectiveIn(l).value.minReportPeriod else None
  }

  predicate AsksToStop(l: Label) {
    DirectiveIn(l).Some? && DirectiveIn(l).value.stopReporting
  }

  function ConfigIn(l: Label): Option<ConfigView> {
    if l.Wake? && l.event.ConfigChanged? then Some(l.event.view) else None
  }

  function IdentityIn(l: Label): Option<Identity> {
    if l.Process? && !l.outcome.Skipped? then Some(l.outcome.agentID) else None
  }

  function SnapshotIn(l: Label): Option<Bytes> {
    if l.Process? && (l.outcome.MarshalFailed? || l.outcome.Ready?) then Some(l.outcome.snapshot) else None
  }

  function ReportIn(l: Label): seq<Bytes> {
    if l.Process? && l.outcome.Ready? then [l.outcome.report] else []
  }

  function Elapsed(l: Label): nat {
    if l.Elapse? then l.nanos else 0
  }

  // ----- What a history amounts to -----

  /** The latest value the labels bring. */
  function LastOf<T>(labels: seq<Label>, brings: Label -> Option<T>): Option<T>
    decreases |labels|
  {
    if labels == [] then None
    else
      var n := |labels| - 1;
      if brings(labels[n]).Some? then brings(labels[n]) else LastOf(labels[..n], brings)
  }

  predicate IsLast<T>(labels: seq<Label>, brings: Label -> Option<T>, k: int) {
    0 <= k < |labels| && brings(labels[k]).Some? && forall j :: k < j < |labels| ==> brings(labels[j]).None?
  }

  /** LastOf is the value brought by some label and by none after it. */
  lemma {:induction false} LastOfExactly<T>(labels: seq<Label>, brings: Label -> Option<T>)
    ensures LastOf(labels, brings).None? ==> forall k :: 0 <= k < |labels| ==> brings(labels[k]).None?
    ensures forall k :: IsLast(labels, brings, k) ==> LastOf(labels, brings) == brings(labels[k])
    decreases |labels|
  {
    if labels != [] {
      var n := |labels| - 1;
      var front := labels[..n];
      LastOfExactly(front, brings);
      forall k | IsLast(labels, brings, k) && k < n
        ensures LastOf(labels, brings) == brings(labels[k])
      {
        assert brings(labels[n]).None? && front[k] == labels[k];
        assert IsLast(front, brings, k);
      }
      forall k | 0 <= k < n && LastOf(labels, brings).None?
        ensures brings(labels[k]).None?
      {
        assert front[k] == labels[k];
      }
    }
  }

  /** The period honoured last, or else the initial one. */
  function PeriodInForce(s0: State, labels: seq<Label>): int64 {
    match LastOf<ProtoDuration>(labels, PeriodAsked)
    case None => s0.minPeriod
    case Some(p) => HonouredPeriod(p, s0.floor)
  }

  /** By the last configuration: the key of the secret, without a secret that of the config map, and
      without either that of the environment; or else the initial one. */
  function KeyInForce(s0: State, labels: seq<Label>): string {
    match LastOf<ConfigView>(labels, ConfigIn)
    case None => s0.apiKey
    case Some(ConfigView(Some(key), _)) => key
    case Some(ConfigView(None, Some(key))) => key
    case Some(ConfigView(None, None)) => s0.envKey
  }

  function ReportsMade(labels: seq<Label>): seq<Bytes>
    decreases |labels|
  {
    if labels == [] then [] else ReportsMade(labels[..|labels| - 1]) + ReportIn(labels[|labels| - 1])
  }

  function Clock(s0: State, labels: seq<Label>): int
    decreases |labels|
  {
    if labels == [] then s0.now else Clock(s0, labels[..|labels| - 1]) + Elapsed(labels[|labels| - 1])
  }

  function Launches(labels: seq<Label>): nat
    decreases |labels|
  {
    if labels == [] then 0 else Launches(labels[..|labels| - 1]) + if labels[|labels| - 1].Spawn? then 1 else 0
  }

  // ----- The flow control and the key -----

  predicate ToldToStop(labels: seq<Label>) {
    exists k :: 0 <= k < |labels| && AsksToStop(labels[k])
  }

  predicate ControlFits(s0: State, labels: seq<Label>, s: State) {
    && s.floor == s0.floor && s.envKey == s0.envKey
    && s.minPeriod == PeriodInForce(s0, labels)
    && s.apiKey == KeyInForce(s0, labels)
    && (s.stopped <==> s0.stopped || ToldToStop(labels))
  }

  lemma ControlStep(s: State, l: Label)
    requires Enabled(s, l)
    ensures var t := Next(s, l);
            && t.floor == s.floor && t.envKey == s.envKey
            && t.minPeriod == (match PeriodAsked(l) case None => s.minPeriod case Some(p) => HonouredPeriod(p, s.floor))
            && t.apiKey == (match ConfigIn(l)
                            case None => s.apiKey
                            case Some(ConfigView(Some(key), _)) => key
                            case Some(ConfigView(None, Some(key))) => key
                            case Some(ConfigView(None, None)) => s.envKey)
            && (t.stopped <==> s.stopped || AsksToStop(l))
  {
    if l.Wake? {
      if l.event.ConfigChanged? {
        KeyControl(s, ResolveKey(l.event.view, s.envKey));
      } else if DirectiveIn(l).Some? {
        DirectiveOutcome(s, DirectiveIn(l).value);
        FlowControl(s, DirectiveIn(l).value);
      }
    } else if IsEnvironment(l) {
      SenderControl(s, l);
    }
  }

  lemma KeyControl(s: State, key: string)
    ensures var t := WithKey(s, key);
            && t.apiKey == key && t.envKey == s.envKey && t.minPeriod == s.minPeriod && t.floor == s.floor
            && t.stopped == s.stopped
  {}

  lemma FlowControl(s: State, d: Directive)
    ensures var t := WithFlowControl(s, d);
            && t.minPeriod == (match d.minReportPeriod
                               case None => s.minPeriod
                               case Some(p) => HonouredPeriod(p, s.floor))
            && (t.stopped <==> s.stopped || d.stopReporting)
            && t.apiKey == s.apiKey && t.envKey == s.envKey && t.floor == s.floor
  {}

  lemma SenderControl(s: State, l: Label)
    requires Enabled(s, l) && IsEnvironment(l)
    ensures var t := Next(s, l);
            && t.floor == s.floor && t.envKey == s.envKey && t.minPeriod == s.minPeriod && t.apiKey == s.apiKey
            && t.stopped == s.stopped
  {}

  /** Whatever the interleaving, the period, the key and the stop flag are what the directives and the
      configuration events of the run make them. */
  lemma {:induction false} ControlIsHistory(s0: State, labels: seq<Label>)
    requires Exec(s0, labels).Some?
    ensures ControlFits(s0, labels, Exec(s0, labels).value)
    decreases |labels|
  {
    if labels != [] {
      var n := |labels| - 1;
      var front := labels[..n];
      ControlIsHistory(s0, front);
      ControlStep(Exec(s0, front).value, labels[n]);
      StopSnoc(front, labels[n]);
      assert front + [labels[n]] == labels;
    }
  }

  lemma StopSnoc(front: seq<Label>, l: Label)
    ensures ToldToStop(front + [l]) <==> ToldToStop(front) || AsksToStop(l)
  {
    var labels := front + [l];
    assert labels[|front|] == l;
    if k :| 0 <= k < |front| && AsksToStop(front[k]) {
      assert AsksToStop(labels[k]);
    }
  }

  // ----- Snapshots, reports, launches and the clock -----

  predicate RecordFits(s0: State, labels: seq<Label>, s: State) {
    && s.agentID == LastOf(labels, IdentityIn)
    && s.current == LastOf(labels, SnapshotIn)
    && s.produced == ReportsMade(labels)
    && |s.senders| == Launches(labels)
    && s.now == Clock(s0, labels)
  }

  lemma RecordStep(s: State, l: Label)
    requires Enabled(s, l)
    ensures var t := Next(s, l);
            && t.agentID == (if IdentityIn(l).Some? then IdentityIn(l) else s.agentID)
            && t.current == (if SnapshotIn(l).Some? then SnapshotIn(l) else s.current)
            && t.produced == s.produced + ReportIn(l)
            && |t.senders| == |s.senders| + (if l.Spawn? then 1 else 0)
            && t.now == s.now + Elapsed(l)
  {
    if l.Wake? {
      WakeFrame(s, l.event);
    } else if IsEnvironment(l) {
      SenderRecord(s, l);
    }
  }

  lemma SenderRecord(s: State, l: Label)
    requires Enabled(s, l) && IsEnvironment(l)
    ensures var t := Next(s, l);
            && t.agentID == s.agentID && t.current == s.current && t.produced == s.produced
            && |t.senders| == |s.senders| && t.now == s.now + Elapsed(l)
  {}

  /** The identity and the snapshot kept are the latest ones found, the reports produced are those of the
      snapshots that could be processed, in order, and time is what has elapsed. */
  lemma {:induction false} RecordIsHistory(s0: State, labels: seq<Label>)
    requires Init(s0) && Exec(s0, labels).Some?
    ensures RecordFits(s0, labels, Exec(s0, labels).value)
    decreases |labels|
  {
    if labels != [] {
      var n := |labels| - 1;
      RecordIsHistory(s0, labels[..n]);
      RecordStep(Exec(s0, labels[..n]).value, labels[n]);
    }
  }

  /** Unless it has crashed, the agent remembers the last directive it was given, and its loop has ended
      if and only if it was told to; then only senders and the clock go on. */
  lemma {:induction false} LoopIsHistory(s0: State, labels: seq<Label>)
    requires Init(s0) && Exec(s0, labels).Some? && !Exec(s0, labels).value.pc.Crashed?
    ensures var s := Exec(s0, labels).value;
            && s.lastDirective == (match LastOf(labels, DirectiveIn) case None => s0.lastDirective case Some(d) => d.id)
            && (s.pc.Returned? <==> exists k :: 0 <= k < |labels| && labels[k] == Wake(Cancelled))
            && (s.pc.Returned? ==> forall l :: Enabled(s, l) ==> IsEnvironment(l))
    decreases |labels|
  {
    if labels != [] {
      var n := |labels| - 1;
      var front := labels[..n];
      LoopIsHistory(s0, front);
      LoopStep(Exec(s0, front).value, labels[n]);
      assert forall k :: 0 <= k < n ==> front[k] == labels[k];
    }
  }

  lemma LoopStep(s: State, l: Label)
    requires Enabled(s, l) && !Next(s, l).pc.Crashed?
    ensures var t := Next(s, l);
            && t.lastDirective == (match DirectiveIn(l) case None => s.lastDirective case Some(d) => d.id)
            && (t.pc.Returned? <==> s.pc.Returned? || l == Wake(Cancelled))
  {
    if l.Wake? && l.event.ConfigChanged? {
      KeyFrame(s, ResolveKey(l.event.view, s.envKey));
    } else if DirectiveIn(l).Some? {
      DirectiveOutcome(s, DirectiveIn(l).value);
    }
  }

  // ----- What a launch captures -----

  /** The sender launched at position `k` of a run carries, for good, the period and the key in force at
      that moment and the newest report made by then, as told from the labels before `k` alone. */
  lemma LaunchCaptures(s0: State, labels: seq<Label>, s: State, k: nat)
    requires Reached(s0, labels, s) && k < |labels| && labels[k].Spawn?
    ensures var before, i := labels[..k], Launches(labels[..k]);
            && i < |s.senders|
            && s.senders[i].delay == PeriodInForce(s0, before)
            && s.senders[i].apiKey == KeyInForce(s0, before)
            && ReportsMade(before) != [] && s.senders[i].report == Some(|ReportsMade(before)| - 1)
            && |ReportsMade(before)| <= |s.produced|
            && s.produced[|ReportsMade(before)| - 1] == ReportsMade(before)[|ReportsMade(before)| - 1]
  {
    var before := labels[..k];
    Runs.ExecAt(Step, s0, labels, k);
    AtLaunch(s0, before, Exec(s0, before).value);
    ForwardRun(Exec(s0, labels[..k + 1]).value, labels[k + 1..]);
    RecordIsHistory(s0, labels);
    ReportsGrow(labels, k);
  }

  lemma AtLaunch(s0: State, before: seq<Label>, a: State)
    requires Reached(s0, before, a) && Enabled(a, Spawn)
    ensures var t, i := Next(a, Spawn), Launches(before);
            && i < |t.senders|
            && t.senders[i].delay == PeriodInForce(s0, before)
            && t.senders[i].apiKey == KeyInForce(s0, before)
            && ReportsMade(before) != [] && t.senders[i].report == Some(|ReportsMade(before)| - 1)
  {
    LaunchReached(s0, before, a);
    InForce(s0, before, a);
  }

  lemma LaunchReached(s0: State, before: seq<Label>, a: State)
    requires Reached(s0, before, a) && Enabled(a, Spawn)
    ensures LaunchesNewest(a)
  {
    ReachedInv(s0, before, a);
    LaunchStep(a);
  }

  lemma InForce(s0: State, labels: seq<Label>, s: State)
    requires Reached(s0, labels, s)
    ensures s.minPeriod == PeriodInForce(s0, labels) && s.apiKey == KeyInForce(s0, labels)
    ensures s.produced == ReportsMade(labels) && |s.senders| == Launches(labels)
  {
    ControlIsHistory(s0, labels);
    RecordIsHistory(s0, labels);
  }

  lemma LaunchStep(a: State)
    requires Inv(a) && Enabled(a, Spawn)
    ensures LaunchesNewest(a)
  {}

  predicate LaunchesNewest(a: State)
    requires Enabled(a, Spawn)
  {
    var t := Next(a, Spawn);
    && |t.senders| == |a.senders| + 1
    && var x := t.senders[|a.senders|];
       && x.delay == a.minPeriod && x.apiKey == a.apiKey
       && a.produced != [] && x.report == Some(|a.produced| - 1)
  }

  /** A connection is dialled with the key in force and the latest identity found. */
  lemma DialCaptures(s0: State, labels: seq<Label>, s: State)
    requires Reached(s0, labels, s) && Enabled(s, EnsureComm(true)) && s.comm.None?
    ensures var t := Next(s, EnsureComm(true));
            && t.connections == s.connections + [Connection(KeyInForce(s0, labels), LastOf(labels, IdentityIn), true)]
            && t.comm == t.source == Some(|s.connections|)
  {
    ControlIsHistory(s0, labels);
    RecordIsHistory(s0, labels);
  }

  lemma {:induction false} ReportsGrow(labels: seq<Label>, k: nat)
    requires k <= |labels|
    ensures ReportsMade(labels[..k]) <= ReportsMade(labels)
    decreases |labels|
  {
    if k == |labels| {
      assert labels[..k] == labels;
    } else {
      assert labels[..|labels| - 1][..k] == labels[..k];
      ReportsGrow(labels[..|labels| - 1], k);
    }
  }

  // ----- The rate limit by the clock -----

  /** Between the end of one RPC and the start of any later one, at least the delay passes that was in
      force when the sender of the first was launched. */
  lemma RateLimitByClock(s0: State, labels: seq<Label>, s: State, j: nat, k: nat)
    requires Reached(s0, labels, s) && j < k < |labels| && labels[j].RpcDone? && labels[k].RpcStart?
    ensures labels[j].i < |s.senders|
    ensures Clock(s0, labels[..k]) >= Clock(s0, labels[..j]) + s.senders[labels[j].i].delay
  {
    var i := labels[j].i;
    Runs.ExecBetween(Step, s0, labels, j, k);
    Runs.ExecSplit(Step, s0, labels, k);
    var a, b := Exec(s0, labels[..j]).value, Exec(s0, labels[..k]).value;
    RecordIsHistory(s0, labels[..j]);
    RecordIsHistory(s0, labels[..k]);
    ReachedInv(s0, labels[..k], b);
    EndsNow(a, i);
    ForwardRun(Next(a, labels[j]), labels[j + 1..k]);
    WaitsOut(b, labels[k], i, a.now);
    ForwardRun(b, labels[k..]);
  }

  lemma EndsNow(a: State, i: nat)
    requires Enabled(a, RpcDone(i))
    ensures var x := Next(a, RpcDone(i)).senders[i];
            x.Ended() && x.end == a.now && Rank(x.phase) == 2
  {}

  lemma WaitsOut(b: State, l: Label, i: nat, end: int)
    requires Inv(b) && Enabled(b, l) && l.RpcStart?
    requires i < |b.senders| && Rank(b.senders[i].phase) >= 2 && b.senders[i].end == end
    ensures b.now >= end + b.senders[i].delay
  {
    OnlyLastStarts(b, l);
  }

  // ----- The gates of a pass -----

  predicate Identifies(l: Label) {
    IdentityIn(l).Some?
  }

  /** A connection is dialled without an identity if and only if no snapshot processed so far had one. */
  lemma DialledAnonymouslyExactly(s0: State, labels: seq<Label>, s: State)
    requires Reached(s0, labels, s) && Enabled(s, EnsureComm(true)) && s.comm.None?
    ensures var t := Next(s, EnsureComm(true));
            && t.comm == Some(|s.connections|) && |t.connections| == |s.connections| + 1
            && (t.connections[|s.connections|].agentID.None? <==>
                  forall k :: 0 <= k < |labels| ==> !Identifies(labels[k]))
  {
    DialCaptures(s0, labels, s);
    LastOfExactly(labels, IdentityIn);
    LastOfComes(labels, IdentityIn);
  }

  lemma {:induction false} LastOfComes<T>(labels: seq<Label>, brings: Label -> Option<T>)
    ensures LastOf(labels, brings).Some? ==> exists k :: 0 <= k < |labels| && brings(labels[k]).Some?
    decreases |labels|
  {
    if labels != [] {
      var n := |labels| - 1;
      LastOfComes(labels[..n], brings);
      if k :| 0 <= k < n && brings(labels[..n][k]).Some? {
        assert brings(labels[k]).Some?;
      }
    }
  }

  /** A report has been made since the last one was handed to a sender. */
  function Waiting(labels: seq<Label>): bool
    decreases |labels|
  {
    if labels == [] then false
    else
      var l := labels[|labels| - 1];
      ReportIn(l) != [] || (!l.Forget? && Waiting(labels[..|labels| - 1]))
  }

  lemma WaitingStep(s: State, l: Label)
    requires Enabled(s, l)
    ensures Next(s, l).toSend.Some? <==> ReportIn(l) != [] || (!l.Forget? && s.toSend.Some?)
  {
    if l.Wake? {
      WakeFrame(s, l.event);
    } else if IsEnvironment(l) {
      SenderCarries(s, l);
    }
  }

  lemma {:induction false} WaitingIsHistory(s0: State, labels: seq<Label>)
    requires Init(s0) && Exec(s0, labels).Some?
    ensures Exec(s0, labels).value.toSend.Some? <==> Waiting(labels)
    decreases |labels|
  {
    if labels != [] {
      var n := |labels| - 1;
      WaitingIsHistory(s0, labels[..n]);
      WaitingStep(Exec(s0, labels[..n]).value, labels[n]);
    }
  }

  predicate AllFinished(s: State) {
    forall i :: 0 <= i < |s.senders| ==> s.senders[i].phase.Finished?
  }

  /** In every run, a pass takes a snapshot exactly if no directive has asked to stop and every sender has
      finished; goes on without a key never, and with one always; and launches a sender exactly if, again,
      nobody has asked to stop, every sender has finished, and a report has been made that no sender has. */
  lemma GatesExactly(s0: State, labels: seq<Label>, s: State)
    requires Reached(s0, labels, s)
    ensures s.pc.Gate? ==> (Next(s, ReadGate).pc.Processing? <==> !ToldToStop(labels) && AllFinished(s))
    ensures s.pc.KeyCheck? ==> (Next(s, CheckKey).pc.Dialling? <==> KeyInForce(s0, labels) != "")
    ensures s.pc.SendGate? ==>
              (Next(s, ReadSendGate).pc.Storing? <==> !ToldToStop(labels) && AllFinished(s) && Waiting(labels))
  {
    ReachedInv(s0, labels, s);
    ControlIsHistory(s0, labels);
    WaitingIsHistory(s0, labels);
    Gates(s);
  }

  lemma Gates(s: State)
    requires FlagInv(s)
    ensures s.pc.Gate? ==> (Next(s, ReadGate).pc.Processing? <==> !s.stopped && AllFinished(s))
    ensures s.pc.KeyCheck? ==> (Next(s, CheckKey).pc.Dialling? <==> s.apiKey != "")
    ensures s.pc.SendGate? ==>
              (Next(s, ReadSendGate).pc.Storing? <==> !s.stopped && AllFinished(s) && s.toSend.Some?)
  {
    if !s.running && s.senders != [] && (s.pc.Gate? || s.pc.SendGate?) {
      assert s.senders[|s.senders| - 1].phase.Finished?;
    }
  }
}
