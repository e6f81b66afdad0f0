/** Safety of the reporting loop over whole runs from the start of the agent. */
module ReportingTheorems {
  import opened Prelude
  import opened Directives
  import Runs
  import opened ReportingLoop
  import opened ReportingRuns

  /** `s` is what the run `labels` from the start `s0` leads to. */
  predicate Reached(s0: State, labels: seq<Label>, s: State) {
    Init(s0) && Exec(s0, labels) == Some(s)
  }

  lemma ReachedInv(s0: State, labels: seq<Label>, s: State)
    requires Reached(s0, labels, s)
    ensures Inv(s)
  {
    InvRun(s0, labels);
  }

  // ----- The flag and the senders -----

  /** The senders in their send-or-sleep phase. */
  function Busy(s: State): set<int> {
    set i | 0 <= i < |s.senders| && !s.senders[i].phase.Finished?
  }

  /** At each loop head the flag is set exactly when one sender is sending or sleeping, no other
      number than zero or one ever is, and while it is set nothing is waiting to be sent. */
  lemma FlagAtLoopHead(s0: State, labels: seq<Label>, s: State)
    requires Reached(s0, labels, s) && s.pc.Select?
    ensures |Busy(s)| == if s.running then 1 else 0
    ensures s.running ==> s.toSend.None?
  {
    ReachedInv(s0, labels, s);
    if s.running {
      assert Busy(s) == {|s.senders| - 1};
    } else {
      assert Busy(s) == {};
    }
  }

  /** Snapshot RPCs never overlap, at any point of any run. */
  lemma NoOverlap(s0: State, labels: seq<Label>, s: State, i: nat, j: nat)
    requires Reached(s0, labels, s)
    requires InPhase(s, i, Sending) && InPhase(s, j, Sending)
    ensures i == j
  {
    ReachedInv(s0, labels, s);
  }

  /** What ReportSnapshot launches is the newest report produced, to a live comm dialled with the
      key in force, which is not empty. */
  lemma LaunchIsLatest(s0: State, labels: seq<Label>, s: State)
    requires Reached(s0, labels, s) && s.pc.Spawning?
    ensures var x := NewSender(s);
            && s.produced != [] && x.report == Some(|s.produced| - 1)
            && x.launchComm.Some? && x.launchComm.value < |s.connections|
            && s.connections[x.launchComm.value].apiKey == x.apiKey && s.connections[x.launchComm.value].open
            && x.apiKey != ""
  {
    ReachedInv(s0, labels, s);
  }

  // ----- Each report is sent at most once, in order -----

  function Rank(p: Phase): nat {
    match p
    case Spawned => 0
    case Sending => 1
    case Sleeping => 2
    case Awake => 3
    case Finished => 4
  }

  /** Senders are never dropped, never change what they carry, and only move forward; what they record on
      the way stays. */
  predicate Forward(s: State, t: State) {
    && |s.senders| <= |t.senders|
    && forall i :: 0 <= i < |s.senders| ==>
         && Rank(s.senders[i].phase) <= Rank(t.senders[i].phase)
         && SameLaunch(s.senders[i], t.senders[i])
         && (s.senders[i].Started() ==>
               t.senders[i].start == s.senders[i].start && t.senders[i].via == s.senders[i].via)
         && (s.senders[i].Ended() ==> t.senders[i].end == s.senders[i].end)
  }


  lemma ForwardStep(s: State, l: Label)
    requires Enabled(s, l)
    ensures Forward(s, Next(s, l))
    ensures (l.RpcStart? && s.comm.Some?) || l.RpcDone? ==>
              Rank(s.senders[l.i].phase) < Rank(Next(s, l).senders[l.i].phase)
  {
    if IsEnvironment(l) {
      SenderForward(s, l);
    } else if !l.Spawn? {
      MainFrame(s, l);
    }
  }

  lemma SenderForward(s: State, l: Label)
    requires Enabled(s, l) && IsEnvironment(l)
    ensures Forward(s, Next(s, l))
    ensures (l.RpcStart? && s.comm.Some?) || l.RpcDone? ==>
              Rank(s.senders[l.i].phase) < Rank(Next(s, l).senders[l.i].phase)
  {
    var t := Next(s, l);
    if !l.Elapse? {
      assert t.senders == s.senders[l.i := t.senders[l.i]];
    }
  }

  lemma {:induction false} ForwardRun(s: State, labels: seq<Label>)
    requires Exec(s, labels).Some?
    ensures Forward(s, Exec(s, labels).value)
    decreases |labels|
  {
    if labels != [] {
      var n := |labels| - 1;
      ForwardRun(s, labels[..n]);
      ForwardStep(Exec(s, labels[..n]).value, labels[n]);
    }
  }

  /** A sender that has started its RPC is the last one launched so far. */
  lemma OnlyLastStarts(s: State, l: Label)
    requires Inv(s) && Enabled(s, l) && (l.RpcStart? || l.RpcDone?)
    ensures l.i == |s.senders| - 1
  {}

  /** Nothing follows a crash. */
  lemma {:induction false} CrashIsLast(s: State, labels: seq<Label>)
    requires Exec(s, labels).Some? && s.pc.Crashed?
    ensures labels == []
    decreases |labels|
  {
    if labels != [] {
      CrashIsLast(s, labels[..|labels| - 1]);
    }
  }

  lemma LaterStart(a: State, la: Label, b: State, lb: Label)
    requires Inv(a) && Enabled(a, la) && la.RpcStart? && a.comm.Some?
    requires Inv(b) && Enabled(b, lb) && lb.RpcStart?
    requires Forward(Next(a, la), b)
    ensures la.i < lb.i
  {
    OnlyLastStarts(a, la);
    OnlyLastStarts(b, lb);
    ForwardStep(a, la);
  }

  /** Two RPCs of one run belong to different senders and carry different reports, the later one
      a newer report: no report is sent twice and none overtakes another. */
  lemma SentOnceInOrder(s0: State, labels: seq<Label>, s: State, j: nat, k: nat)
    requires Reached(s0, labels, s)
    requires j < k < |labels| && labels[j].RpcStart? && labels[k].RpcStart?
    ensures labels[j].i < labels[k].i < |s.senders|
    ensures s.senders[labels[j].i].report.Some? && s.senders[labels[k].i].report.Some?
    ensures s.senders[labels[j].i].report.value < s.senders[labels[k].i].report.value < |s.produced|
  {
    StartedInOrder(s0, labels, j, k);
    ReachedInv(s0, labels, s);
  }

  lemma StartedInOrder(s0: State, labels: seq<Label>, j: nat, k: nat)
    requires Init(s0) && Exec(s0, labels).Some?
    requires j < k < |labels| && labels[j].RpcStart? && labels[k].RpcStart?
    ensures labels[j].i < labels[k].i < |Exec(s0, labels).value.senders|
  {
    Runs.ExecBetween(Step, s0, labels, j, k);
    var a, b := Exec(s0, labels[..j]).value, Exec(s0, labels[..k]).value;
    var a' := Exec(s0, labels[..j + 1]).value;
    InvRun(s0, labels[..j]);
    InvRun(s0, labels[..k]);
    StartSucceeds(a, labels[j], a', labels[j + 1..k], b);
    ForwardRun(a', labels[j + 1..k]);
    LaterStart(a, labels[j], b, labels[k]);
    Runs.ExecSplit(Step, s0, labels, k);
    ForwardRun(b, labels[k..]);
  }

  lemma StartSucceeds(a: State, l: Label, a': State, between: seq<Label>, b: State)
    requires l.RpcStart? && Step(a, l) == Some(a') && Exec(a', between) == Some(b) && !b.pc.Crashed?
    ensures a.comm.Some?
  {
    if a'.pc.Crashed? {
      CrashIsLast(a', between);
    }
  }

  // ----- Rate limit -----

  lemma FloorStep(s: State, l: Label)
    requires Enabled(s, l)
    ensures Next(s, l).floor == s.floor
  {
    if l.Wake? {
      WakeFrame(s, l.event);
    }
  }

  lemma {:induction false} FloorRun(s: State, labels: seq<Label>)
    requires Exec(s, labels).Some?
    ensures Exec(s, labels).value.floor == s.floor
    decreases |labels|
  {
    if labels != [] {
      var n := |labels| - 1;
      FloorRun(s, labels[..n]);
      FloorStep(Exec(s, labels[..n]).value, labels[n]);
    }
  }

  /** Every RPC starts no earlier than the end of any earlier one plus the delay captured when that
      one was launched, and no captured delay is below the configured floor, whatever periods the
      directives of the run asked for. */
  lemma RateLimit(s0: State, labels: seq<Label>, s: State, i: nat, j: nat)
    requires Reached(s0, labels, s)
    requires i < |s.senders|
    ensures s.senders[i].delay >= s0.floor
    ensures i < j < |s.senders| && s.senders[j].Started() ==>
              s.senders[i].Ended() && s.senders[j].start >= s.senders[i].end + s.senders[i].delay
  {
    ReachedInv(s0, labels, s);
    FloorRun(s0, labels);
  }

  // ----- Connection ownership -----

  /** The connections that are open are the agent's comm and nothing else; the comm was dialled with
      the key in force, which is not empty; and directives come from the comm when there is one. */
  lemma Ownership(s0: State, labels: seq<Label>, s: State)
    requires Reached(s0, labels, s)
    ensures forall c :: 0 <= c < |s.connections| && s.connections[c].open ==> s.comm == Some(c)
    ensures s.comm.Some? ==>
              && s.comm.value < |s.connections|
              && s.connections[s.comm.value].apiKey == s.apiKey && s.connections[s.comm.value].open
              && s.apiKey != "" && s.source == s.comm
  {
    ReachedInv(s0, labels, s);
  }

  /** A transition closes a connection exactly when that connection is the comm and the transition
      is a configuration event that resolves to another key; re-reading an unchanged configuration,
      failing to dial and every other step leave it open. */
  lemma ClosedOnlyByNewKey(s0: State, labels: seq<Label>, s: State, l: Label, c: nat)
    requires Reached(s0, labels, s) && Enabled(s, l)
    requires c < |s.connections| && s.connections[c].open
    ensures c < |Next(s, l).connections|
    ensures !Next(s, l).connections[c].open
       <==> (l.Wake? && l.event.ConfigChanged? && ResolveKey(l.event.view, s.envKey) != s.apiKey)
  {
    ReachedInv(s0, labels, s);
    if IsEnvironment(l) {
      SenderKeepsComm(s, l);
    } else if l.Wake? && l.event.DirectiveArrived? {
      DirectiveFrame(s, l.event.directive);
    }
  }

  lemma SenderKeepsComm(s: State, l: Label)
    requires Enabled(s, l) && IsEnvironment(l)
    ensures SameComm(s, Next(s, l))
  {}

  // ----- Stop reporting -----

  predicate Quiet(s: State) {
    && s.stopped
    && !s.pc.Processing? && !s.pc.Storing? && !s.pc.Spawning? && !s.pc.Forgetting?
  }

  /** Same snapshot, same reports, same launches. */
  predicate NothingNew(s: State, t: State) {
    && t.toSend == s.toSend && t.current == s.current && t.produced == s.produced
    && |t.senders| == |s.senders|
  }

  lemma QuietStep(s: State, l: Label)
    requires Quiet(s) && Enabled(s, l)
    ensures Quiet(Next(s, l)) && NothingNew(s, Next(s, l))
  {
    if l.Wake? {
      WakeFrame(s, l.event);
    }
  }

  lemma {:induction false} QuietRun(s: State, labels: seq<Label>)
    requires Quiet(s) && Exec(s, labels).Some?
    ensures Quiet(Exec(s, labels).value) && NothingNew(s, Exec(s, labels).value)
    decreases |labels|
  {
    if labels != [] {
      var n := |labels| - 1;
      QuietRun(s, labels[..n]);
      QuietStep(Exec(s, labels[..n]).value, labels[n]);
    }
  }

  lemma StopQuiets(s: State, d: Directive)
    requires s.pc.Select? && d.stopReporting
    ensures var t := Woken(s, DirectiveArrived(Some(d)));
            Quiet(t) && NothingNew(s, t)
  {
    WakeFrame(s, DirectiveArrived(Some(d)));
    FlowControlFrame(s, d);
  }

  lemma Stopping(s0: State, before: seq<Label>, s: State, d: Directive)
    requires Reached(s0, before, s) && Enabled(s, Wake(DirectiveArrived(Some(d)))) && d.stopReporting
    ensures var t := Woken(s, DirectiveArrived(Some(d)));
            Inv(t) && Quiet(t) && NothingNew(s, t)
  {
    ReachedInv(s0, before, s);
    StopQuiets(s, d);
    InvWake(s, DirectiveArrived(Some(d)));
  }

  /** Once a directive has told the agent to stop, no continuation of the run, however long, takes
      a snapshot, changes what is waiting to be sent, or launches a sender. */
  lemma StopIsForever(s0: State, before: seq<Label>, s: State, d: Directive, after: seq<Label>)
    requires Reached(s0, before, s) && Enabled(s, Wake(DirectiveArrived(Some(d)))) && d.stopReporting
    requires Exec(Woken(s, DirectiveArrived(Some(d))), after).Some?
    ensures var t := Exec(Woken(s, DirectiveArrived(Some(d))), after).value;
            Quiet(t) && NothingNew(s, t)
  {
    Stopping(s0, before, s, d);
    QuietRun(Woken(s, DirectiveArrived(Some(d))), after);
  }

  /** After the stop at most one RPC still finishes: the one of the last sender launched before. */
  lemma AtMostOneFinishesAfterStop(s0: State, before: seq<Label>, s: State, d: Directive, after: seq<Label>,
                                   j: nat, k: nat)
    requires Reached(s0, before, s) && Enabled(s, Wake(DirectiveArrived(Some(d)))) && d.stopReporting
    requires Exec(Woken(s, DirectiveArrived(Some(d))), after).Some?
    requires j <= k < |after| && after[j].RpcDone? && after[k].RpcDone?
    ensures j == k && after[j].i == |s.senders| - 1
  {
    Stopping(s0, before, s, d);
    var s1 := Woken(s, DirectiveArrived(Some(d)));
    LastFinishes(s1, after, j);
    LastFinishes(s1, after, k);
    if j < k {
      FinishedOnce(s1, after, j, k);
    }
  }

  lemma FinishedOnce(s: State, labels: seq<Label>, j: nat, k: nat)
    requires Exec(s, labels).Some? && j < k < |labels|
    requires labels[j].RpcDone? && labels[k].RpcDone?
    ensures labels[j].i != labels[k].i
  {
    Runs.ExecBetween(Step, s, labels, j, k);
    ForwardStep(Exec(s, labels[..j]).value, labels[j]);
    ForwardRun(Exec(s, labels[..j + 1]).value, labels[j + 1..k]);
  }

  lemma LastFinishes(s: State, labels: seq<Label>, k: nat)
    requires Inv(s) && Quiet(s) && Exec(s, labels).Some?
    requires k < |labels| && labels[k].RpcDone?
    ensures labels[k].i == |s.senders| - 1
  {
    Runs.ExecAt(Step, s, labels, k);
    InvRun(s, labels[..k]);
    QuietRun(s, labels[..k]);
    OnlyLastStarts(Exec(s, labels[..k]).value, labels[k]);
  }

  // ----- Where a nil comm is dereferenced -----

  /** A sender reads the comm when it starts, not when it is launched. It uses the connection it was
      launched for exactly when that connection is still open, and it finds nil exactly when every
      connection ever dialled has been closed. */
  lemma LateRead(s0: State, labels: seq<Label>, s: State, i: nat)
    requires Reached(s0, labels, s) && Enabled(s, RpcStart(i))
    ensures s.senders[i].launchComm.Some? && s.senders[i].launchComm.value < |s.connections|
    ensures var t := Next(s, RpcStart(i));
            && ((!t.pc.Crashed? && t.senders[i].via == s.senders[i].launchComm)
                  <==> s.connections[s.senders[i].launchComm.value].open)
            && (t.pc.Crashed? <==> forall c :: 0 <= c < |s.connections| ==> !s.connections[c].open)
  {
    ReachedInv(s0, labels, s);
    if s.comm.Some? {
      assert s.connections[s.comm.value].open;
    }
  }

  /** Handling a directive that makes the agent report dereferences nil exactly when the connection
      whose channel it came from has been closed since. */
  lemma DirectiveFromClosedComm(s0: State, labels: seq<Label>, s: State, d: Directive)
    requires Reached(s0, labels, s) && Enabled(s, Wake(DirectiveArrived(Some(d))))
    ensures s.source.Some? && s.source.value < |s.connections|
    ensures Next(s, Wake(DirectiveArrived(Some(d)))).pc.Crashed?
       <==> (Reports(s.factories, d) && !s.connections[s.source.value].open)
  {
    ReachedInv(s0, labels, s);
    DirectiveFrame(s, Some(d));
  }

  /** Every configuration event of the run resolves to this key. */
  predicate KeyIsStable(key: string, envKey: string, labels: seq<Label>) {
    forall k :: 0 <= k < |labels| && labels[k].Wake? && labels[k].event.ConfigChanged? ==>
      ResolveKey(labels[k].event.view, envKey) == key
  }

  /** A sender not yet started reads the comm when it starts, and a directive still in the channel reads
      it for every command it makes the agent report. */
  predicate Exposed(s: State) {
    || (exists i :: 0 <= i < |s.senders| && s.senders[i].phase.Spawned?)
    || (s.source.Some? && !s.pc.Returned? && (s.factories.rollouts || s.factories.secrets))
  }

  predicate Safe(s: State, key: string, envKey: string) {
    && s.apiKey == key && s.envKey == envKey && !s.pc.Crashed?
    && (Exposed(s) ==> s.comm.Some?)
  }

  /** Under a stable key a comm stays, and without one nothing new is exposed. */
  predicate Sheltered(s: State, t: State) {
    && t.apiKey == s.apiKey && t.envKey == s.envKey && t.factories == s.factories
    && (s.pc.Returned? ==> t.pc.Returned? || t.pc.Crashed?)
    && (s.comm.Some? ==> t.comm.Some? && !t.pc.Crashed?)
    && (s.comm.None? && t.comm.None? ==>
          && t.source == s.source && |t.senders| == |s.senders|
          && (forall i :: 0 <= i < |s.senders| && t.senders[i].phase.Spawned? ==> s.senders[i].phase.Spawned?)
          && (t.pc.Crashed? ==> Exposed(s)))
    && (s.comm.None? && t.comm.Some? ==> !t.pc.Crashed?)
  }

  lemma ShelteredWake(s: State, e: Event)
    requires Inv(s) && Enabled(s, Wake(e))
    requires e.ConfigChanged? ==> ResolveKey(e.view, s.envKey) == s.apiKey
    ensures Sheltered(s, Woken(s, e))
  {
    if e.DirectiveArrived? {
      DirectiveFrame(s, e.directive);
      if DirectiveCrashes(s, e.directive) {
        ReportsNeedsFactory(s.factories, e.directive.value);
      }
    }
  }

  lemma ReportsNeedsFactory(f: Factories, d: Directive)
    requires Reports(f, d)
    ensures f.rollouts || f.secrets
  {}

  lemma ShelteredSender(s: State, l: Label)
    requires Enabled(s, l) && IsEnvironment(l)
    ensures Sheltered(s, Next(s, l))
  {}

  lemma ShelteredStep(s: State, l: Label)
    requires Inv(s) && Enabled(s, l)
    requires l.Wake? && l.event.ConfigChanged? ==> ResolveKey(l.event.view, s.envKey) == s.apiKey
    ensures Sheltered(s, Next(s, l))
  {
    if IsEnvironment(l) {
      ShelteredSender(s, l);
    } else if l.Wake? {
      ShelteredWake(s, l.event);
    } else if l.Spawn? {
      ShelteredSpawn(s);
    } else if l.EnsureComm? {
      ShelteredDial(s, l.dialOk);
    } else {
      ShelteredMain(s, l);
    }
  }

  lemma ShelteredDial(s: State, ok: bool)
    requires Enabled(s, EnsureComm(ok))
    ensures Sheltered(s, WithComm(s, ok))
  {}

  lemma ShelteredMain(s: State, l: Label)
    requires Enabled(s, l) && !IsEnvironment(l) && !l.Wake? && !l.Spawn? && !l.EnsureComm?
    ensures Sheltered(s, Next(s, l))
  {}

  lemma ShelteredSpawn(s: State)
    requires Inv(s) && Enabled(s, Spawn)
    ensures Sheltered(s, Next(s, Spawn))
  {}

  lemma SafeStep(s: State, l: Label, key: string, envKey: string)
    requires Inv(s) && Enabled(s, l) && Safe(s, key, envKey)
    requires l.Wake? && l.event.ConfigChanged? ==> ResolveKey(l.event.view, envKey) == key
    ensures Safe(Next(s, l), key, envKey)
  {
    ShelteredStep(s, l);
    ExposedBefore(s, Next(s, l));
  }

  lemma ExposedBefore(s: State, t: State)
    requires Sheltered(s, t)
    ensures s.comm.None? && t.comm.None? && Exposed(t) ==> Exposed(s)
  {
    if i :| s.comm.None? && t.comm.None? && 0 <= i < |t.senders| && t.senders[i].phase.Spawned? {
      assert s.senders[i].phase.Spawned?;
    }
  }

  lemma {:induction false} SafeRun(s: State, labels: seq<Label>)
    requires Inv(s) && Safe(s, s.apiKey, s.envKey)
    requires Exec(s, labels).Some? && KeyIsStable(s.apiKey, s.envKey, labels)
    ensures Safe(Exec(s, labels).value, s.apiKey, s.envKey)
    decreases |labels|
  {
    if labels != [] {
      var n := |labels| - 1;
      SafeRun(s, labels[..n]);
      InvRun(s, labels[..n]);
      SafeStep(Exec(s, labels[..n]).value, labels[n], s.apiKey, s.envKey);
    }
  }

  /** Some continuation that never changes the key dereferences a nil comm. */
  ghost predicate MayCrash(s: State) {
    exists labels :: CrashesBy(s, labels)
  }

  predicate CrashesBy(s: State, labels: seq<Label>) {
    && Exec(s, labels).Some? && Exec(s, labels).value.pc.Crashed?
    && KeyIsStable(s.apiKey, s.envKey, labels)
  }

  /** Whatever happened before, however often the key changed, an agent whose key no longer changes can
      still dereference a nil comm if and only if it has none now and either a launched sender has not
      started or there is a channel left to take directives from. */
  lemma MayCrashExactly(s: State)
    requires Inv(s) && !s.pc.Crashed?
    ensures MayCrash(s) <==> s.comm.None? && Exposed(s)
  {
    if s.comm.None? && Exposed(s) {
      if i :| 0 <= i < |s.senders| && s.senders[i].phase.Spawned? {
        CrashByLateSender(s, i);
      } else {
        CrashByDirective(s);
      }
    } else if more :| CrashesBy(s, more) {
      SafeRun(s, more);
      assert false;
    }
  }

  lemma CrashByLateSender(s: State, i: nat)
    requires s.comm.None? && !s.pc.Crashed? && InPhase(s, i, Phase.Spawned)
    ensures MayCrash(s)
  {
    ExecSnoc(s, [], RpcStart(i));
    assert CrashesBy(s, [] + [RpcStart(i)]);
  }

  /** Walks to the loop head without dialling and takes one directive there. */
  lemma CrashByDirective(s: State)
    requires Inv(s) && s.comm.None? && s.source.Some? && !s.pc.Returned? && !s.pc.Crashed?
    requires s.factories.rollouts || s.factories.secrets
    ensures MayCrash(s)
  {
    var labels, t := WalkToSelect(s);
    var d := ReportingDirective(t);
    var l := Wake(DirectiveArrived(Some(d)));
    ExecSnoc(s, labels, l);
    assert KeyIsStable(s.apiKey, s.envKey, labels + [l]);
    assert CrashesBy(s, labels + [l]);
  }

  lemma ReportingDirective(t: State) returns (d: Directive)
    requires t.pc.Select? && t.comm.None? && t.source.Some? && (t.factories.rollouts || t.factories.secrets)
    ensures Enabled(t, Wake(DirectiveArrived(Some(d)))) && Next(t, Wake(DirectiveArrived(Some(d)))).pc.Crashed?
  {
    var command := if t.factories.rollouts
      then Command("", Some(RolloutSchema("r", "ns", 0, "1")), None)
      else Command("", None, Some(SecretSchema("s", "ns", 0, "1", map[])));
    d := Directive("d", false, None, [command]);
    assert Plan(t.factories, d.commands[0]).Some?;
    assert DirectiveCrashes(t, Some(d));
  }

  /** The rest of a pass that fails to dial. */
  lemma WalkToSelect(s: State) returns (labels: seq<Label>, t: State)
    requires Inv(s) && s.comm.None? && !s.pc.Returned? && !s.pc.Crashed?
    ensures Exec(s, labels) == Some(t) && forall k :: 0 <= k < |labels| ==> !labels[k].Wake?
    ensures t.pc.Select? && t.comm.None? && t.source == s.source && t.factories == s.factories
  {
    labels, t := [], s;
    if t.pc.Gate? {
      labels, t := Extend(s, labels, ReadGate);
    }
    if t.pc.Processing? {
      labels, t := Extend(s, labels, Process(Skipped));
    }
    if !t.pc.Select? {
      labels, t := GiveUpPass(s, labels, t);
    }
  }

  lemma GiveUpPass(s: State, labels: seq<Label>, t: State) returns (longer: seq<Label>, u: State)
    requires Exec(s, labels) == Some(t) && t.comm.None? && (t.pc.KeyCheck? || t.pc.Dialling?)
    requires forall k :: 0 <= k < |labels| ==> !labels[k].Wake?
    ensures Exec(s, longer) == Some(u) && forall k :: 0 <= k < |longer| ==> !longer[k].Wake?
    ensures u == t.(pc := Select)
  {
    longer, u := labels, t;
    if u.pc.KeyCheck? {
      longer, u := Extend(s, longer, CheckKey);
    }
    if u.pc.Dialling? {
      longer, u := Extend(s, longer, EnsureComm(false));
    }
  }

  predicate CommStays(s: State, key: string, envKey: string) {
    && s.apiKey == key && s.envKey == envKey && !s.pc.Crashed?
    && (s.source.Some? || s.senders != [] ==> s.comm.Some?)
  }

  /** While the key does not change, no run from the start ever dereferences a nil comm, or loses one. */
  lemma {:induction false} StableKeyNeverCrashes(s0: State, labels: seq<Label>)
    requires Init(s0) && Exec(s0, labels).Some? && KeyIsStable(s0.apiKey, s0.envKey, labels)
    ensures CommStays(Exec(s0, labels).value, s0.apiKey, s0.envKey)
    decreases |labels|
  {
    if labels != [] {
      var n := |labels| - 1;
      StableKeyNeverCrashes(s0, labels[..n]);
      InvRun(s0, labels[..n]);
      ShelteredStep(Exec(s0, labels[..n]).value, labels[n]);
    }
    SafeRun(s0, labels);
  }

  // ----- Runs that do dereference nil -----

  lemma Extend(s0: State, labels: seq<Label>, l: Label) returns (longer: seq<Label>, s: State)
    requires Exec(s0, labels).Some? && Enabled(Exec(s0, labels).value, l)
    ensures longer == labels + [l] && Exec(s0, longer) == Some(s)
    ensures s == Next(Exec(s0, labels).value, l)
  {
    ExecSnoc(s0, labels, l);
    longer, s := labels + [l], Next(Exec(s0, labels).value, l);
  }

  function FreshAgent(): State {
    State(Select, false, false, None, None, None, [], "key", "", None, [], None, DEFAULT_MIN_REPORT_PERIOD, "",
          Factories(true, true), DEFAULT_MIN_REPORT_PERIOD, [], 0)
  }

  /** The secret is emptied. */
  function KeyRemoved(): Label {
    Wake(ConfigChanged(ConfigView(Some(""), None)))
  }

  /** The first pass of the fresh agent up to the second gate, with the comm dialled. */
  lemma FirstDial(o: Outcome) returns (labels: seq<Label>, s: State)
    ensures Reached(FreshAgent(), labels, s)
    ensures s == WithComm(Processed(FreshAgent(), o), true)
  {
    var s0 := FreshAgent();
    labels, s := Extend(s0, [], Wake(Tick));
    labels, s := Extend(s0, labels, ReadGate);
    labels, s := Extend(s0, labels, Process(o));
    labels, s := Extend(s0, labels, CheckKey);
    labels, s := Extend(s0, labels, EnsureComm(true));
  }

  /** A directive that was already in the channel when the key was removed crashes the agent. */
  lemma DrainedDirectiveCrashes() returns (labels: seq<Label>, s: State)
    ensures Reached(FreshAgent(), labels, s) && s.pc.Crashed?
    ensures |labels| > 0 && labels[|labels| - 1].Wake? && labels[|labels| - 1].event.DirectiveArrived?
  {
    labels, s := KeyLostAfterDial();
    var command := Command("", Some(RolloutSchema("r", "ns", 0, "1")), None);
    var d := Directive("d", false, None, [command]);
    assert Plan(s.factories, d.commands[0]).Some?;
    labels, s := Extend(FreshAgent(), labels, Wake(DirectiveArrived(Some(d))));
  }

  lemma KeyLostAfterDial() returns (labels: seq<Label>, s: State)
    ensures Reached(FreshAgent(), labels, s)
    ensures s.pc.Select? && s.comm.None? && s.source.Some? && s.factories == Factories(true, true)
  {
    var s0 := FreshAgent();
    labels, s := FirstDial(Skipped);
    labels, s := Extend(s0, labels, ReadSendGate);
    labels, s := Extend(s0, labels, KeyRemoved());
    labels, s := Extend(s0, labels, ReadGate);
    labels, s := Extend(s0, labels, Process(Skipped));
    labels, s := Extend(s0, labels, CheckKey);
  }

  /** So does a sender that is scheduled only after the key was removed. */
  lemma LateSenderCrashes() returns (labels: seq<Label>, s: State)
    ensures Reached(FreshAgent(), labels, s) && s.pc.Crashed?
    ensures |labels| > 0 && labels[|labels| - 1].RpcStart?
  {
    labels, s := LaunchedOnce();
    labels, s := Extend(FreshAgent(), labels, KeyRemoved());
    labels, s := Extend(FreshAgent(), labels, RpcStart(0));
  }

  lemma LaunchedOnce() returns (labels: seq<Label>, s: State)
    ensures Reached(FreshAgent(), labels, s)
    ensures s.pc.Select? && s.comm == Some(0) && |s.connections| == 1 && s.apiKey == "key"
    ensures InPhase(s, 0, Phase.Spawned)
  {
    var s0 := FreshAgent();
    labels, s := FirstDial(Ready("id", [], []));
    labels, s := Extend(s0, labels, ReadSendGate);
    labels, s := Extend(s0, labels, StoreFlag);
    labels, s := Extend(s0, labels, Spawn);
    labels, s := Extend(s0, labels, Forget);
  }

  // ----- Promises of the package documentation that the loop does not keep -----

  /** A connection is made although no snapshot was ever identified. */
  lemma AnonymousDial() returns (labels: seq<Label>, s: State)
    ensures Reached(FreshAgent(), labels, s)
    ensures s.comm == Some(0) && s.connections == [Connection("key", None, true)]
  {
    labels, s := FirstDial(Skipped);
  }

  /** The reports launched so far, in order. */
  function Launched(s: State): seq<Bytes> {
    seq(|s.senders|, i requires 0 <= i < |s.senders| => CarriedBy(s.produced, s.senders[i]))
  }

  function CarriedBy(produced: seq<Bytes>, x: Sender): Bytes {
    if x.report.Some? && x.report.value < |produced| then produced[x.report.value] else []
  }

  /** At the loop head with a comm, a key, and nothing to do. */
  predicate Idle(s: State) {
    && s.pc.Select? && !s.stopped && !s.running && s.toSend.None? && s.comm.Some? && s.apiKey != ""
    && forall i :: 0 <= i < |s.senders| ==> s.senders[i].phase.Finished?
  }

  /** One pass that produces the report `r`, whatever it says, sends it and finishes sending it. */
  lemma SendOne(s0: State, labels: seq<Label>, s: State, r: Bytes) returns (longer: seq<Label>, t: State)
    requires Reached(s0, labels, s) && Idle(s)
    ensures Reached(s0, longer, t) && Idle(t)
    ensures Launched(t) == Launched(s) + [r]
  {
    ReachedInv(s0, labels, s);
    longer, t := LaunchOne(s0, labels, s, r);
    longer, t := FinishOne(s0, longer, t, |s.senders|);
  }

  lemma LaunchOne(s0: State, labels: seq<Label>, s: State, r: Bytes) returns (longer: seq<Label>, t: State)
    requires Reached(s0, labels, s) && Idle(s)
    ensures Reached(s0, longer, t) && t == Launching(s, r)
  {
    longer, t := ProduceOne(s0, labels, s, r);
    longer, t := Extend(s0, longer, ReadSendGate);
    longer, t := Extend(s0, longer, StoreFlag);
    longer, t := Extend(s0, longer, Spawn);
    longer, t := Extend(s0, longer, Forget);
  }

  lemma ProduceOne(s0: State, labels: seq<Label>, s: State, r: Bytes) returns (longer: seq<Label>, t: State)
    requires Reached(s0, labels, s) && Idle(s)
    ensures Reached(s0, longer, t)
    ensures t == s.(pc := SendGate, current := Some([]), agentID := Some("id"), produced := s.produced + [r],
                    toSend := Some(|s.produced|))
  {
    longer, t := Extend(s0, labels, Wake(Tick));
    longer, t := Extend(s0, longer, ReadGate);
    longer, t := Extend(s0, longer, Process(Ready("id", [], r)));
    longer, t := Extend(s0, longer, CheckKey);
    longer, t := Extend(s0, longer, EnsureComm(true));
  }

  /** The state once a sender for the new report `r` has been launched. */
  function Launching(s: State, r: Bytes): State {
    s.(current := Some([]), agentID := Some("id"), produced := s.produced + [r], running := true,
       senders := s.senders + [NewSender(s.(toSend := Some(|s.produced|)))])
  }

  lemma FinishOne(s0: State, labels: seq<Label>, s: State, i: nat) returns (longer: seq<Label>, t: State)
    requires Reached(s0, labels, s) && InPhase(s, i, Phase.Spawned) && s.comm.Some? && s.pc.Select?
    ensures Reached(s0, longer, t)
    ensures var done := s.senders[i].(phase := Phase.Finished, via := s.comm, start := s.now, end := s.now);
            t == WithSender(s, i, done).(running := false, now := t.now)
  {
    var wait := Max(s.senders[i].delay, 0);
    longer, t := Extend(s0, labels, RpcStart(i));
    longer, t := Extend(s0, longer, RpcDone(i));
    longer, t := Extend(s0, longer, Elapse(wait));
    longer, t := Extend(s0, longer, SleepDone(i));
    longer, t := Extend(s0, longer, ClearFlag(i));
  }

  lemma IdleStart() returns (labels: seq<Label>, s: State)
    ensures Reached(FreshAgent(), labels, s) && Idle(s)
    ensures Launched(s) == []
  {
    labels, s := FirstDial(Skipped);
    labels, s := Extend(FreshAgent(), labels, ReadSendGate);
  }

  /** The loop sends any reports at all, in any order and however often the same one: nothing compares a
      report with the one sent before it. */
  lemma {:induction false} AnyReportsAreSent(reports: seq<Bytes>) returns (labels: seq<Label>, s: State)
    ensures Reached(FreshAgent(), labels, s) && Idle(s)
    ensures Launched(s) == reports
    decreases |reports|
  {
    if reports == [] {
      labels, s := IdleStart();
    } else {
      var n := |reports| - 1;
      labels, s := AnyReportsAreSent(reports[..n]);
      labels, s := SendOne(FreshAgent(), labels, s, reports[n]);
      assert reports[..n] + [reports[n]] == reports;
    }
  }
}
