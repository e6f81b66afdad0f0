/** The agent object and the methods of the main loop that update it in place. */
module AgentObject {
  import opened Prelude
  import opened Directives
  import opened ReportingLoop

  class Agent {
    // Fields of the source's Agent.
    var reportingStopped: bool
    var lastDirectiveID: string
    var reportToSend: Option<nat>
    var reportRunning: bool
    var comm: Option<nat>
    var newDirective: Option<nat>
    var ambassadorAPIKey: string
    const ambassadorAPIKeyEnvVarValue: string
    var minReportPeriod: int64
    var currentSnapshot: Option<Bytes>
    var agentID: Option<Identity>

    // Its directive handler's configuration.
    const factories: Factories
    const defaultMinReportPeriod: int64

    // The world: connections dialled, reports produced, senders launched, and the clock.
    var connections: seq<Connection>
    var produced: seq<Bytes>
    var senders: seq<Sender>
    var now: int
    var pc: PC

    /** The object as a state of the transition system. */
    function View(): State
      reads this
    {
      State(pc, reportingStopped, reportRunning, reportToSend, currentSnapshot, agentID, produced,
            ambassadorAPIKey, ambassadorAPIKeyEnvVarValue, comm, connections, newDirective, minReportPeriod,
            lastDirectiveID, factories, defaultMinReportPeriod, senders, now)
    }

    /** NewAgent with the default directive handler and an environment from LoadEnv. */
    constructor (apiKey: string, reportPeriod: Option<int64>, factories: Factories)
      ensures Init(View())
      ensures ambassadorAPIKey == apiKey && ambassadorAPIKeyEnvVarValue == apiKey && this.factories == factories
      ensures defaultMinReportPeriod == DEFAULT_MIN_REPORT_PERIOD
      ensures minReportPeriod == EnvReportPeriod(reportPeriod)
    {
      reportingStopped, reportRunning := false, false;
      lastDirectiveID := "";
      reportToSend, comm, newDirective, currentSnapshot, agentID := None, None, None, None, None;
      ambassadorAPIKey, ambassadorAPIKeyEnvVarValue := apiKey, apiKey;
      minReportPeriod := EnvReportPeriod(reportPeriod);
      this.factories := factories;
      defaultMinReportPeriod := DEFAULT_MIN_REPORT_PERIOD;
      connections, produced, senders := [], [], [];
      now := 0;
      pc := Select;
    }

    method StopReporting()
      modifies this`reportingStopped
      ensures reportingStopped
    {
      reportingStopped := true;
    }

    method SetMinReportPeriod(period: int64)
      modifies this`minReportPeriod
      ensures minReportPeriod == period
    {
      minReportPeriod := period;
    }

    method SetLastDirectiveID(id: string)
      modifies this`lastDirectiveID
      ensures lastDirectiveID == id
    {
      lastDirectiveID := id;
    }

    /** Ends the current connection, if there is one. */
    method ClearComm()
      requires comm.Some? ==> comm.value < |connections|
      modifies this`comm, this`connections
      ensures View() == WithoutComm(old(View()))
    {
      if comm.Some? {
        connections := connections[comm.value := connections[comm.value].(open := false)];
        comm := None;
      }
    }

    method MaybeResetComm(newKey: string)
      requires comm.Some? ==> comm.value < |connections|
      modifies this`ambassadorAPIKey, this`comm, this`connections
      ensures View() == WithKey(old(View()), newKey)
    {
      if newKey != ambassadorAPIKey {
        ambassadorAPIKey := newKey;
        ClearComm();
      }
    }

    /** The key of the secret, else of the config map, else of the environment. */
    method HandleAPIKeyConfigChange(config: ConfigView)
      requires comm.Some? ==> comm.value < |connections|
      modifies this`ambassadorAPIKey, this`comm, this`connections
      ensures View() == WithKey(old(View()), ResolveKey(config, ambassadorAPIKeyEnvVarValue))
      ensures config.secret.Some? ==> ambassadorAPIKey == config.secret.value
      ensures config.secret.None? && config.configMap.Some? ==> ambassadorAPIKey == config.configMap.value
      ensures config.secret.None? && config.configMap.None? ==> ambassadorAPIKey == ambassadorAPIKeyEnvVarValue
    {
      if config.secret.None? {
        if config.configMap.None? {
          MaybeResetComm(ambassadorAPIKeyEnvVarValue);
          return;
        }
        MaybeResetComm(config.configMap.value);
        return;
      }
      MaybeResetComm(config.secret.value);
    }

    /** Turns a snapshot into the report to send next. `identity` is what GetIdentity makes of the
        snapshot's metadata, if it has any; `sanitized` and `marshalled` are what those two calls return. */
    method ProcessSnapshot(identity: Option<Identity>, sanitized: Option<Bytes>, marshalled: Option<Bytes>)
      returns (failed: bool)
      modifies this`agentID, this`currentSnapshot, this`produced, this`reportToSend
      ensures View() == Processed(old(View()), OutcomeOf(identity, sanitized, marshalled))
      ensures failed <==> identity.Some? && (sanitized.None? || marshalled.None?)
      ensures agentID == if identity.Some? then identity else old(agentID)
      ensures currentSnapshot == if identity.Some? && sanitized.Some? then sanitized else old(currentSnapshot)
      ensures identity.Some? && !failed ==>
                reportToSend == Some(|old(produced)|) && produced == old(produced) + [marshalled.value]
      ensures identity.None? || failed ==> reportToSend == old(reportToSend) && produced == old(produced)
    {
      if identity.None? {
        return false;
      }
      agentID := identity;
      if sanitized.None? {
        return true;
      }
      currentSnapshot := sanitized;
      if marshalled.None? {
        return true;
      }
      var report := |produced|;
      produced := produced + [marshalled.value];
      reportToSend := Some(report);
      return false;
    }

    /** Makes sure there is a comm, dialling one if needed. */
    method EnsureComm(dialOk: bool) returns (ready: bool)
      requires pc.Dialling?
      modifies this`comm, this`connections, this`newDirective, this`pc
      ensures View() == WithComm(old(View()), dialOk)
      ensures ready <==> pc.SendGate?
    {
      if comm.None? {
        if !dialOk {
          pc := Select;
          return false;
        }
        comm := Some(|connections|);
        connections := connections + [Connection(ambassadorAPIKey, agentID, true)];
        newDirective := comm;
      }
      pc := SendGate;
      return true;
    }

    /** One transition of a sender or of the clock. */
    method TakeOther(l: Label)
      requires IsEnvironment(l) && Enabled(View(), l)
      modifies this`pc, this`reportRunning, this`senders, this`now
      ensures View() == Next(old(View()), l)
      ensures pc == old(pc) || pc.Crashed?
      ensures SameLaunches(old(senders), senders)
    {
      match l
      case RpcStart(i) =>
        if comm.None? {
          pc := Crashed;
        } else {
          senders := senders[i := senders[i].(phase := Phase.Sending, via := comm, start := now)];
        }
      case RpcDone(i) => senders := senders[i := senders[i].(phase := Phase.Sleeping, end := now)];
      case SleepDone(i) => senders := senders[i := senders[i].(phase := Phase.Awake)];
      case ClearFlag(i) =>
        senders := senders[i := senders[i].(phase := Phase.Finished)];
        reportRunning := false;
      case Elapse(n) => now := now + n;
    }

    /** The other goroutines: takes the given transitions of senders and clock, skipping those that
        are not enabled, and extends the run `trace` from `s0` with the ones taken. */
    method Interfere(ghost s0: State, ghost trace: seq<Label>, others: seq<Label>)
      returns (ghost longer: seq<Label>)
      requires Exec(s0, trace) == Some(View())
      modifies this`pc, this`reportRunning, this`senders, this`now
      ensures Exec(s0, longer) == Some(View())
      ensures Grows(trace, longer)
      ensures pc == old(pc) || pc.Crashed?
      ensures SameLaunches(old(senders), senders)
    {
      longer := trace;
      for k := 0 to |others|
        invariant Exec(s0, longer) == Some(View())
        invariant Grows(trace, longer)
        invariant pc == old(pc) || pc.Crashed?
        invariant SameLaunches(old(senders), senders)
      {
        if IsEnvironment(others[k]) && Enabled(View(), others[k]) {
          ExecSnoc(s0, longer, others[k]);
          longer := longer + [others[k]];
          TakeOther(others[k]);
        }
      }
    }

    method MarkRunning(ghost s0: State, ghost trace: seq<Label>) returns (ghost longer: seq<Label>)
      requires pc.Storing? && Exec(s0, trace) == Some(View())
      modifies this`reportRunning, this`pc
      ensures longer == trace + [StoreFlag] && Exec(s0, longer) == Some(View())
      ensures pc.Spawning?
    {
      ExecSnoc(s0, trace, StoreFlag);
      longer := trace + [StoreFlag];
      reportRunning := true;
      pc := Spawning;
    }

    method LaunchSender(ghost s0: State, ghost trace: seq<Label>) returns (ghost longer: seq<Label>)
      requires pc.Spawning? && Exec(s0, trace) == Some(View())
      modifies this`senders, this`pc
      ensures longer == trace + [Spawn] && Exec(s0, longer) == Some(View())
      ensures pc.Forgetting?
      ensures |senders| == |old(senders)| + 1 && SameLaunches(old(senders), senders[..|old(senders)|])
      ensures Carries(senders[|old(senders)|], reportToSend, minReportPeriod, ambassadorAPIKey)
    {
      ExecSnoc(s0, trace, Spawn);
      longer := trace + [Spawn];
      senders := senders + [Sender(reportToSend, minReportPeriod, ambassadorAPIKey, comm, Phase.Spawned, None, 0, 0)];
      pc := Forgetting;
    }

    /** Forgets the report. */
    method ForgetReport(ghost s0: State, ghost trace: seq<Label>) returns (ghost longer: seq<Label>)
      requires pc.Forgetting? && Exec(s0, trace) == Some(View())
      modifies this`reportToSend, this`pc
      ensures longer == trace + [Forget] && Exec(s0, longer) == Some(View())
      ensures pc.Select? && reportToSend.None?
    {
      ExecSnoc(s0, trace, Forget);
      longer := trace + [Forget];
      reportToSend := None;
      pc := Select;
    }

    /** Launches a sender for the report and forgets it, with other goroutines running between
        setting the flag, launching, and forgetting. */
    method ReportSnapshot(ghost s0: State, ghost trace: seq<Label>, afterStore: seq<Label>, afterSpawn: seq<Label>)
      returns (ghost longer: seq<Label>)
      requires pc.Storing? && Exec(s0, trace) == Some(View())
      modifies this`pc, this`reportRunning, this`senders, this`now, this`reportToSend
      ensures Exec(s0, longer) == Some(View())
      ensures Grows(trace, longer)
      ensures pc.Select? || pc.Crashed?
      ensures |old(senders)| <= |senders| <= |old(senders)| + 1
      ensures SameLaunches(old(senders), senders[..|old(senders)|])
      ensures |senders| > |old(senders)| ==>
                Carries(senders[|old(senders)|], old(reportToSend), minReportPeriod, ambassadorAPIKey)
      ensures pc.Select? ==> |senders| > |old(senders)| && reportToSend.None?
    {
      longer := MarkRunning(s0, trace);
      ghost var marked := longer;
      longer := Interfere(s0, marked, afterStore);
      GrowsTransitive(trace, marked, longer);
      if !pc.Crashed? {
        ghost var before := longer;
        longer := LaunchAndForget(s0, before, afterSpawn);
        GrowsTransitive(trace, before, longer);
      }
    }

    method LaunchAndForget(ghost s0: State, ghost trace: seq<Label>, afterSpawn: seq<Label>)
      returns (ghost longer: seq<Label>)
      requires pc.Spawning? && Exec(s0, trace) == Some(View())
      modifies this`pc, this`reportRunning, this`senders, this`now, this`reportToSend
      ensures Exec(s0, longer) == Some(View())
      ensures Grows(trace, longer)
      ensures pc.Select? || pc.Crashed?
      ensures |senders| == |old(senders)| + 1 && SameLaunches(old(senders), senders[..|old(senders)|])
      ensures Carries(senders[|old(senders)|], old(reportToSend), minReportPeriod, ambassadorAPIKey)
      ensures pc.Select? ==> reportToSend.None?
    {
      longer := LaunchSender(s0, trace);
      ghost var launched := longer;
      longer := Interfere(s0, launched, afterSpawn);
      GrowsTransitive(trace, launched, longer);
      if !pc.Crashed? {
        ghost var before := longer;
        longer := ForgetReport(s0, before);
        GrowsTransitive(trace, before, longer);
      }
    }
  }

  /** The arguments a sender goroutine is launched with. */
  predicate Carries(x: Sender, report: Option<nat>, delay: int64, apiKey: string) {
    x.report == report && x.delay == delay && x.apiKey == apiKey
  }

  /** The same senders, wherever they have got to. */
  predicate SameLaunches(before: seq<Sender>, after: seq<Sender>) {
    |after| == |before| && forall i :: 0 <= i < |before| ==> SameLaunch(before[i], after[i])
  }

  lemma GrowsTransitive(a: seq<Label>, b: seq<Label>, c: seq<Label>)
    requires Grows(a, b) && Grows(b, c)
    ensures Grows(a, c)
  {
    forall k | |a| <= k < |c|
      ensures k < |b| ==> c[k] == b[k]
    {}
  }

  /** `longer` continues the run `trace` without a new event, snapshot or dial. */
  ghost predicate Grows(trace: seq<Label>, longer: seq<Label>) {
    && trace <= longer
    && forall k :: |trace| <= k < |longer| ==> !longer[k].Wake? && !longer[k].Process? && !longer[k].EnsureComm?
  }

  function OutcomeOf(identity: Option<Identity>, sanitized: Option<Bytes>, marshalled: Option<Bytes>): Outcome {
    if identity.None? then Skipped
    else if sanitized.None? then SanitizeFailed(identity.value)
    else if marshalled.None? then MarshalFailed(identity.value, sanitized.value)
    else Ready(identity.value, sanitized.value, marshalled.value)
  }
}
