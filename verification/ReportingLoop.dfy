/** The reporting loop as a transition system. The watch goroutine is cut into the points where it
    reads or writes something a sender goroutine also touches; each sender is cut into the start of
    its RPC, the end of the RPC, the end of its sleep and the clearing of the flag. Any sender
    transition, and any passage of time, may fall between any two points of the loop. */
module ReportingLoop {
  import opened Prelude
  import opened Directives
  import Runs

  // ----- State -----

  datatype Phase = Spawned | Sending | Sleeping | Awake | Finished

  /** A one-shot goroutine launched by ReportSnapshot. `report`, `delay` and `apiKey` are the
      arguments it captured and `launchComm` is the comm at that moment; `via` is the comm it read
      when it started its RPC. */
  datatype Sender = Sender(report: Option<nat>, delay: int, apiKey: string, launchComm: Option<nat>,
                           phase: Phase, via: Option<nat>, start: int, end: int)
  {
    predicate Started() { !phase.Spawned? }
    predicate Ended() { !phase.Spawned? && !phase.Sending? }
  }

  /** What GetIdentity finds in a snapshot's metadata. */
  type Identity = string

  /** What a sender captured when it was launched. */
  predicate SameLaunch(x: Sender, y: Sender) {
    y.report == x.report && y.delay == x.delay && y.apiKey == x.apiKey && y.launchComm == x.launchComm
  }

  /** Every connection ever dialled, with the key and the identity it was dialled with. */
  datatype Connection = Connection(apiKey: string, agentID: Option<Identity>, open: bool)

  datatype PC =
    | Select         // blocked waiting for an event
    | Gate           // about to read reportRunning before taking a snapshot
    | Processing     // taking and processing a snapshot
    | KeyCheck       // about to test the API key
    | Dialling       // about to make sure there is a comm
    | SendGate       // about to read reportRunning before sending
    | Storing        // in ReportSnapshot, about to set the flag
    | Spawning       // in ReportSnapshot, about to launch the sender
    | Forgetting     // in ReportSnapshot, about to forget the report
    | Returned       // the context was cancelled
    | Crashed        // a nil comm was dereferenced

  /** Reports are named by their position in `produced`, as the source names them by pointer. */
  datatype State = State(
    pc: PC,
    stopped: bool,
    running: bool,
    toSend: Option<nat>,
    current: Option<Bytes>,
    agentID: Option<Identity>,
    produced: seq<Bytes>,
    apiKey: string,
    envKey: string,
    comm: Option<nat>,
    connections: seq<Connection>,
    source: Option<nat>,        // whose channel newDirective is
    minPeriod: int64,
    lastDirective: string,
    factories: Factories,
    floor: int64,
    senders: seq<Sender>,
    now: int)

  /** Where the Agent starts after NewAgent and waitForAPIKey, with an environment from LoadEnv. */
  predicate Init(s: State) {
    && s.pc.Select? && !s.stopped && !s.running && s.toSend.None?
    && s.current.None? && s.agentID.None? && s.produced == []
    && s.comm.None? && s.connections == [] && s.source.None? && s.senders == []
    && s.minPeriod >= s.floor
  }

  // ----- Transitions -----

  /** The value under CLOUD_CONNECT_TOKEN in the secret and in the config map, if those exist; a
      resource without that entry yields the empty string. */
  datatype ConfigView = ConfigView(secret: Option<string>, configMap: Option<string>)

  function ResolveKey(v: ConfigView, envKey: string): string {
    if v.secret.Some? then v.secret.value
    else if v.configMap.Some? then v.configMap.value
    else envKey
  }

  datatype Event =
    | Cancelled
    | Tick
    | ConfigChanged(view: ConfigView)
    | DirectiveArrived(directive: Option<Directive>)

  /** What ProcessSnapshot made of the snapshot. */
  datatype Outcome =
    | Skipped                                        // nil snapshot, no metadata or no identity
    | SanitizeFailed(agentID: Identity)
    | MarshalFailed(agentID: Identity, snapshot: Bytes)
    | Ready(agentID: Identity, snapshot: Bytes, report: Bytes)

  datatype Label =
    | Wake(event: Event)
    | ReadGate
    | Process(outcome: Outcome)
    | CheckKey
    | EnsureComm(dialOk: bool)
    | ReadSendGate
    | StoreFlag
    | Spawn
    | Forget
    | RpcStart(i: nat)
    | RpcDone(i: nat)
    | SleepDone(i: nat)
    | ClearFlag(i: nat)
    | Elapse(nanos: nat)

  /** Transitions the watch goroutine does not take itself. */
  predicate IsEnvironment(l: Label) {
    l.RpcStart? || l.RpcDone? || l.SleepDone? || l.ClearFlag? || l.Elapse?
  }

  predicate InPhase(s: State, i: nat, p: Phase) {
    i < |s.senders| && s.senders[i].phase == p
  }

  predicate Enabled(s: State, l: Label) {
    && !s.pc.Crashed?
    && match l
       case Wake(e) => s.pc.Select? && (e.DirectiveArrived? ==> s.source.Some?)
       case ReadGate => s.pc.Gate?
       case Process(_) => s.pc.Processing?
       case CheckKey => s.pc.KeyCheck?
       case EnsureComm(_) => s.pc.Dialling?
       case ReadSendGate => s.pc.SendGate?
       case StoreFlag => s.pc.Storing?
       case Spawn => s.pc.Spawning?
       case Forget => s.pc.Forgetting?
       case RpcStart(i) => InPhase(s, i, Spawned)
       case RpcDone(i) => InPhase(s, i, Sending)
       case SleepDone(i) => InPhase(s, i, Sleeping) && s.now >= s.senders[i].end + s.senders[i].delay
       case ClearFlag(i) => InPhase(s, i, Awake)
       case Elapse(_) => true
  }

  /** ClearComm. */
  function WithoutComm(s: State): State {
    if s.comm.Some? && s.comm.value < |s.connections| then
      s.(comm := None, connections := s.connections[s.comm.value := s.connections[s.comm.value].(open := false)])
    else s.(comm := None)
  }

  /** maybeResetComm. */
  function WithKey(s: State, key: string): State {
    if key != s.apiKey then WithoutComm(s.(apiKey := key)) else s
  }

  /** The flow control part of a directive. */
  function WithFlowControl(s: State, d: Directive): State {
    var s1 := if d.stopReporting then s.(stopped := true) else s;
    match d.minReportPeriod
    case None => s1
    case Some(p) => s1.(minPeriod := HonouredPeriod(p, s.floor))
  }

  /** Handling a directive dereferences the comm once per executable command. */
  predicate DirectiveCrashes(s: State, d: Option<Directive>) {
    d.Some? && s.comm.None? && Reports(s.factories, d.value)
  }

  function WithDirective(s: State, d: Option<Directive>): State {
    if d.None? then s
    else if DirectiveCrashes(s, d) then WithFlowControl(s, d.value).(pc := Crashed)
    else WithFlowControl(s, d.value).(lastDirective := d.value.id)
  }

  function Woken(s: State, e: Event): State {
    match e
    case Cancelled => s.(pc := Returned)
    case Tick => s.(pc := Gate)
    case ConfigChanged(v) => WithKey(s, ResolveKey(v, s.envKey)).(pc := Gate)
    case DirectiveArrived(d) =>
      var t := WithDirective(s, d);
      if t.pc.Crashed? then t else t.(pc := Gate)
  }

  function Processed(s: State, o: Outcome): State {
    match o
    case Skipped => s
    case SanitizeFailed(id) => s.(agentID := Some(id))
    case MarshalFailed(id, sn) => s.(agentID := Some(id), current := Some(sn))
    case Ready(id, sn, r) =>
      s.(agentID := Some(id), current := Some(sn), produced := s.produced + [r], toSend := Some(|s.produced|))
  }

  function WithComm(s: State, dialOk: bool): State {
    if s.comm.Some? then s.(pc := SendGate)
    else if dialOk then
      s.(pc := SendGate, comm := Some(|s.connections|), source := Some(|s.connections|),
         connections := s.connections + [Connection(s.apiKey, s.agentID, true)])
    else s.(pc := Select)
  }

  function NewSender(s: State): Sender {
    Sender(s.toSend, s.minPeriod, s.apiKey, s.comm, Phase.Spawned, None, 0, 0)
  }

  function WithSender(s: State, i: nat, x: Sender): State
    requires i < |s.senders|
  {
    s.(senders := s.senders[i := x])
  }

  function Next(s: State, l: Label): State
    requires Enabled(s, l)
  {
    match l
    case Wake(e) => Woken(s, e)
    case ReadGate => s.(pc := if !s.stopped && !s.running then Processing else KeyCheck)
    case Process(o) => Processed(s, o).(pc := KeyCheck)
    case CheckKey => s.(pc := if s.apiKey == "" then Select else Dialling)
    case EnsureComm(ok) => WithComm(s, ok)
    case ReadSendGate => s.(pc := if !s.stopped && !s.running && s.toSend.Some? then Storing else Select)
    case StoreFlag => s.(running := true, pc := Spawning)
    case Spawn => s.(senders := s.senders + [NewSender(s)], pc := Forgetting)
    case Forget => s.(toSend := None, pc := Select)
    case RpcStart(i) =>
      if s.comm.None? then s.(pc := Crashed)
      else WithSender(s, i, s.senders[i].(phase := Phase.Sending, via := s.comm, start := s.now))
    case RpcDone(i) => WithSender(s, i, s.senders[i].(phase := Phase.Sleeping, end := s.now))
    case SleepDone(i) => WithSender(s, i, s.senders[i].(phase := Phase.Awake))
    case ClearFlag(i) => WithSender(s, i, s.senders[i].(phase := Phase.Finished)).(running := false)
    case Elapse(n) => s.(now := s.now + n)
  }

  function Step(s: State, l: Label): Option<State> {
    if Enabled(s, l) then Some(Next(s, l)) else None
  }

  /** The state a run leads to. */
  function Exec(s: State, labels: seq<Label>): Option<State> {
    Runs.Exec(Step, s, labels)
  }

  /** Runs extend one label at a time. */
  lemma ExecSnoc(s: State, labels: seq<Label>, l: Label)
    requires Exec(s, labels).Some? && Enabled(Exec(s, labels).value, l)
    ensures Exec(s, labels + [l]) == Some(Next(Exec(s, labels).value, l))
  {
    Runs.ExecSnoc(Step, s, labels, l);
  }
}
