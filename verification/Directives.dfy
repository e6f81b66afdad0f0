/** What the Director sends, and what one directive amounts to: the flow control it asks for and
    the commands it makes the agent execute and report. */
module Directives {
  import opened Prelude

  const MIN64: int := -0x8000_0000_0000_0000
  const MAX64: int := 0x7FFF_FFFF_FFFF_FFFF
  type int64 = x: int | MIN64 <= x <= MAX64
  type int32 = x: int | -0x8000_0000 <= x <= 0x7FFF_FFFF

  const NANOS_PER_SECOND := 1_000_000_000

  /** defaultMinReportPeriod: thirty seconds. */
  const DEFAULT_MIN_REPORT_PERIOD: int64 := 30 * NANOS_PER_SECOND

  datatype ProtoDuration = ProtoDuration(seconds: int64, nanos: int32)

  datatype RolloutSchema = RolloutSchema(name: string, namespace: string, action: int32, commandId: string)

  datatype SecretSchema = SecretSchema(name: string, namespace: string, action: int32, commandId: string,
                                       secret: map<string, Bytes>)

  /** A command holds two pointers, either of which may be nil. */
  datatype Command = Command(message: string, rollout: Option<RolloutSchema>, secretSync: Option<SecretSchema>)

  datatype Directive = Directive(id: string, stopReporting: bool, minReportPeriod: Option<ProtoDuration>,
                                 commands: seq<Command>)

  // ----- The reporting period a directive asks for -----

  /** Two's-complement wrap-around of an int64 operation. */
  function Wrap64(x: int): (w: int64)
    ensures MIN64 <= x <= MAX64 ==> w == x
  {
    (x - MIN64) % 0x1_0000_0000_0000_0000 + MIN64
  }

  /** The conversion of the handler, each int64 operation wrapping on its own. */
  function ToDuration(p: ProtoDuration): int64 {
    Wrap64(Wrap64(p.seconds * NANOS_PER_SECOND) + p.nanos)
  }

  function HonouredPeriod(p: ProtoDuration, floor: int64): int64 {
    Max(ToDuration(p), floor)
  }

  /** The mathematical value of the duration. */
  function ExactNanos(p: ProtoDuration): int {
    p.seconds * NANOS_PER_SECOND + p.nanos
  }

  lemma WrapAgain(a: int, b: int)
    ensures Wrap64(Wrap64(a) + b) == Wrap64(a + b)
  {
    var m := 0x1_0000_0000_0000_0000;
    var q := (a - MIN64) / m;
    assert Wrap64(a) == a - q * m;
    assert (Wrap64(a) + b - MIN64) == (a + b - MIN64) - q * m;
    var x := a + b - MIN64;
    assert (x - q * m) % m == x % m by {
      assert x == (x / m) * m + x % m;
      assert x - q * m == (x / m - q) * m + x % m;
    }
  }

  /** Whatever the request, what it is converted to is the one int64 a whole number of int64 ranges away
      from it. */
  lemma ConversionIsCongruent(p: ProtoDuration, x: int64)
    ensures ToDuration(p) == x <==> exists k :: ExactNanos(p) == x + k * 0x1_0000_0000_0000_0000
  {
    var e, m := ExactNanos(p), 0x1_0000_0000_0000_0000;
    WrapAgain(p.seconds * NANOS_PER_SECOND, p.nanos);
    var q := (e - MIN64) / m;
    assert ToDuration(p) == Wrap64(e) == e - q * m;
    if k :| e == x + k * m {
      assert k * m - q * m == (k - q) * m;
      assert k == q;
    }
  }

  /** Some whole number of int64 ranges below a duration that an int64 holds and that is at most the floor. */
  ghost predicate FarBelow(nanos: int, floor: int64) {
    exists k :: k >= 1 && MIN64 <= nanos + k * 0x1_0000_0000_0000_0000 <= floor
  }

  /** The period honoured is the requested one raised to the floor exactly when the request fits an
      int64, or lies so far below the range that it wraps to something under the floor. */
  lemma PeriodHonouredExactly(p: ProtoDuration, floor: int64)
    ensures HonouredPeriod(p, floor) >= floor
    ensures HonouredPeriod(p, floor) == Max(ExactNanos(p), floor)
       <==> (MIN64 <= ExactNanos(p) <= MAX64 || FarBelow(ExactNanos(p), floor))
  {
    var x, m := ExactNanos(p), 0x1_0000_0000_0000_0000;
    WrapAgain(p.seconds * NANOS_PER_SECOND, p.nanos);
    var q := (x - MIN64) / m;
    assert Wrap64(x) == x - q * m;
    if FarBelow(x, floor) {
      var k :| k >= 1 && MIN64 <= x + k * m <= floor;
      assert (q + k) * m == q * m + k * m;
      assert q == -k;
    }
    if x < MIN64 && Wrap64(x) <= floor {
      assert -q >= 1 && MIN64 <= x + (-q) * m <= floor;
    }
  }

  /** A request the wrap-around distorts: ten thousand million seconds come out as a period that
      is not the requested one. */
  lemma OverflowingPeriod()
    ensures var p := ProtoDuration(10_000_000_000, 0);
            HonouredPeriod(p, DEFAULT_MIN_REPORT_PERIOD) != Max(ExactNanos(p), DEFAULT_MIN_REPORT_PERIOD)
  {
    PeriodHonouredExactly(ProtoDuration(10_000_000_000, 0), DEFAULT_MIN_REPORT_PERIOD);
  }

  /** The report-period parser of the environment: nothing set gives the default, and a parsed
      value is raised to it. */
  function EnvReportPeriod(parsed: Option<int64>): (r: int64)
    ensures r >= DEFAULT_MIN_REPORT_PERIOD
    ensures parsed.Some? && parsed.value >= DEFAULT_MIN_REPORT_PERIOD ==> r == parsed.value
  {
    match parsed
    case None => DEFAULT_MIN_REPORT_PERIOD
    case Some(period) => Max(DEFAULT_MIN_REPORT_PERIOD, period)
  }

  // ----- What a command makes the agent do -----

  /** One run against the cluster. */
  datatype Execution =
    | RolloutExecution(rolloutName: string, rolloutNamespace: string, rolloutAction: string)
    | SecretExecution(name: string, namespace: string, action: string, secret: map<string, Bytes>)

  datatype Planned = Planned(commandId: string, execution: Execution)

  /** Which of the two getter factories the handler was built with. */
  datatype Factories = Factories(rollouts: bool, secrets: bool)

  /** The generated enum-to-name tables: an unknown number maps to the empty string. */
  function RolloutActionName(action: int32): string {
    if action == 0 then "PAUSE" else if action == 1 then "RESUME" else if action == 2 then "ABORT" else ""
  }

  function SecretActionName(action: int32): string {
    if action == 0 then "SET" else if action == 1 then "DELETE" else ""
  }

  predicate WellFormed(name: string, namespace: string, commandId: string) {
    name != "" && namespace != "" && commandId != ""
  }

  function PlanRollout(f: Factories, r: RolloutSchema): Option<Planned> {
    if f.rollouts && WellFormed(r.name, r.namespace, r.commandId)
    then Some(Planned(r.commandId, RolloutExecution(r.name, r.namespace, RolloutActionName(r.action))))
    else None
  }

  function PlanSecret(f: Factories, s: SecretSchema): Option<Planned> {
    if f.secrets && WellFormed(s.name, s.namespace, s.commandId)
    then Some(Planned(s.commandId, SecretExecution(s.name, s.namespace, SecretActionName(s.action), s.secret)))
    else None
  }

  /** What a command leads to, if anything. A rollout pointer hides the secret pointer, even when
      the rollout command is malformed. */
  function Plan(f: Factories, c: Command): Option<Planned> {
    if c.rollout.Some? then PlanRollout(f, c.rollout.value)
    else if c.secretSync.Some? then PlanSecret(f, c.secretSync.value)
    else None
  }

  /** Does the directive make the handler call the Director back? */
  predicate Reports(f: Factories, d: Directive) {
    exists i :: 0 <= i < |d.commands| && Plan(f, d.commands[i]).Some?
  }

  datatype CommandResult = CommandResult(commandId: string, success: bool, message: string)

  /** The outcome of running an execution: the new environment and the error, if any. */
  type Runner<!E> = (E, Execution) -> (E, Option<string>)

  function ResultOf(commandId: string, failure: Option<string>): CommandResult {
    if failure.Some? then CommandResult(commandId, false, failure.value)
    else CommandResult(commandId, true, "")
  }

  /** Runs the commands in order from environment `e`: the final environment and the results. */
  function RunAll<E>(run: Runner<E>, f: Factories, e: E, commands: seq<Command>): (E, seq<CommandResult>)
    decreases |commands|
  {
    if commands == [] then (e, [])
    else
      var n := |commands| - 1;
      var (e1, results) := RunAll(run, f, e, commands[..n]);
      match Plan(f, commands[n])
      case None => (e1, results)
      case Some(p) =>
        var (e2, failure) := run(e1, p.execution);
        (e2, results + [ResultOf(p.commandId, failure)])
  }

  /** The positions of the commands that lead to an execution, in order. */
  function PlannedAt(f: Factories, commands: seq<Command>): seq<nat>
    decreases |commands|
  {
    if commands == [] then []
    else
      var n := |commands| - 1;
      PlannedAt(f, commands[..n]) + if Plan(f, commands[n]).Some? then [n] else []
  }

  predicate IsPlanned(f: Factories, commands: seq<Command>, i: int) {
    0 <= i < |commands| && Plan(f, commands[i]).Some?
  }

  lemma PlannedInFront(f: Factories, commands: seq<Command>, n: nat, i: int)
    requires n <= |commands|
    ensures IsPlanned(f, commands[..n], i) <==> i < n && IsPlanned(f, commands, i)
  {}

  /** PlannedAt lists exactly the positions of executable commands, each once, ascending. */
  lemma {:induction false} PlannedAtExact(f: Factories, commands: seq<Command>)
    ensures forall k :: 0 <= k < |PlannedAt(f, commands)| ==> IsPlanned(f, commands, PlannedAt(f, commands)[k])
    ensures forall j, k :: 0 <= j < k < |PlannedAt(f, commands)| ==>
              PlannedAt(f, commands)[j] < PlannedAt(f, commands)[k]
    ensures forall i :: IsPlanned(f, commands, i) ==> i in PlannedAt(f, commands)
    decreases |commands|
  {
    if commands != [] {
      var n := |commands| - 1;
      PlannedAtExact(f, commands[..n]);
      forall i
        ensures IsPlanned(f, commands[..n], i) <==> i < n && IsPlanned(f, commands, i)
      {
        PlannedInFront(f, commands, n, i);
      }
    }
  }

  /** One result per executable command, in command order, carrying that command's ID, and
      successful exactly when its run, from the environment the earlier commands left, returned
      no error. */
  lemma {:induction false} OneResultPerCommand<E>(run: Runner<E>, f: Factories, e: E, commands: seq<Command>)
    ensures |RunAll(run, f, e, commands).1| == |PlannedAt(f, commands)|
    ensures forall k :: 0 <= k < |PlannedAt(f, commands)| ==>
              ResultFits(run, f, e, commands, PlannedAt(f, commands)[k], RunAll(run, f, e, commands).1[k])
    decreases |commands|
  {
    if commands != [] {
      var n := |commands| - 1;
      var front := commands[..n];
      OneResultPerCommand(run, f, e, front);
      forall k | 0 <= k < |PlannedAt(f, front)|
        ensures ResultFits(run, f, e, commands, PlannedAt(f, front)[k], RunAll(run, f, e, front).1[k])
      {
        assert front[..PlannedAt(f, front)[k]] == commands[..PlannedAt(f, front)[k]];
      }
    }
  }

  /** The result is the one for the command at position `i`, run after the commands before it. */
  predicate ResultFits<E>(run: Runner<E>, f: Factories, e: E, commands: seq<Command>, i: nat, result: CommandResult) {
    && IsPlanned(f, commands, i)
    && var p := Plan(f, commands[i]).value;
       var failure := run(RunAll(run, f, e, commands[..i]).0, p.execution).1;
       && result.commandId == p.commandId
       && (result.success <==> failure.None?)
       && result.message == if failure.Some? then failure.value else ""
  }
}
