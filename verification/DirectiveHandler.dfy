/** The handler that carries out a directive: it adjusts the agent's flow control, runs the commands
    one after the other, and reports each result to the Director. */
module DirectiveHandler {
  import opened Prelude
  import opened Directives
  import opened ReportingLoop
  import opened AgentObject

  /** `env` is whatever the commands act on; `run` is what one execution does to it. */
  class BasicDirectiveHandler<E> {
    const factories: Factories
    const run: Runner<E>
    var env: E
    var reported: seq<CommandResult>

    constructor (factories: Factories, run: Runner<E>, env: E)
      ensures this.factories == factories && this.run == run && this.env == env && reported == []
    {
      this.factories := factories;
      this.run := run;
      this.env := env;
      reported := [];
    }

    /** Reports through the agent's comm; a nil comm is a crash. A failed call is only logged. */
    method ReportCommandResult(a: Agent, commandId: string, failure: Option<string>) returns (crashed: bool)
      modifies this`reported
      ensures crashed <==> a.comm.None?
      ensures reported == old(reported) + if crashed then [] else [ResultOf(commandId, failure)]
    {
      if a.comm.None? {
        return true;
      }
      var result := CommandResult(commandId, true, "");
      if failure.Some? {
        result := result.(success := false, message := failure.value);
      }
      reported := reported + [result];
      return false;
    }

    method HandleSecretSyncCommand(a: Agent, schema: SecretSchema) returns (crashed: bool)
      modifies this`env, this`reported
      ensures Carried(a, PlanSecret(factories, schema), old(env), old(reported), crashed)
    {
      if !factories.secrets {
        return false;
      }
      if schema.name == "" {
        return false;
      }
      if schema.namespace == "" {
        return false;
      }
      if schema.commandId == "" {
        return false;
      }
      var execution := SecretExecution(schema.name, schema.namespace, SecretActionName(schema.action), schema.secret);
      var (after, failure) := run(env, execution);
      env := after;
      crashed := ReportCommandResult(a, schema.commandId, failure);
    }

    method HandleRolloutCommand(a: Agent, schema: RolloutSchema) returns (crashed: bool)
      modifies this`env, this`reported
      ensures Carried(a, PlanRollout(factories, schema), old(env), old(reported), crashed)
    {
      if !factories.rollouts {
        return false;
      }
      if schema.name == "" {
        return false;
      }
      if schema.namespace == "" {
        return false;
      }
      if schema.commandId == "" {
        return false;
      }
      var execution := RolloutExecution(schema.name, schema.namespace, RolloutActionName(schema.action));
      var (after, failure) := run(env, execution);
      env := after;
      crashed := ReportCommandResult(a, schema.commandId, failure);
    }

    /** What one command leaves behind: nothing if it led to no execution; otherwise the execution
        was run once, and reported unless there was no comm to report through. */
    ghost predicate Carried(a: Agent, plan: Option<Planned>, e: E, before: seq<CommandResult>, crashed: bool)
      reads this, a
    {
      match plan
      case None => !crashed && env == e && reported == before
      case Some(p) =>
        && (crashed <==> a.comm.None?)
        && env == run(e, p.execution).0
        && reported == before + if crashed then [] else [ResultOf(p.commandId, run(e, p.execution).1)]
    }

    /** The directive's flow control and last-directive ID reach the agent, and its commands are run
        in order with one result each, unless a result finds no comm. In that case exactly the first
        executable command was run, nothing was reported, and the directive was not recorded. */
    method HandleDirective(a: Agent, directive: Option<Directive>) returns (crashed: bool)
      requires a.factories == factories
      modifies a`reportingStopped, a`minReportPeriod, a`lastDirectiveID, a`pc, this`env, this`reported
      ensures crashed <==> DirectiveCrashes(old(a.View()), directive)
      ensures a.View() == WithDirective(old(a.View()), directive)
      ensures directive.None? ==> env == old(env) && reported == old(reported)
      ensures directive.Some? && !crashed ==>
                && env == RunAll(run, factories, old(env), directive.value.commands).0
                && reported == old(reported) + RunAll(run, factories, old(env), directive.value.commands).1
      ensures crashed ==> FirstOnly(directive.value.commands, old(env), old(reported))
    {
      if directive.None? {
        return false;
      }
      var d := directive.value;
      ReportsWhenPlanned(factories, d);
      ApplyFlowControl(a, d);
      crashed := RunCommands(a, d.commands);
      if crashed {
        a.pc := Crashed;
        return;
      }
      a.SetLastDirectiveID(d.id);
    }

    /** Stops reporting and adjusts the period, if the directive says so. */
    method ApplyFlowControl(a: Agent, d: Directive)
      modifies a`reportingStopped, a`minReportPeriod
      ensures a.View() == WithFlowControl(old(a.View()), d)
    {
      if d.stopReporting {
        a.StopReporting();
      }
      if d.minReportPeriod.Some? {
        a.SetMinReportPeriod(Max(ToDuration(d.minReportPeriod.value), a.defaultMinReportPeriod));
      }
    }

    method RunCommands(a: Agent, commands: seq<Command>) returns (crashed: bool)
      modifies this`env, this`reported
      ensures crashed <==> a.comm.None? && PlannedAt(factories, commands) != []
      ensures !crashed ==> env == RunAll(run, factories, old(env), commands).0
      ensures !crashed ==> reported == old(reported) + RunAll(run, factories, old(env), commands).1
      ensures crashed ==> FirstOnly(commands, old(env), old(reported))
    {
      crashed := false;
      for i := 0 to |commands|
        invariant env == RunAll(run, factories, old(env), commands[..i]).0
        invariant reported == old(reported) + RunAll(run, factories, old(env), commands[..i]).1
        invariant a.comm.None? ==> PlannedAt(factories, commands[..i]) == []
      {
        assert commands[..i + 1][..i] == commands[..i] && commands[..i + 1][i] == commands[i];
        crashed := RunCommand(a, commands[i]);
        if crashed {
          PlannedAtPrefix(factories, commands, i + 1);
          NothingPlanned(run, factories, old(env), commands[..i]);
          return;
        }
      }
      assert commands[..|commands|] == commands;
    }

    method RunCommand(a: Agent, command: Command) returns (crashed: bool)
      modifies this`env, this`reported
      ensures Carried(a, Plan(factories, command), old(env), old(reported), crashed)
    {
      if command.rollout.Some? {
        crashed := HandleRolloutCommand(a, command.rollout.value);
      } else if command.secretSync.Some? {
        crashed := HandleSecretSyncCommand(a, command.secretSync.value);
      } else {
        crashed := false;
      }
    }

    /** Exactly the first executable command was run, and nothing was reported. */
    ghost predicate FirstOnly(commands: seq<Command>, e: E, before: seq<CommandResult>)
      reads this
    {
      var at := PlannedAt(factories, commands);
      && reported == before
      && at != [] && at[0] < |commands| && Plan(factories, commands[at[0]]).Some?
      && env == run(e, Plan(factories, commands[at[0]]).value.execution).0
    }
  }

  lemma ReportsWhenPlanned(f: Factories, d: Directive)
    ensures Reports(f, d) <==> PlannedAt(f, d.commands) != []
  {
    PlannedAtExact(f, d.commands);
    if PlannedAt(f, d.commands) != [] {
      assert IsPlanned(f, d.commands, PlannedAt(f, d.commands)[0]);
    }
    if Reports(f, d) {
      var i :| 0 <= i < |d.commands| && Plan(f, d.commands[i]).Some?;
      assert IsPlanned(f, d.commands, i);
    }
  }

  /** The executable commands of a prefix come first. */
  lemma {:induction false} PlannedAtPrefix(f: Factories, commands: seq<Command>, n: nat)
    requires n <= |commands|
    ensures PlannedAt(f, commands[..n]) <= PlannedAt(f, commands)
    decreases |commands|
  {
    if n == |commands| {
      assert commands[..n] == commands;
    } else {
      var front := commands[..|commands| - 1];
      assert front[..n] == commands[..n];
      PlannedAtPrefix(f, front, n);
    }
  }

  lemma {:induction false} NothingPlanned<E>(run: Runner<E>, f: Factories, e: E, commands: seq<Command>)
    requires PlannedAt(f, commands) == []
    ensures RunAll(run, f, e, commands) == (e, [])
    decreases |commands|
  {
    if commands != [] {
      NothingPlanned(run, f, e, commands[..|commands| - 1]);
    }
  }
}
