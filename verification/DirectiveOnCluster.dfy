/** Directives whose commands act on a cluster: its secrets and its rollouts. */
module DirectiveOnCluster {
  import opened Prelude
  import opened Directives
  import S = Secrets
  import R = Rollouts

  datatype World = World(secrets: S.Store, rollouts: R.Fleet)

  /** Which calls are refused, and how errors read. */
  datatype Conditions = Conditions(secretFaults: S.Faults, rolloutFaults: R.Faults,
                                   describeSecret: S.SyncError -> string, describeRollout: R.RolloutError -> string)

  /** Runs commands against the cluster. */
  function ClusterRunner(c: Conditions): Runner<World> {
    (w: World, x: Execution) =>
      match x
      case RolloutExecution(name, namespace, action) =>
        var (after, err) := R.Acted(R.RolloutCommand(namespace, name, action), w.rollouts, c.rolloutFaults);
        (w.(rollouts := after), if err.None? then None else Some(c.describeRollout(err.value)))
      case SecretExecution(name, namespace, action, secret) =>
        var (after, r) := S.Synced(S.SyncCommand(name, namespace, action, secret), w.secrets, c.secretFaults);
        (w.(secrets := after), if r.Ok? then None else Some(c.describeSecret(r.error)))
  }

  // ----- One command -----

  lemma RunOne<E>(run: Runner<E>, f: Factories, e: E, c: Command)
    ensures Plan(f, c).None? ==> RunAll(run, f, e, [c]) == (e, [])
    ensures Plan(f, c).Some? ==>
              var p := Plan(f, c).value;
              RunAll(run, f, e, [c]) == (run(e, p.execution).0, [ResultOf(p.commandId, run(e, p.execution).1)])
  {
    assert [c][..0] == [];
    assert RunAll(run, f, e, []) == (e, []);
    if Plan(f, c).Some? {
      var r := ResultOf(Plan(f, c).value.commandId, run(e, Plan(f, c).value.execution).1);
      assert [] + [r] == [r];
    }
  }

  /** A well-formed rollout command, whatever stands beside it, changes no secret and no other rollout.
      Numbers 0, 1 and 2 pause, resume and abort the rollout it names by namespace and name; it reports
      once, with its own ID, and successfully exactly if that rollout exists and the number is one of
      these. */
  lemma RolloutCommandActs(f: Factories, r: RolloutSchema, message: string, beside: Option<SecretSchema>, w: World,
                           c: Conditions)
    requires f.rollouts && r.name != "" && r.namespace != "" && r.commandId != "" && c.rolloutFaults == R.NO_FAULTS
    ensures var (after, results) := RunAll(ClusterRunner(c), f, w, [Command(message, Some(r), beside)]);
            var at := (r.namespace, r.name);
            && after.secrets == w.secrets
            && after.rollouts ==
                 (if at !in w.rollouts then w.rollouts
                  else if r.action == 0 then w.rollouts[at := w.rollouts[at].(paused := true)]
                  else if r.action == 1 then w.rollouts[at := w.rollouts[at].(paused := false, aborted := false)]
                  else if r.action == 2 then w.rollouts[at := w.rollouts[at].(aborted := true)]
                  else w.rollouts)
            && |results| == 1 && results[0].commandId == r.commandId
            && (results[0].success <==> at in w.rollouts && 0 <= r.action <= 2)
  {
    RunOne(ClusterRunner(c), f, w, Command(message, Some(r), beside));
    ActionNames();
    assert Plan(f, Command(message, Some(r), beside))
        == Some(Planned(r.commandId, RolloutExecution(r.name, r.namespace, RolloutActionName(r.action))));
    var c := R.RolloutCommand(r.namespace, r.name, RolloutActionName(r.action));
    var (after, err) := R.Acted(c, w.rollouts, R.NO_FAULTS);
    assert !R.StatusFails(R.NO_FAULTS);
    assert r.action == 0 ==> RolloutActionName(r.action) == R.PAUSE;
    assert r.action == 1 ==> RolloutActionName(r.action) == R.RESUME;
    assert r.action == 2 ==> RolloutActionName(r.action) == R.ABORT;
    assert !(0 <= r.action <= 2) ==> RolloutActionName(r.action) == "";
    assert err.None? <==> (r.namespace, r.name) in w.rollouts && 0 <= r.action <= 2;
    assert err.Some? ==> after == w.rollouts;
  }

  /** The names of the actions are three different ones, and none of them is empty. */
  lemma ActionNames()
    ensures R.PAUSE != "" && R.RESUME != "" && R.ABORT != ""
    ensures R.PAUSE != R.RESUME && R.RESUME != R.ABORT && R.ABORT != R.PAUSE
  {
    assert R.PAUSE[0] == 'P' && R.RESUME[0] == 'R' && R.ABORT[0] == 'A';
  }

  /** A rollout command that is malformed, or comes without a factory, changes nothing and reports
      nothing, even with a well-formed secret command beside it. */
  lemma MalformedRolloutDoesNothing(f: Factories, r: RolloutSchema, message: string, beside: Option<SecretSchema>,
                                    w: World, c: Conditions)
    requires !f.rollouts || r.name == "" || r.namespace == "" || r.commandId == ""
    ensures RunAll(ClusterRunner(c), f, w, [Command(message, Some(r), beside)]) == (w, [])
  {
    RunOne(ClusterRunner(c), f, w, Command(message, Some(r), beside));
  }

  /** A well-formed secret command changes no rollout and no other secret. Number 0 overrides the data of
      the secret it names, or creates it; number 1 takes the named keys away if all are there. It reports
      once, with its own ID. */
  lemma SecretCommandActs(f: Factories, s: SecretSchema, message: string, w: World, c: Conditions)
    requires f.secrets && s.name != "" && s.namespace != "" && s.commandId != "" && c.secretFaults == S.NO_FAULTS
    ensures var (after, results) := RunAll(ClusterRunner(c), f, w, [Command(message, None, Some(s))]);
            var at := (s.namespace, s.name);
            && after.rollouts == w.rollouts
            && after.secrets - {at} == w.secrets - {at}
            && (s.action == 0 ==>
                  after.secrets == S.After(S.SyncCommand(s.name, s.namespace, S.SET, s.secret), w.secrets))
            && (s.action == 1 ==>
                  after.secrets == S.After(S.SyncCommand(s.name, s.namespace, S.DELETE, s.secret), w.secrets))
            && (s.action !in {0, 1} && at in w.secrets ==> after.secrets == w.secrets)
            && |results| == 1 && results[0].commandId == s.commandId
            && (results[0].success <==>
                  s.action == 0 || at !in w.secrets || (s.action == 1 && s.secret.Keys <= w.secrets[at].data.Keys))
  {
    RunOne(ClusterRunner(c), f, w, Command(message, None, Some(s)));
    S.OthersUntouched(S.SyncCommand(s.name, s.namespace, SecretActionName(s.action), s.secret), w.secrets, S.NO_FAULTS);
  }

  /** A secret command that is malformed, or comes without a factory, changes nothing and reports
      nothing; nor does a command that is neither. */
  lemma MalformedSecretDoesNothing(f: Factories, s: Option<SecretSchema>, message: string, w: World, c: Conditions)
    requires s.None? || !f.secrets || s.value.name == "" || s.value.namespace == "" || s.value.commandId == ""
    ensures RunAll(ClusterRunner(c), f, w, [Command(message, None, s)]) == (w, [])
  {
    RunOne(ClusterRunner(c), f, w, Command(message, None, s));
  }

  // ----- Whole directives -----

  /** Running commands one after the other is running the first ones and then the rest, each in the world
      the earlier ones left, with the results in that order. */
  lemma {:induction false} RunInTurn<E>(run: Runner<E>, f: Factories, e: E, first: seq<Command>, rest: seq<Command>)
    ensures var (middle, results) := RunAll(run, f, e, first);
            var (after, more) := RunAll(run, f, middle, rest);
            RunAll(run, f, e, first + rest) == (after, results + more)
    decreases |rest|
  {
    if rest == [] {
      assert first + rest == first;
      var (middle, results) := RunAll(run, f, e, first);
      assert results + [] == results;
    } else {
      var n := |rest| - 1;
      assert (first + rest)[..|first + rest| - 1] == first + rest[..n];
      RunInTurn(run, f, e, first, rest[..n]);
      var (middle, results) := RunAll(run, f, e, first);
      var more := RunAll(run, f, middle, rest[..n]).1;
      assert (first + rest)[|first + rest| - 1] == rest[n];
      assert forall x :: (results + more) + [x] == results + (more + [x]);
    }
  }

  /** The secret a command is about, if it is an executable secret command. */
  predicate About(f: Factories, c: Command, at: (string, string)) {
    c.rollout.None? && c.secretSync.Some? && (c.secretSync.value.namespace, c.secretSync.value.name) == at
    && PlanSecret(f, c.secretSync.value).Some?
  }

  /** The rollout a command is about, if it is an executable rollout command. */
  predicate AboutRollout(f: Factories, c: Command, at: (string, string)) {
    c.rollout.Some? && (c.rollout.value.namespace, c.rollout.value.name) == at && PlanRollout(f, c.rollout.value).Some?
  }

  predicate SameAt<T(==)>(before: map<(string, string), T>, after: map<(string, string), T>, at: (string, string)) {
    (at in after <==> at in before) && (at in before ==> after[at] == before[at])
  }

  /** A directive leaves alone every secret that none of its executable secret commands names, whatever
      faults occur and however many commands it has. */
  lemma {:induction false} OtherSecretsUntouched(f: Factories, c: Conditions, w: World, commands: seq<Command>,
                                                 at: (string, string))
    requires forall i :: 0 <= i < |commands| ==> !About(f, commands[i], at)
    ensures SameAt(w.secrets, RunAll(ClusterRunner(c), f, w, commands).0.secrets, at)
    decreases |commands|
  {
    if commands != [] {
      var n := |commands| - 1;
      OtherSecretsUntouched(f, c, w, commands[..n], at);
      assert !About(f, commands[n], at);
      OneLeavesSecret(f, c, RunAll(ClusterRunner(c), f, w, commands[..n]).0, commands[n], at);
    }
  }

  lemma OneLeavesSecret(f: Factories, c: Conditions, w: World, command: Command, at: (string, string))
    requires !About(f, command, at)
    ensures Plan(f, command).Some? ==>
              SameAt(w.secrets, ClusterRunner(c)(w, Plan(f, command).value.execution).0.secrets, at)
  {
    var p := Plan(f, command);
    if p.Some? && p.value.execution.SecretExecution? {
      var x := p.value.execution;
      var sync := S.SyncCommand(x.name, x.namespace, x.action, x.secret);
      S.OthersUntouched(sync, w.secrets, c.secretFaults);
      var after := S.Synced(sync, w.secrets, c.secretFaults).0;
      assert at in after <==> at in after - {S.Location(sync)};
      assert at in w.secrets <==> at in w.secrets - {S.Location(sync)};
      if at in w.secrets {
        assert (after - {S.Location(sync)})[at] == (w.secrets - {S.Location(sync)})[at];
      }
    }
  }

  /** And every rollout that none of its executable rollout commands names. */
  lemma {:induction false} OtherRolloutsUntouched(f: Factories, c: Conditions, w: World, commands: seq<Command>,
                                                  at: (string, string))
    requires forall i :: 0 <= i < |commands| ==> !AboutRollout(f, commands[i], at)
    ensures SameAt(w.rollouts, RunAll(ClusterRunner(c), f, w, commands).0.rollouts, at)
    decreases |commands|
  {
    if commands != [] {
      var n := |commands| - 1;
      OtherRolloutsUntouched(f, c, w, commands[..n], at);
      assert !AboutRollout(f, commands[n], at);
      OneLeavesRollout(f, c, RunAll(ClusterRunner(c), f, w, commands[..n]).0, commands[n], at);
    }
  }

  lemma OneLeavesRollout(f: Factories, c: Conditions, w: World, command: Command, at: (string, string))
    requires !AboutRollout(f, command, at)
    ensures Plan(f, command).Some? ==>
              SameAt(w.rollouts, ClusterRunner(c)(w, Plan(f, command).value.execution).0.rollouts, at)
  {
    var p := Plan(f, command);
    if p.Some? && p.value.execution.RolloutExecution? {
      var x := p.value.execution;
      R.ActsExactly(R.RolloutCommand(x.rolloutNamespace, x.rolloutName, x.rolloutAction), w.rollouts, c.rolloutFaults);
    }
  }

  /** A directive that sets some keys of a secret and then deletes the same keys reports two successes
      when there are no faults, and gives the cluster back exactly when the secret was absent, or had
      data and none of those keys. */
  lemma SetThenDeleteInOneDirective(f: Factories, set_: SecretSchema, deleteId: string, w: World, c: Conditions)
    requires f.secrets && WellFormed(set_.name, set_.namespace, set_.commandId) && deleteId != "" && set_.action == 0
    requires c.secretFaults == S.NO_FAULTS
    ensures var commands := [Command("", None, Some(set_)),
                             Command("", None, Some(set_.(action := 1, commandId := deleteId)))];
            var at := (set_.namespace, set_.name);
            var (after, results) := RunAll(ClusterRunner(c), f, w, commands);
            && (after == w <==>
                (at !in w.secrets || (w.secrets[at].data != map[] && w.secrets[at].data.Keys !! set_.secret.Keys)))
            && results == [CommandResult(set_.commandId, true, ""), CommandResult(deleteId, true, "")]
  {
    var run := ClusterRunner(c);
    var one, two := Command("", None, Some(set_)), Command("", None, Some(set_.(action := 1, commandId := deleteId)));
    var sync := S.SyncCommand(set_.name, set_.namespace, S.SET, set_.secret);
    S.SetThenDelete(sync, w.secrets);
    SetSucceeds(sync, w.secrets);
    RunOne(run, f, w, one);
    RunOne(run, f, RunAll(run, f, w, [one]).0, two);
    RunInTurn(run, f, w, [one], [two]);
    S.FailsExactly(sync, w.secrets);
    S.FailsExactly(sync.(action := S.DELETE), S.After(sync, w.secrets));
    assert [one] + [two] == [one, two];
  }

  /** After a SET the secret, if it still exists, has every key of the command. */
  lemma SetSucceeds(c: S.SyncCommand, s: S.Store)
    requires c.action == S.SET
    ensures S.Location(c) in S.After(c, s) ==> c.secret.Keys <= S.After(c, s)[S.Location(c)].data.Keys
  {
    if S.Location(c) in s {
      var merged := s[S.Location(c)].data + c.secret;
      assert merged.Keys == s[S.Location(c)].data.Keys + c.secret.Keys;
    }
  }
}
