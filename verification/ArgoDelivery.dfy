/** The supervisor of the Argo watchers together with the one client their watches share. A round of the
    supervisor starts and cancels watches of the client; in between, handlers and closing goroutines take
    any steps they like. A watch exists from the moment its goroutine is launched: until that goroutine
    calls WatchGeneric, nothing makes the watch take a step. */
module ArgoDelivery {
  import opened Prelude
  import Runs
  import opened ArgoWatch
  import Callbacks

  /** Watch number `w` of the client belongs to watcher number `w` of the supervisor. */
  datatype State<C> = State(supervision: Supervision, client: Callbacks.State<C>, returned: bool)

  datatype Label<C> =
    | Discovered(lists: seq<ResourceList>)
    | Returned                              // discovery failed or the context ended
    | Of(move: Callbacks.Label<C>)         // a handler or a closing goroutine

  function Start<C>(): State<C> {
    State(Supervision([], None, None), Callbacks.NewClient<C>(), false)
  }

  predicate Enabled<C>(s: State<C>, l: Label<C>) {
    match l
    case Discovered(_) => !s.returned
    case Returned => !s.returned
    case Of(m) => !m.StartWatch? && !m.Cancel? && Callbacks.Enabled(s.client, m)
  }

  /** What following one resource does to the client. */
  function Ordered<C>(client: Callbacks.State<C>, watch: Option<nat>, listed: bool): Callbacks.State<C> {
    if listed && watch.None? then Callbacks.Next(client, Callbacks.StartWatch)
    else if !listed && watch.Some? && watch.value < |client.watches| then
      Callbacks.Next(client, Callbacks.Cancel(watch.value))
    else client
  }

  function AfterRound<C>(s: State<C>, lists: seq<ResourceList>): State<C> {
    var client := Ordered(s.client, s.supervision.rollouts, Lists(lists, ROLLOUTS));
    s.(supervision := Supervised(s.supervision, lists),
       client := Ordered(client, s.supervision.applications, Lists(lists, APPLICATIONS)))
  }

  function Next<C>(s: State<C>, l: Label<C>): State<C>
    requires Enabled(s, l)
  {
    match l
    case Discovered(lists) => AfterRound(s, lists)
    case Returned => AfterRound(s, []).(returned := true)
    case Of(m) => s.(client := Callbacks.Next(s.client, m))
  }

  function Step<C>(s: State<C>, l: Label<C>): Option<State<C>> {
    if Enabled(s, l) then Some(Next(s, l)) else None
  }

  function Exec<C>(s: State<C>, labels: seq<Label<C>>): Option<State<C>> {
    Runs.Exec<State<C>, Label<C>>(Step, s, labels)
  }

  // ----- Histories of discoveries -----

  /** The discovery results of a run, in order. */
  function Rounds<C>(labels: seq<Label<C>>): seq<seq<ResourceList>>
    decreases |labels|
  {
    if labels == [] then []
    else
      var n := |labels| - 1;
      Rounds(labels[..n]) + if labels[n].Discovered? then [labels[n].lists] else []
  }

  /** Round `k` misses the resource, and the round before it listed it. */
  predicate Lost(history: seq<seq<ResourceList>>, k: int, r: Gvr) {
    0 < k < |history| && Lists(history[k - 1], r) && !Lists(history[k], r)
  }

  /** Round `k` misses one of the two resources, which the round before it listed. */
  predicate Unlists(history: seq<seq<ResourceList>>, k: int) {
    Lost(history, k, ROLLOUTS) || Lost(history, k, APPLICATIONS)
  }

  predicate LastLists(history: seq<seq<ResourceList>>, r: Gvr) {
    history != [] && Lists(history[|history| - 1], r)
  }

  // ----- Invariant -----

  /** Supervisor and client agree on which watches are cancelled. */
  predicate Paired<C>(watchers: seq<Watcher>, client: Callbacks.State<C>) {
    && |client.watches| == |watchers|
    && forall w :: 0 <= w < |watchers| ==>
         client.watches[w].cancelled == watchers[w].cancelled && watchers[w].gvr in {ROLLOUTS, APPLICATIONS}
  }

  ghost predicate Coherent<C>(s: State<C>) {
    && Tracks(s.supervision.watchers, s.supervision.rollouts, ROLLOUTS)
    && Tracks(s.supervision.watchers, s.supervision.applications, APPLICATIONS)
    && Paired(s.supervision.watchers, s.client)
    && Callbacks.Inv(s.client)
  }

  /** The watches that run are those of the resources listed last, and if one was ever cancelled, some
      round unlisted its resource. */
  ghost predicate Follows<C>(s: State<C>, history: seq<seq<ResourceList>>) {
    && Coherent(s)
    && (!s.returned ==>
          && (s.supervision.rollouts.Some? <==> LastLists(history, ROLLOUTS))
          && (s.supervision.applications.Some? <==> LastLists(history, APPLICATIONS))
          && ((exists w :: 0 <= w < |s.client.watches| && s.client.watches[w].cancelled) ==>
                exists k :: Unlists(history, k)))
  }

  /** Following one resource. */
  lemma FollowKeeps<C>(watchers: seq<Watcher>, client: Callbacks.State<C>, watch: Option<nat>, r: Gvr, listed: bool)
    requires Tracks(watchers, watch, r) && Paired(watchers, client) && Callbacks.Inv(client)
    requires r in {ROLLOUTS, APPLICATIONS}
    ensures Paired(Followed(watchers, watch, r, listed).0, Ordered(client, watch, listed))
    ensures Callbacks.Inv(Ordered(client, watch, listed))
  {
    if listed && watch.None? {
      Callbacks.InvStep(client, Callbacks.StartWatch);
    } else if !listed && watch.Some? {
      TrackedRuns(watchers, watch, r);
      Callbacks.InvStep(client, Callbacks.Cancel(watch.value));
    }
  }

  lemma RoundKeeps<C>(s: State<C>, lists: seq<ResourceList>)
    requires Coherent(s)
    ensures Coherent(AfterRound(s, lists))
    ensures AfterRound(s, lists).supervision.rollouts.Some? <==> Lists(lists, ROLLOUTS)
    ensures AfterRound(s, lists).supervision.applications.Some? <==> Lists(lists, APPLICATIONS)
  {
    var v := s.supervision;
    FollowedTracks(v.watchers, v.rollouts, ROLLOUTS, Lists(lists, ROLLOUTS));
    FollowKeeps(v.watchers, s.client, v.rollouts, ROLLOUTS, Lists(lists, ROLLOUTS));
    var watchers := Followed(v.watchers, v.rollouts, ROLLOUTS, Lists(lists, ROLLOUTS)).0;
    var client := Ordered(s.client, v.rollouts, Lists(lists, ROLLOUTS));
    FollowedTracks(watchers, v.applications, APPLICATIONS, Lists(lists, APPLICATIONS));
    FollowKeeps(watchers, client, v.applications, APPLICATIONS, Lists(lists, APPLICATIONS));
  }

  /** A round that unlists nothing cancels nothing. */
  lemma NothingLost<C>(s: State<C>, history: seq<seq<ResourceList>>, lists: seq<ResourceList>, w: nat)
    requires Follows(s, history) && !s.returned && !Unlists(history + [lists], |history|)
    requires w < |AfterRound(s, lists).client.watches| && AfterRound(s, lists).client.watches[w].cancelled
    ensures w < |s.client.watches| && s.client.watches[w].cancelled
  {
    var longer := history + [lists];
    if history != [] {
      assert longer[|history| - 1] == history[|history| - 1];
    }
  }

  lemma FollowsRound<C>(s: State<C>, history: seq<seq<ResourceList>>, lists: seq<ResourceList>)
    requires Follows(s, history) && !s.returned
    ensures Follows(AfterRound(s, lists), history + [lists])
  {
    RoundKeeps(s, lists);
    var t, longer := AfterRound(s, lists), history + [lists];
    if w :| 0 <= w < |t.client.watches| && t.client.watches[w].cancelled {
      if !Unlists(longer, |history|) {
        NothingLost(s, history, lists, w);
        var k :| Unlists(history, k);
        assert longer[k] == history[k] && longer[k - 1] == history[k - 1];
        assert Unlists(longer, k);
      }
    }
  }

  lemma FollowsStep<C>(s: State<C>, history: seq<seq<ResourceList>>, l: Label<C>)
    requires Follows(s, history) && Enabled(s, l)
    ensures Follows(Next(s, l), if l.Discovered? then history + [l.lists] else history)
  {
    match l
    case Discovered(lists) => FollowsRound(s, history, lists);
    case Returned => RoundKeeps(s, []);
    case Of(m) =>
      Callbacks.InvStep(s.client, m);
      KeepsCancelled(s.client, m);
  }

  lemma KeepsCancelled<C>(client: Callbacks.State<C>, m: Callbacks.Label<C>)
    requires Callbacks.Enabled(client, m) && !m.StartWatch? && !m.Cancel?
    ensures var after := Callbacks.Next(client, m);
            && |after.watches| == |client.watches|
            && forall w :: 0 <= w < |client.watches| ==> after.watches[w].cancelled == client.watches[w].cancelled
  {}

  lemma FollowsStart<C>()
    ensures Follows(Start<C>(), [])
  {
    assert Active([], ROLLOUTS) == {} && Active([], APPLICATIONS) == {};
  }

  lemma {:induction false} FollowsRun<C>(labels: seq<Label<C>>)
    requires Exec(Start<C>(), labels).Some?
    ensures Follows(Exec(Start<C>(), labels).value, Rounds(labels))
    decreases |labels|
  {
    if labels == [] {
      FollowsStart<C>();
    } else {
      var n := |labels| - 1;
      FollowsRun(labels[..n]);
      var history := Rounds(labels[..n]);
      FollowsStep(Exec(Start<C>(), labels[..n]).value, history, labels[n]);
      assert Rounds(labels) == if labels[n].Discovered? then history + [labels[n].lists] else history;
    }
  }

  // ----- While no resource disappears -----

  /** As long as no discovery misses a resource that the one before it listed, every watch delivers:
      whatever was emitted on it has been delivered or is in its handler's hands. */
  lemma EveryWatchDelivers<C>(labels: seq<Label<C>>, s: State<C>, w: nat)
    requires Exec(Start<C>(), labels) == Some(s) && !s.returned && w < |s.client.watches|
    requires forall k :: !Unlists(Rounds(labels), k)
    ensures !s.client.watches[w].cancelled && !s.client.done
    ensures s.client.watches[w].emitted ==
              s.client.watches[w].delivered + Callbacks.InFlight(s.client.watches[w])
  {
    FollowsRun(labels);
  }

  // ----- Once one has -----

  /** A running watch has lost a callback. */
  ghost predicate Starved<C>(s: State<C>, w: int) {
    && 0 <= w < |s.client.watches| && !s.client.watches[w].cancelled
    && s.client.watches[w].emitted !=
         s.client.watches[w].delivered + Callbacks.InFlight(s.client.watches[w])
  }

  /** The run discovers exactly the given history and ends with a starved watch. */
  ghost predicate StarvedBy<C>(labels: seq<Label<C>>, history: seq<seq<ResourceList>>) {
    && Exec(Start<C>(), labels).Some? && Rounds(labels) == history
    && !Exec(Start<C>(), labels).value.returned
    && exists w :: Starved(Exec(Start<C>(), labels).value, w)
  }

  /** For any history of discoveries: a watch that should be running can lose callbacks if and only if
      some round missed a resource that the round before it had listed, and the last round lists one. */
  lemma StarvedExactly<C>(history: seq<seq<ResourceList>>, c: C)
    ensures (exists labels: seq<Label<C>> :: StarvedBy(labels, history)) <==>
            (exists k :: Unlists(history, k)) && (LastLists(history, ROLLOUTS) || LastLists(history, APPLICATIONS))
  {
    if labels: seq<Label<C>> :| StarvedBy(labels, history) {
      StarvedOnlyAfterLoss(labels);
    }
    if k :| Unlists(history, k) && (LastLists(history, ROLLOUTS) || LastLists(history, APPLICATIONS)) {
      var labels, s, w := StaleForGood(history, k, c);
      assert Starved(s, w) && StarvedBy(labels, history);
    }
  }

  lemma StarvedOnlyAfterLoss<C>(labels: seq<Label<C>>)
    requires Exec(Start<C>(), labels).Some? && !Exec(Start<C>(), labels).value.returned
    requires exists w :: Starved(Exec(Start<C>(), labels).value, w)
    ensures exists k :: Unlists(Rounds(labels), k)
    ensures LastLists(Rounds(labels), ROLLOUTS) || LastLists(Rounds(labels), APPLICATIONS)
  {
    FollowsRun(labels);
    var s := Exec(Start<C>(), labels).value;
    var w :| Starved(s, w);
    RunningIsTracked(s, w);
  }

  lemma RunningIsTracked<C>(s: State<C>, w: int)
    requires Coherent(s) && 0 <= w < |s.client.watches| && !s.client.watches[w].cancelled
    ensures s.supervision.rollouts.Some? || s.supervision.applications.Some?
  {
    var r := s.supervision.watchers[w].gvr;
    assert w in Active(s.supervision.watchers, r);
  }

  // ----- The run that starves a watch -----

  /** Nothing is going on in the client, and nothing ever happened on its channels. */
  ghost predicate Resting<C>(client: Callbacks.State<C>) {
    && client.holder.Free?
    && forall w :: 0 <= w < |client.watches| ==>
         && client.watches[w].handler.Idle?
         && client.watches[w].emitted == [] && client.watches[w].delivered == []
  }

  lemma Extend<C>(labels: seq<Label<C>>, l: Label<C>) returns (longer: seq<Label<C>>, s: State<C>)
    requires Exec(Start<C>(), labels).Some? && Enabled(Exec(Start<C>(), labels).value, l)
    ensures longer == labels + [l] && Exec(Start<C>(), longer) == Some(s)
    ensures s == Next(Exec(Start<C>(), labels).value, l)
    ensures Rounds(longer) == Rounds(labels) + if l.Discovered? then [l.lists] else []
  {
    Runs.ExecSnoc<State<C>, Label<C>>(Step, Start<C>(), labels, l);
    longer, s := labels + [l], Next(Exec(Start<C>(), labels).value, l);
    assert longer[..|labels|] == labels;
  }

  lemma RestingRound<C>(s: State<C>, lists: seq<ResourceList>)
    requires Resting(s.client)
    ensures Resting(AfterRound(s, lists).client) && AfterRound(s, lists).client.done == s.client.done
  {}

  /** Rounds alone leave a resting client at rest. */
  lemma {:induction false} AddRounds<C>(labels: seq<Label<C>>, s: State<C>, rounds: seq<seq<ResourceList>>)
    returns (longer: seq<Label<C>>, t: State<C>)
    requires Exec(Start<C>(), labels) == Some(s) && !s.returned && Resting(s.client)
    ensures Exec(Start<C>(), longer) == Some(t) && !t.returned && Resting(t.client)
    ensures t.client.done == s.client.done && Rounds(longer) == Rounds(labels) + rounds
    decreases |rounds|
  {
    if rounds == [] {
      longer, t := labels, s;
    } else {
      var n := |rounds| - 1;
      longer, t := AddRounds(labels, s, rounds[..n]);
      RestingRound(t, rounds[n]);
      longer, t := Extend(longer, Discovered(rounds[n]));
      assert rounds[..n] + [rounds[n]] == rounds;
    }
  }

  /** The round that unlists a resource cancels its watch. */
  lemma LossCancels<C>(s: State<C>, history: seq<seq<ResourceList>>, lists: seq<ResourceList>) returns (w: nat)
    requires Follows(s, history) && !s.returned && Unlists(history + [lists], |history|)
    ensures w < |AfterRound(s, lists).client.watches| && AfterRound(s, lists).client.watches[w].cancelled
  {
    var longer, v := history + [lists], s.supervision;
    assert longer[|history| - 1] == history[|history| - 1];
    if Lost(longer, |history|, ROLLOUTS) {
      w := v.rollouts.value;
      TrackedRuns(v.watchers, v.rollouts, ROLLOUTS);
    } else {
      w := v.applications.value;
      TrackedRuns(v.watchers, v.applications, APPLICATIONS);
    }
  }

  /** The rounds up to a loss, and then the lost watch closes. */
  lemma CloseAfterLoss<C>(history: seq<seq<ResourceList>>, k: int) returns (labels: seq<Label<C>>, s: State<C>)
    requires Unlists(history, k)
    ensures Exec(Start<C>(), labels) == Some(s) && !s.returned && Resting(s.client) && s.client.done
    ensures Rounds(labels) == history[..k + 1]
  {
    var w;
    labels, s, w := LoseWatch(history, k);
    FollowsRun(labels);
    labels, s := CloseWatch(labels, s, w);
  }

  lemma LoseWatch<C>(history: seq<seq<ResourceList>>, k: int) returns (labels: seq<Label<C>>, s: State<C>, w: nat)
    requires Unlists(history, k)
    ensures Exec(Start<C>(), labels) == Some(s) && !s.returned && Resting(s.client) && !s.client.done
    ensures Rounds(labels) == history[..k + 1]
    ensures w < |s.client.watches| && s.client.watches[w].cancelled
  {
    labels, s := AddRounds([], Start<C>(), history[..k]);
    assert Rounds<C>([]) + history[..k] == history[..k];
    assert history[..k] + [history[k]] == history[..k + 1];
    UnlistsPrefix(history, k);
    labels, s, w := LoseNext(labels, s, history[k]);
  }

  lemma UnlistsPrefix(history: seq<seq<ResourceList>>, k: int)
    requires Unlists(history, k)
    ensures Unlists(history[..k + 1], k)
  {}

  lemma LoseNext<C>(labels: seq<Label<C>>, s: State<C>, lists: seq<ResourceList>)
    returns (longer: seq<Label<C>>, t: State<C>, w: nat)
    requires Exec(Start<C>(), labels) == Some(s) && !s.returned && Resting(s.client)
    requires Unlists(Rounds(labels) + [lists], |Rounds(labels)|)
    ensures Exec(Start<C>(), longer) == Some(t) && !t.returned && Resting(t.client) && t.client.done == s.client.done
    ensures Rounds(longer) == Rounds(labels) + [lists]
    ensures w < |t.client.watches| && t.client.watches[w].cancelled
  {
    FollowsRun(labels);
    RestingRound(s, lists);
    w := LossCancels(s, Rounds(labels), lists);
    longer, t := Extend(labels, Discovered(lists));
  }

  lemma CloseWatch<C>(labels: seq<Label<C>>, s: State<C>, w: nat) returns (longer: seq<Label<C>>, t: State<C>)
    requires Exec(Start<C>(), labels) == Some(s) && Callbacks.Inv(s.client) && Resting(s.client) && !s.client.done
    requires w < |s.client.watches| && s.client.watches[w].cancelled
    ensures Exec(Start<C>(), longer) == Some(t) && Rounds(longer) == Rounds(labels)
    ensures t == s.(client := Callbacks.Ended(s.client, w))
  {
    Callbacks.CloseSteps(s.client, w);
    longer, t := Extend(labels, Of(Callbacks.LockCloser(w)));
    longer, t := Extend(longer, Of(Callbacks.SetDone(w)));
    longer, t := Extend(longer, Of(Callbacks.Close(w)));
  }

  /** If some round misses a resource that the round before it listed, and the last one lists a resource,
      then there is a run with these rounds after which the watch of that resource runs, has lost all that
      was emitted on it, and in every continuation of the run still delivers nothing. */
  lemma StaleForGood<C>(history: seq<seq<ResourceList>>, k: int, c: C)
    returns (labels: seq<Label<C>>, s: State<C>, w: nat)
    requires Unlists(history, k) && (LastLists(history, ROLLOUTS) || LastLists(history, APPLICATIONS))
    ensures Exec(Start<C>(), labels) == Some(s) && Rounds(labels) == history && !s.returned
    ensures Starved(s, w) && s.client.watches[w].emitted == [c]
    ensures forall more :: Exec(s, more).Some? && w < |Exec(s, more).value.client.watches| ==>
              Exec(s, more).value.client.watches[w].delivered == []
  {
    labels, s := CloseAfterLoss(history, k);
    labels, s := AddRounds(labels, s, history[k + 1..]);
    assert history[..k + 1] + history[k + 1..] == history;
    FollowsRun(labels);
    w := RunningWatch(s, history);
    labels, s := DropOn(labels, s, w, c);
    FollowsRun(labels);
    forall more | Exec(s, more).Some?
      ensures w < |Exec(s, more).value.client.watches| ==>
                Exec(s, more).value.client.watches[w].delivered == []
    {
      SilentRun(s, more);
    }
  }

  lemma RunningWatch<C>(s: State<C>, history: seq<seq<ResourceList>>) returns (w: nat)
    requires Follows(s, history) && !s.returned
    requires LastLists(history, ROLLOUTS) || LastLists(history, APPLICATIONS)
    ensures w < |s.client.watches| && !s.client.watches[w].cancelled
  {
    var v := s.supervision;
    if v.rollouts.Some? {
      w := v.rollouts.value;
      TrackedRuns(v.watchers, v.rollouts, ROLLOUTS);
    } else {
      w := v.applications.value;
      TrackedRuns(v.watchers, v.applications, APPLICATIONS);
    }
  }

  lemma DropOn<C>(labels: seq<Label<C>>, s: State<C>, w: nat, c: C) returns (longer: seq<Label<C>>, t: State<C>)
    requires Exec(Start<C>(), labels) == Some(s) && Resting(s.client) && s.client.done && w < |s.client.watches|
    ensures Exec(Start<C>(), longer) == Some(t) && Rounds(longer) == Rounds(labels)
    ensures t == s.(client := Callbacks.Dropping(s.client, w, c))
  {
    Callbacks.DropSteps(s.client, w, c);
    longer, t := Extend(labels, Of(Callbacks.Emit(w, c)));
    longer, t := Extend(longer, Of(Callbacks.LockHandler(w)));
    longer, t := Extend(longer, Of(Callbacks.Check(w)));
  }

  /** Nothing has been delivered beyond what had been in `s`. */
  ghost predicate Silent<C>(s: Callbacks.State<C>, t: Callbacks.State<C>) {
    && t.done && |s.watches| <= |t.watches|
    && forall w: nat :: w < |t.watches| ==> t.watches[w].delivered == Callbacks.DeliveredBy(s, w)
  }

  /** Once one watch of the client has begun to close, no watch the supervisor has started or will ever
      start delivers anything more. */
  lemma {:induction false} SilentRun<C>(s: State<C>, labels: seq<Label<C>>)
    requires Coherent(s) && s.client.done && Exec(s, labels).Some?
    ensures Coherent(Exec(s, labels).value) && Silent(s.client, Exec(s, labels).value.client)
    decreases |labels|
  {
    if labels != [] {
      var n := |labels| - 1;
      SilentRun(s, labels[..n]);
      SilentStep(s, Exec(s, labels[..n]).value, labels[n]);
    }
  }

  lemma SilentStep<C>(s: State<C>, t: State<C>, l: Label<C>)
    requires Coherent(t) && Silent(s.client, t.client) && Enabled(t, l)
    ensures Coherent(Next(t, l)) && Silent(s.client, Next(t, l).client)
  {
    match l
    case Of(m) =>
      Callbacks.InvStep(t.client, m);
      Callbacks.SilentStep(t.client, m);
      KeepsCancelled(t.client, m);
    case Discovered(lists) =>
      RoundKeeps(t, lists);
      SilentRound(s.client, t, lists);
    case Returned =>
      RoundKeeps(t, []);
      SilentRound(s.client, t, []);
  }

  lemma SilentRound<C>(before: Callbacks.State<C>, t: State<C>, lists: seq<ResourceList>)
    requires Silent(before, t.client)
    ensures Silent(before, AfterRound(t, lists).client)
  {
    SilentOrders(before, t.client, t.supervision.rollouts, Lists(lists, ROLLOUTS));
    var client := Ordered(t.client, t.supervision.rollouts, Lists(lists, ROLLOUTS));
    SilentOrders(before, client, t.supervision.applications, Lists(lists, APPLICATIONS));
  }

  lemma SilentOrders<C>(before: Callbacks.State<C>, client: Callbacks.State<C>, watch: Option<nat>, listed: bool)
    requires Silent(before, client)
    ensures Silent(before, Ordered(client, watch, listed))
  {}
}
