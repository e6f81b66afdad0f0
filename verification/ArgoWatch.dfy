/** The supervisor that starts and stops the watchers of Argo rollouts and applications as the cluster
    gains and loses those resources. */
module ArgoWatch {
  import opened Prelude

  /** One entry of the discovery result. */
  datatype ResourceList = ResourceList(groupVersion: string, names: seq<string>)

  datatype Gvr = Gvr(groupVersion: string, resource: string)

  const ROLLOUTS := Gvr("argoproj.io/v1alpha1", "rollouts")
  const APPLICATIONS := Gvr("argoproj.io/v1alpha1", "applications")

  const MINUTE := 60

  predicate Lists(lists: seq<ResourceList>, r: Gvr) {
    exists i :: 0 <= i < |lists| && lists[i].groupVersion == r.groupVersion && r.resource in lists[i].names
  }

  /** hasResource. */
  method HasResource(lists: seq<ResourceList>, r: Gvr) returns (found: bool)
    ensures found <==> Lists(lists, r)
  {
    for i := 0 to |lists|
      invariant !Lists(lists[..i], r)
    {
      if r.groupVersion == lists[i].groupVersion {
        for j := 0 to |lists[i].names|
          invariant r.resource !in lists[i].names[..j]
        {
          if r.resource == lists[i].names[j] {
            return true;
          }
        }
        assert lists[i].names[..|lists[i].names|] == lists[i].names;
      }
    }
    assert lists[..|lists|] == lists;
    return false;
  }

  /** A watcher goroutine ever started, and whether its context has been cancelled. */
  datatype Watcher = Watcher(gvr: Gvr, cancelled: bool)

  function Active(watchers: seq<Watcher>, r: Gvr): set<int> {
    set i | 0 <= i < |watchers| && watchers[i] == Watcher(r, false)
  }

  /** How many watchers were ever started for a resource. */
  function Started(watchers: seq<Watcher>, r: Gvr): nat
    decreases |watchers|
  {
    if watchers == [] then 0
    else Started(watchers[..|watchers| - 1], r) + if watchers[|watchers| - 1].gvr == r then 1 else 0
  }

  lemma {:induction false} StartedIgnoresCancel(watchers: seq<Watcher>, i: nat, r: Gvr)
    requires i < |watchers|
    ensures Started(watchers[i := watchers[i].(cancelled := true)], r) == Started(watchers, r)
    decreases |watchers|
  {
    var n := |watchers| - 1;
    var after := watchers[i := watchers[i].(cancelled := true)];
    if i < n {
      assert after[..n] == watchers[..n][i := watchers[..n][i].(cancelled := true)];
      StartedIgnoresCancel(watchers[..n], i, r);
    } else {
      assert after[..n] == watchers[..n];
    }
  }

  /** How often a resource appeared after being absent. */
  function Appearances(listed: seq<bool>): nat
    decreases |listed|
  {
    if listed == [] then 0
    else
      var n := |listed| - 1;
      Appearances(listed[..n]) + if listed[n] && (n == 0 || !listed[n - 1]) then 1 else 0
  }

  /** What discovery returns, and whether the context ends during the wait that follows. */
  datatype Discovery = Failed | Found(lists: seq<ResourceList>, doneAfter: bool)

  // ----- What a round does, as a function -----

  /** The watchers ever started, and the one running for each resource. */
  datatype Supervision = Supervision(watchers: seq<Watcher>, rollouts: Option<nat>, applications: Option<nat>)

  /** Starts the watcher of a resource, or cancels it, or neither. */
  function Followed(watchers: seq<Watcher>, watch: Option<nat>, r: Gvr, listed: bool): (seq<Watcher>, Option<nat>) {
    if listed && watch.None? then (watchers + [Watcher(r, false)], Some(|watchers|))
    else if !listed && watch.Some? then (Cancelled(watchers, watch.value), None)
    else (watchers, watch)
  }

  function Cancelled(watchers: seq<Watcher>, i: nat): seq<Watcher> {
    if i < |watchers| then watchers[i := watchers[i].(cancelled := true)] else watchers
  }

  function Supervised(v: Supervision, lists: seq<ResourceList>): Supervision {
    var (watchers, rollouts) := Followed(v.watchers, v.rollouts, ROLLOUTS, Lists(lists, ROLLOUTS));
    var (watchers', applications) := Followed(watchers, v.applications, APPLICATIONS, Lists(lists, APPLICATIONS));
    Supervision(watchers', rollouts, applications)
  }

  lemma FollowedTracks(watchers: seq<Watcher>, watch: Option<nat>, r: Gvr, listed: bool)
    requires Tracks(watchers, watch, r)
    ensures var (after, now) := Followed(watchers, watch, r, listed);
            && Tracks(after, now, r) && (now.Some? <==> listed)
            && forall other | other != r :: Active(after, other) == Active(watchers, other)
  {
    if listed && watch.None? {
      forall other {
        StartOne(watchers, r, other);
      }
    } else if !listed && watch.Some? {
      TrackedRuns(watchers, watch, r);
      forall other {
        CancelOne(watchers, watch.value, r, other);
      }
    }
  }

  lemma FollowedStarts(watchers: seq<Watcher>, watch: Option<nat>, r: Gvr, listed: bool)
    requires Tracks(watchers, watch, r)
    ensures forall other :: Started(Followed(watchers, watch, r, listed).0, other) ==
              Started(watchers, other) + if other == r && listed && watch.None? then 1 else 0
  {
    if listed && watch.None? {
      assert (watchers + [Watcher(r, false)])[..|watchers|] == watchers;
    } else if !listed && watch.Some? {
      TrackedRuns(watchers, watch, r);
      forall other {
        StartedIgnoresCancel(watchers, watch.value, other);
      }
    }
  }

  class Supervisor {
    var watchers: seq<Watcher>
    var rolloutWatch: Option<nat>
    var applicationWatch: Option<nat>

    constructor ()
      ensures watchers == [] && rolloutWatch == None && applicationWatch == None
    {
      watchers, rolloutWatch, applicationWatch := [], None, None;
    }

    /** The cancel functions held are exactly those of the running watchers. */
    predicate Valid()
      reads this
    {
      && Tracks(watchers, rolloutWatch, ROLLOUTS)
      && Tracks(watchers, applicationWatch, APPLICATIONS)
    }

    function View(): Supervision
      reads this
    {
      Supervision(watchers, rolloutWatch, applicationWatch)
    }

    /** Starts or stops the watcher of one resource. */
    method Follow(r: Gvr, watch: Option<nat>, listed: bool) returns (now: Option<nat>)
      requires Tracks(watchers, watch, r)
      modifies this`watchers
      ensures (watchers, now) == Followed(old(watchers), watch, r, listed)
      ensures Tracks(watchers, now, r) && (now.Some? <==> listed)
      ensures forall other | other != r :: Active(watchers, other) == Active(old(watchers), other)
      ensures forall other :: Started(watchers, other) ==
                Started(old(watchers), other) + if other == r && listed && watch.None? then 1 else 0
    {
      FollowedTracks(watchers, watch, r, listed);
      FollowedStarts(watchers, watch, r, listed);
      now := watch;
      if listed {
        if watch.None? {
          now := Some(|watchers|);
          watchers := watchers + [Watcher(r, false)];
        }
      } else if watch.Some? {
        watchers := watchers[watch.value := watchers[watch.value].(cancelled := true)];
        now := None;
      }
    }

    /** One round: both resources follow the discovery result, a watcher that is still wanted stays, and
        the next check is far off exactly when both are watched. */
    method Round(lists: seq<ResourceList>) returns (recheck: nat)
      requires Valid()
      modifies this
      ensures Valid()
      ensures View() == Supervised(old(View()), lists)
      ensures rolloutWatch.Some? <==> Lists(lists, ROLLOUTS)
      ensures applicationWatch.Some? <==> Lists(lists, APPLICATIONS)
      ensures old(rolloutWatch).Some? && Lists(lists, ROLLOUTS) ==> rolloutWatch == old(rolloutWatch)
      ensures old(applicationWatch).Some? && Lists(lists, APPLICATIONS) ==> applicationWatch == old(applicationWatch)
      ensures recheck == if Lists(lists, ROLLOUTS) && Lists(lists, APPLICATIONS) then 30 * MINUTE else MINUTE
      ensures Started(watchers, ROLLOUTS) == Started(old(watchers), ROLLOUTS)
                + if Lists(lists, ROLLOUTS) && old(rolloutWatch).None? then 1 else 0
      ensures Started(watchers, APPLICATIONS) == Started(old(watchers), APPLICATIONS)
                + if Lists(lists, APPLICATIONS) && old(applicationWatch).None? then 1 else 0
    {
      var rollouts := HasResource(lists, ROLLOUTS);
      rolloutWatch := Follow(ROLLOUTS, rolloutWatch, rollouts);
      var applications := HasResource(lists, APPLICATIONS);
      applicationWatch := Follow(APPLICATIONS, applicationWatch, applications);
      recheck := MINUTE;
      if rolloutWatch.Some? && applicationWatch.Some? {
        recheck := recheck * 30;
      }
    }

    /** The deferred function: cancels whatever is running. */
    method CancelAll()
      requires Valid()
      modifies this
      ensures View() == Supervised(old(View()), [])
      ensures Active(watchers, ROLLOUTS) == {} && Active(watchers, APPLICATIONS) == {}
      ensures Started(watchers, ROLLOUTS) == Started(old(watchers), ROLLOUTS)
      ensures Started(watchers, APPLICATIONS) == Started(old(watchers), APPLICATIONS)
    {
      rolloutWatch := Follow(ROLLOUTS, rolloutWatch, false);
      applicationWatch := Follow(APPLICATIONS, applicationWatch, false);
    }

    /** The supervisor until discovery fails or the context ends. A watcher of a resource was started
        each time the resource appeared, and none is left running. `rechecks` are the waits between
        rounds. */
    method ArgoWatch(discoveries: seq<Discovery>) returns (rechecks: seq<nat>)
      requires watchers == [] && rolloutWatch.None? && applicationWatch.None?
      modifies this
      ensures |rechecks| == Completed(discoveries, 0)
      ensures forall k :: 0 <= k < |rechecks| ==> rechecks[k] == Recheck(discoveries[k])
      ensures Active(watchers, ROLLOUTS) == {} && Active(watchers, APPLICATIONS) == {}
      ensures Started(watchers, ROLLOUTS) == Appearances(History(discoveries[..|rechecks|], ROLLOUTS))
      ensures Started(watchers, APPLICATIONS) == Appearances(History(discoveries[..|rechecks|], APPLICATIONS))
    {
      rechecks := Rounds(discoveries);
      CancelAll();
    }

    /** The rounds, up to the return. */
    method Rounds(discoveries: seq<Discovery>) returns (rechecks: seq<nat>)
      requires watchers == [] && rolloutWatch.None? && applicationWatch.None?
      modifies this
      ensures Valid()
      ensures |rechecks| == Completed(discoveries, 0)
      ensures forall k :: 0 <= k < |rechecks| ==> rechecks[k] == Recheck(discoveries[k])
      ensures Following(discoveries[..|rechecks|])
    {
      rechecks := [];
      Nothing(discoveries, ROLLOUTS);
      Nothing(discoveries, APPLICATIONS);
      var running := true;
      while running && |rechecks| < |discoveries| && discoveries[|rechecks|].Found?
        invariant |rechecks| <= |discoveries|
        invariant Completed(discoveries, 0) == if running then Completed(discoveries, |rechecks|) else |rechecks|
        invariant forall k :: 0 <= k < |rechecks| ==> rechecks[k] == Recheck(discoveries[k])
        invariant Valid() && Following(discoveries[..|rechecks|])
        decreases |discoveries| - |rechecks|
      {
        var k := |rechecks|;
        var recheck := RoundInStep(discoveries, k);
        rechecks := rechecks + [recheck];
        running := !discoveries[k].doneAfter;
      }
    }

    /** Both resources are in step with the discoveries completed so far. */
    predicate Following(completed: seq<Discovery>)
      reads this
    {
      && InStep(completed, watchers, rolloutWatch, ROLLOUTS)
      && InStep(completed, watchers, applicationWatch, APPLICATIONS)
    }

    method RoundInStep(discoveries: seq<Discovery>, k: nat) returns (recheck: nat)
      requires Valid() && k < |discoveries| && discoveries[k].Found?
      requires Following(discoveries[..k])
      modifies this
      ensures Valid() && recheck == Recheck(discoveries[k])
      ensures Following(discoveries[..k + 1])
    {
      recheck := Round(discoveries[k].lists);
      InStepSnoc(discoveries, k, ROLLOUTS, old(watchers), old(rolloutWatch), watchers, rolloutWatch);
      InStepSnoc(discoveries, k, APPLICATIONS, old(watchers), old(applicationWatch), watchers, applicationWatch);
    }
  }

  /** The wait after a round: long exactly when both resources were listed. */
  function Recheck(d: Discovery): nat {
    if d.Found? && Lists(d.lists, ROLLOUTS) && Lists(d.lists, APPLICATIONS) then 30 * MINUTE else MINUTE
  }

  predicate ListedIn(d: Discovery, r: Gvr) {
    d.Found? && Lists(d.lists, r)
  }

  /** A watcher is running exactly when the last completed discovery listed its resource, and one was
      started each time the resource appeared. */
  predicate InStep(completed: seq<Discovery>, watchers: seq<Watcher>, watch: Option<nat>, r: Gvr) {
    && (watch.Some? <==> completed != [] && ListedIn(completed[|completed| - 1], r))
    && Started(watchers, r) == Appearances(History(completed, r))
  }

  lemma Nothing(discoveries: seq<Discovery>, r: Gvr)
    ensures InStep(discoveries[..0], [], None, r) && Tracks([], None, r)
  {
    assert Active([], r) == {};
    assert History(discoveries[..0], r) == [];
  }

  lemma InStepSnoc(discoveries: seq<Discovery>, k: nat, r: Gvr, watchers: seq<Watcher>, watch: Option<nat>,
                   after: seq<Watcher>, now: Option<nat>)
    requires k < |discoveries| && InStep(discoveries[..k], watchers, watch, r)
    requires now.Some? <==> ListedIn(discoveries[k], r)
    requires Started(after, r) == Started(watchers, r) + if ListedIn(discoveries[k], r) && watch.None? then 1 else 0
    ensures InStep(discoveries[..k + 1], after, now, r)
  {
    var before, longer := History(discoveries[..k], r), History(discoveries[..k + 1], r);
    assert longer[..k] == before;
  }

  /** `watch` names the one running watcher of the resource, if there is one. */
  predicate Tracks(watchers: seq<Watcher>, watch: Option<nat>, r: Gvr) {
    Active(watchers, r) == match watch case Some(i) => {i} case None => {}
  }

  lemma TrackedRuns(watchers: seq<Watcher>, watch: Option<nat>, r: Gvr)
    requires Tracks(watchers, watch, r) && watch.Some?
    ensures watch.value < |watchers| && watchers[watch.value] == Watcher(r, false)
  {
    assert watch.value in Active(watchers, r);
  }

  lemma CancelOne(watchers: seq<Watcher>, i: nat, r: Gvr, other: Gvr)
    requires i < |watchers| && watchers[i] == Watcher(r, false)
    ensures Active(watchers[i := watchers[i].(cancelled := true)], other) == Active(watchers, other) - {i}
  {
    var after := watchers[i := watchers[i].(cancelled := true)];
    forall k
      ensures k in Active(after, other) <==> k in Active(watchers, other) - {i}
    {}
  }

  lemma StartOne(watchers: seq<Watcher>, r: Gvr, other: Gvr)
    ensures Active(watchers + [Watcher(r, false)], other) ==
              Active(watchers, other) + if other == r then {|watchers|} else {}
  {}

  /** The rounds completed by the end, when `k` have been: up to a failed discovery, or up to and
      including the one during whose wait the context ended. */
  function Completed(discoveries: seq<Discovery>, k: nat): (n: nat)
    requires k <= |discoveries|
    ensures k <= n <= |discoveries|
    decreases |discoveries| - k
  {
    if k == |discoveries| || discoveries[k].Failed? then k
    else if discoveries[k].doneAfter then k + 1
    else Completed(discoveries, k + 1)
  }

  function History(discoveries: seq<Discovery>, r: Gvr): seq<bool> {
    seq(|discoveries|, i requires 0 <= i < |discoveries| => ListedIn(discoveries[i], r))
  }
}
