/** Pausing, resuming and aborting Argo rollouts, each by one or two patches. */
module Rollouts {
  import opened Prelude

  const PAUSE := "PAUSE"
  const RESUME := "RESUME"
  const ABORT := "ABORT"

  datatype RolloutCommand = RolloutCommand(namespace: string, rolloutName: string, action: string)

  /** A rollout: what its spec says about pausing, what its status says about aborting, and the rest. */
  datatype Rollout = Rollout(paused: bool, aborted: bool, rest: string)

  /** The cluster's rollouts by namespace and name. */
  type Fleet = map<(string, string), Rollout>

  /** What the API server makes of a patch of the status subresource. */
  datatype StatusReply = Accepted | NoSubresource | Rejected

  /** Which calls the API server refuses for reasons of its own. */
  datatype Faults = Faults(factory: bool, spec: bool, status: StatusReply, fallback: bool)

  const NO_FAULTS := Faults(false, false, Accepted, false)

  datatype PatchError = NotFound | Refused

  datatype RolloutError = FactoryFailed | UnknownAction | PatchFailed

  /** A merge patch of the one field it names. */
  datatype Change = SetPaused(paused: bool) | SetAborted(aborted: bool)

  function Changed(r: Rollout, change: Change): Rollout {
    match change
    case SetPaused(paused) => r.(paused := paused)
    case SetAborted(aborted) => r.(aborted := aborted)
  }

  // ----- What a command does -----

  predicate StatusFails(f: Faults) {
    f.status.Rejected? || (f.status.NoSubresource? && f.fallback)
  }

  /** What a command makes of the cluster, without mention of patches. */
  function Acted(c: RolloutCommand, fleet: Fleet, f: Faults): (Fleet, Option<RolloutError>) {
    var at := (c.namespace, c.rolloutName);
    if f.factory then (fleet, Some(FactoryFailed))
    else if c.action !in {PAUSE, RESUME, ABORT} then (fleet, Some(UnknownAction))
    else if at !in fleet then (fleet, Some(PatchFailed))
    else if c.action == ABORT then
      if StatusFails(f) then (fleet, Some(PatchFailed)) else (fleet[at := fleet[at].(aborted := true)], None)
    else if f.spec then (fleet, Some(PatchFailed))
    else if c.action == PAUSE then (fleet[at := fleet[at].(paused := true)], None)
    else if StatusFails(f) then (fleet[at := fleet[at].(paused := false)], Some(PatchFailed))
    else (fleet[at := fleet[at].(paused := false, aborted := false)], None)
  }

  class RolloutsGetter {
    var fleet: Fleet

    constructor (fleet: Fleet)
      ensures this.fleet == fleet
    {
      this.fleet := fleet;
    }

    /** One patch call; `reply` is what the server would say if the rollout is there. */
    method Patch(at: (string, string), change: Change, reply: Option<PatchError>) returns (err: Option<PatchError>)
      modifies this
      ensures err == if reply == Some(Refused) then reply else if at !in old(fleet) then Some(NotFound) else reply
      ensures fleet == if err.Some? then old(fleet) else old(fleet)[at := Changed(old(fleet)[at], change)]
    {
      if reply == Some(Refused) {
        return reply;
      }
      if at !in fleet {
        return Some(NotFound);
      }
      if reply.None? {
        fleet := fleet[at := Changed(fleet[at], change)];
      }
      return reply;
    }

    method ApplyPatch(c: RolloutCommand, change: Change, f: Faults) returns (err: Option<PatchError>)
      modifies this
      ensures var at := (c.namespace, c.rolloutName);
              && (err.None? <==> at in old(fleet) && !f.spec)
              && fleet == if err.Some? then old(fleet) else old(fleet)[at := Changed(old(fleet)[at], change)]
    {
      err := Patch((c.namespace, c.rolloutName), change, if f.spec then Some(Refused) else None);
    }

    /** Patches the status subresource, and the rollout itself where there is no such subresource. */
    method ApplyStatusPatch(c: RolloutCommand, change: Change, f: Faults) returns (err: Option<PatchError>)
      modifies this
      ensures var at := (c.namespace, c.rolloutName);
              && (err.None? <==> at in old(fleet) && !StatusFails(f))
              && fleet == if err.Some? then old(fleet) else old(fleet)[at := Changed(old(fleet)[at], change)]
    {
      var at := (c.namespace, c.rolloutName);
      var reply := match f.status
        case Accepted => None
        case NoSubresource => Some(NotFound)
        case Rejected => Some(Refused);
      err := Patch(at, change, reply);
      if err == Some(NotFound) {
        err := Patch(at, change, if f.fallback then Some(Refused) else None);
      }
    }

    /** patchRollout. */
    method PatchRollout(c: RolloutCommand, f: Faults) returns (err: Option<RolloutError>)
      requires !f.factory
      modifies this
      ensures (fleet, err) == Acted(c, old(fleet), f)
    {
      var failure: Option<PatchError>;
      if c.action == RESUME {
        failure := ApplyPatch(c, SetPaused(false), f);
        if failure.None? {
          ghost var unpaused := fleet;
          failure := ApplyStatusPatch(c, SetAborted(false), f);
          ghost var at := (c.namespace, c.rolloutName);
          assert unpaused == old(fleet)[at := old(fleet)[at].(paused := false)];
          assert failure.None? ==> fleet == old(fleet)[at := old(fleet)[at].(paused := false, aborted := false)];
        }
      } else if c.action == ABORT {
        failure := ApplyStatusPatch(c, SetAborted(true), f);
      } else if c.action == PAUSE {
        failure := ApplyPatch(c, SetPaused(true), f);
      } else {
        return Some(UnknownAction);
      }
      return if failure.Some? then Some(PatchFailed) else None;
    }

    /** RunWithClientFactory. */
    method Run(c: RolloutCommand, f: Faults) returns (err: Option<RolloutError>)
      modifies this
      ensures (fleet, err) == Acted(c, old(fleet), f)
    {
      if f.factory {
        return Some(FactoryFailed);
      }
      err := PatchRollout(c, f);
    }
  }

  // ----- Laws -----

  /** Only the named rollout changes, never beyond its pausing and aborting, and a command that works
      leaves it paused after PAUSE, neither paused nor aborted after RESUME, aborted after ABORT. */
  lemma ActsExactly(c: RolloutCommand, fleet: Fleet, f: Faults)
    ensures var (after, err) := Acted(c, fleet, f);
            var at := (c.namespace, c.rolloutName);
            && after.Keys == fleet.Keys
            && (forall k :: k in fleet && k != at ==> after[k] == fleet[k])
            && (at in fleet ==> after[at].rest == fleet[at].rest)
            && (err.None? ==>
                  && at in after
                  && (c.action == PAUSE ==> after[at].paused && after[at].aborted == fleet[at].aborted)
                  && (c.action == RESUME ==> !after[at].paused && !after[at].aborted)
                  && (c.action == ABORT ==> after[at].aborted && after[at].paused == fleet[at].paused))
  {}

  /** When a command works. */
  lemma SucceedsExactly(c: RolloutCommand, fleet: Fleet, f: Faults)
    ensures Acted(c, fleet, f).1.None? <==>
            && !f.factory && (c.namespace, c.rolloutName) in fleet
            && ((c.action == PAUSE && !f.spec) || (c.action == ABORT && !StatusFails(f))
                || (c.action == RESUME && !f.spec && !StatusFails(f)))
  {}

  /** A command that fails leaves the cluster alone, with one exception: a RESUME whose first patch
      worked and whose second did not has already unpaused a paused rollout. */
  lemma FailureLeavesExactly(c: RolloutCommand, fleet: Fleet, f: Faults)
    requires Acted(c, fleet, f).1.Some?
    ensures var at := (c.namespace, c.rolloutName);
            Acted(c, fleet, f).0 != fleet <==>
            !f.factory && c.action == RESUME && at in fleet && fleet[at].paused && !f.spec && StatusFails(f)
  {
    var at := (c.namespace, c.rolloutName);
    if at in fleet {
      assert fleet[at := fleet[at]] == fleet;
      assert !fleet[at].paused ==> fleet[at].(paused := false) == fleet[at];
    }
  }

  /** PAUSE and RESUME undo each other on a rollout that was neither paused nor aborted, and only there. */
  lemma PauseThenResume(namespace: string, name: string, fleet: Fleet)
    requires (namespace, name) in fleet
    ensures var at := (namespace, name);
            var paused := Acted(RolloutCommand(namespace, name, PAUSE), fleet, NO_FAULTS).0;
            Acted(RolloutCommand(namespace, name, RESUME), paused, NO_FAULTS).0 == fleet <==>
            !fleet[at].paused && !fleet[at].aborted
  {
    var at := (namespace, name);
    var paused := Acted(RolloutCommand(namespace, name, PAUSE), fleet, NO_FAULTS).0;
    var resumed := Acted(RolloutCommand(namespace, name, RESUME), paused, NO_FAULTS).0;
    assert resumed == fleet[at := fleet[at].(paused := false, aborted := false)];
    if !fleet[at].paused && !fleet[at].aborted {
      assert fleet[at].(paused := false, aborted := false) == fleet[at];
    } else {
      assert resumed[at] != fleet[at];
    }
  }
}
