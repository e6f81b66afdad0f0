/** Runs of transition systems: sequences of labels taken one after the other. */
module Runs {
  import opened Prelude

  /** The state a sequence of transitions leads to, if each is enabled in turn. */
  function Exec<S, L>(step: (S, L) -> Option<S>, s: S, labels: seq<L>): Option<S>
    decreases |labels|
  {
    if labels == [] then Some(s)
    else
      var n := |labels| - 1;
      match Exec(step, s, labels[..n])
      case None => None
      case Some(t) => step(t, labels[n])
  }

  /** Runs extend one label at a time. */
  lemma ExecSnoc<S, L>(step: (S, L) -> Option<S>, s: S, labels: seq<L>, l: L)
    requires Exec(step, s, labels).Some?
    ensures Exec(step, s, labels + [l]) == step(Exec(step, s, labels).value, l)
  {
    assert (labels + [l])[..|labels|] == labels;
  }

  /** The last transition of a run. */
  lemma ExecLast<S, L>(step: (S, L) -> Option<S>, s: S, labels: seq<L>)
    requires Exec(step, s, labels).Some? && labels != []
    ensures var n := |labels| - 1;
            && Exec(step, s, labels[..n]).Some?
            && step(Exec(step, s, labels[..n]).value, labels[n]) == Exec(step, s, labels)
  {}

  /** What follows a prefix of a run is a run of its own. */
  lemma {:induction false} ExecSplit<S, L>(step: (S, L) -> Option<S>, s: S, labels: seq<L>, k: nat)
    requires k <= |labels| && Exec(step, s, labels).Some?
    ensures Exec(step, s, labels[..k]).Some?
    ensures Exec(step, Exec(step, s, labels[..k]).value, labels[k..]) == Exec(step, s, labels)
    decreases |labels|
  {
    if k < |labels| {
      var n := |labels| - 1;
      var front := labels[..n];
      assert front[..k] == labels[..k] && labels[k..][..n - k] == front[k..];
      ExecSplit(step, s, front, k);
    } else {
      assert labels[..k] == labels;
    }
  }

  /** The states before and after one transition of a run, and the run that remains. */
  lemma ExecAt<S, L>(step: (S, L) -> Option<S>, s: S, labels: seq<L>, k: nat)
    requires k < |labels| && Exec(step, s, labels).Some?
    ensures Exec(step, s, labels[..k]).Some? && Exec(step, s, labels[..k + 1]).Some?
    ensures step(Exec(step, s, labels[..k]).value, labels[k]) == Exec(step, s, labels[..k + 1])
    ensures Exec(step, Exec(step, s, labels[..k + 1]).value, labels[k + 1..]) == Exec(step, s, labels)
  {
    ExecSplit(step, s, labels, k + 1);
    var shorter := labels[..k + 1];
    assert shorter[..k] == labels[..k];
    ExecLast(step, s, shorter);
  }

  /** The states at two transitions of a run, the earlier first. */
  lemma ExecBetween<S, L>(step: (S, L) -> Option<S>, s: S, labels: seq<L>, j: nat, k: nat)
    requires j < k < |labels| && Exec(step, s, labels).Some?
    ensures Exec(step, s, labels[..j]).Some? && Exec(step, s, labels[..j + 1]).Some? && Exec(step, s, labels[..k]).Some?
    ensures step(Exec(step, s, labels[..j]).value, labels[j]) == Exec(step, s, labels[..j + 1])
    ensures Exec(step, Exec(step, s, labels[..j + 1]).value, labels[j + 1..k]) == Exec(step, s, labels[..k])
    ensures step(Exec(step, s, labels[..k]).value, labels[k]).Some?
  {
    ExecAt(step, s, labels, k);
    var shorter := labels[..k];
    ExecAt(step, s, shorter, j);
    assert shorter[..j] == labels[..j] && shorter[..j + 1] == labels[..j + 1];
    assert shorter[j + 1..] == labels[j + 1..k];
  }
}
