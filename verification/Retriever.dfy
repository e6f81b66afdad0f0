/** The retriever goroutine: its two nested loops, with other goroutines between any two of its steps. */
module RetrieverObject {
  import opened Prelude
  import opened Retrieval
  import opened RetrievalScript

  /** A run, the states between the choices it met, and the steps it took at them. */
  datatype Record<D> = Record(trace: seq<Label<D>>, states: seq<State<D>>, acts: seq<Act<D>>)

  class Retriever<D> {
    var loop: Loop<D>
    var rptWake: bool
    var directives: seq<D>
    var cancelled: bool
    ghost var received: seq<D>
    ghost var consumed: seq<D>
    ghost var dropped: seq<D>
    ghost var attempts: nat
    ghost var restarts: nat

    ghost function View(): State<D>
      reads this
    {
      State(loop, rptWake, directives, cancelled, received, consumed, dropped, attempts, restarts)
    }

    constructor ()
      ensures View() == Start<D>()
    {
      loop, rptWake, directives, cancelled := Opening, false, [], false;
      received, consumed, dropped, attempts, restarts := [], [], [], 0, 0;
    }

    /** The run so far is one of the transition system, and it plays the script. */
    ghost predicate Plays(script: seq<Choice<D>>, record: Record<D>)
      reads this
    {
      && Exec(Start<D>(), record.trace) == Some(View())
      && Performed(script, record.states, record.acts)
      && View() == record.states[|record.acts|]
      && Own(record.trace) == Steps(record.acts)
    }

    /** Reports, consumption and cancellation by other goroutines; impossible ones are skipped. */
    method Interfere(others: seq<Label<D>>, ghost trace: seq<Label<D>>) returns (ghost longer: seq<Label<D>>)
      requires Exec(Start<D>(), trace) == Some(View())
      modifies this`rptWake, this`directives, this`cancelled, this`consumed
      ensures Exec(Start<D>(), longer) == Some(View()) && Own(longer) == Own(trace)
      ensures View() == Overheard(old(View()), others)
    {
      longer := trace;
      for k := 0 to |others|
        invariant Exec(Start<D>(), longer) == Some(View()) && Own(longer) == Own(trace)
        invariant View() == Overheard(old(View()), others[..k])
      {
        assert others[..k + 1][..k] == others[..k];
        longer := TakeOther(others[k], longer);
      }
      assert others[..|others|] == others;
    }

    method TakeOther(l: Label<D>, ghost trace: seq<Label<D>>) returns (ghost longer: seq<Label<D>>)
      requires Exec(Start<D>(), trace) == Some(View())
      modifies this`rptWake, this`directives, this`cancelled, this`consumed
      ensures Exec(Start<D>(), longer) == Some(View()) && Own(longer) == Own(trace)
      ensures View() == if Possible(old(View()), l) then Next(old(View()), l) else old(View())
    {
      longer := trace;
      if Possible(View(), l) {
        OwnSnoc(trace, l);
        ExecSnoc(Start<D>(), trace, l);
        longer := trace + [l];
      }
      match l
      case Report => rptWake := true;
      case Cancel => cancelled := true;
      case Consume =>
        if directives != [] {
          consumed := consumed + [directives[0]];
          directives := directives[1..];
        }
      case _ =>
    }

    /** One choice: the others move, and the retriever takes its step. */
    method Meet(script: seq<Choice<D>>, k: nat, ghost record: Record<D>) returns (ghost more: Record<D>)
      requires |record.acts| == k < |script| && Plays(script, record)
      modifies this
      ensures |more.acts| == k + 1 && Plays(script, more)
      ensures old(loop).Opening? ==> attempts == old(attempts) + 1 && (loop.Receiving? || loop.Parked?)
      ensures old(loop).Receiving? || old(loop).Holding? ==> loop.Receiving? || loop.Holding? || loop.Parked?
      ensures old(loop).Parked? ==> loop.Opening? || loop.Parked? || (loop.Exited? && cancelled)
      ensures !old(loop).Opening? ==> attempts == old(attempts)
    {
      ghost var act, longer := Turn(script[k], record.trace);
      PerformedSnoc(script, record.states, record.acts, act, View());
      StepsSnoc(record.acts, act);
      more := Record(longer, record.states + [View()], record.acts + [act]);
    }

    method Turn(choice: Choice<D>, ghost trace: seq<Label<D>>) returns (ghost act: Act<D>, ghost longer: seq<Label<D>>)
      requires Exec(Start<D>(), trace) == Some(View())
      modifies this
      ensures Exec(Start<D>(), longer) == Some(View())
      ensures RetrievalScript.Turn(choice, old(View()), act, View())
      ensures Own(longer) == Own(trace) + if act.Some? then [act.value] else []
      ensures old(loop).Opening? ==> attempts == old(attempts) + 1 && (loop.Receiving? || loop.Parked?)
      ensures old(loop).Receiving? || old(loop).Holding? ==> loop.Receiving? || loop.Holding? || loop.Parked?
      ensures old(loop).Parked? ==> loop.Opening? || loop.Parked? || (loop.Exited? && cancelled)
      ensures !old(loop).Opening? ==> attempts == old(attempts)
    {
      longer := Interfere(choice.others, trace);
      act := DueIn(choice, View());
      longer := Act(choice, longer);
    }

    /** The retriever's own step, by the state it is in. */
    method Act(choice: Choice<D>, ghost trace: seq<Label<D>>) returns (ghost longer: seq<Label<D>>)
      requires Exec(Start<D>(), trace) == Some(View())
      modifies this
      ensures View() == After(old(View()), DueIn(choice, old(View())))
      ensures Exec(Start<D>(), longer) == Some(View())
      ensures var a := DueIn(choice, old(View()));
              Own(longer) == Own(trace) + if a.Some? then [a.value] else []
    {
      ghost var act := DueIn(choice, View());
      longer := trace;
      if act.Some? {
        ExecSnoc(Start<D>(), trace, act.value);
        OwnSnoc(trace, act.value);
        longer := trace + [act.value];
      }
      match loop
      case Opening => Open(choice);
      case Receiving => Receive(choice);
      case Holding(_) => Forward(choice);
      case Parked => Wait(choice);
      case Exited =>
    }

    /** The call of Retrieve: opens a stream, or fails to. */
    method Open(choice: Choice<D>)
      requires loop.Opening?
      modifies this`loop, this`attempts
      ensures View() == Next(old(View()), Label<D>.Open(choice.ok && !cancelled))
    {
      attempts := attempts + 1;
      loop := if choice.ok && !cancelled then Receiving else Parked;
    }

    /** Recv: the next directive of the stream, or its end. */
    method Receive(choice: Choice<D>)
      requires loop.Receiving?
      modifies this`loop, this`received
      ensures View() == Next(old(View()), if choice.directive.Some? then Recv(choice.directive.value) else RecvError)
    {
      match choice.directive
      case None => loop := Parked;
      case Some(directive) =>
        received := received + [directive];
        loop := Holding(directive);
    }

    /** The select between sending to the channel and the end of the context; it keeps waiting while
        neither is possible. */
    method Forward(choice: Choice<D>)
      requires loop.Holding?
      modifies this`loop, this`directives, this`dropped
      ensures View() == After(old(View()), DueIn(choice, old(View())))
    {
      if |directives| < 1 && !(cancelled && choice.preferDone) {
        directives := directives + [loop.held];
        loop := Receiving;
      } else if cancelled {
        dropped := dropped + [loop.held];
        loop := Parked;
      }
    }

    /** The select between a wake-up and the end of the context. */
    method Wait(choice: Choice<D>)
      requires loop.Parked?
      modifies this`loop, this`rptWake, this`restarts
      ensures View() == After(old(View()), DueIn(choice, old(View())))
    {
      if rptWake && !(cancelled && choice.preferDone) {
        rptWake := false;
        restarts := restarts + 1;
        loop := Opening;
      } else if cancelled {
        loop := Exited;
      }
    }

    /** retrieve: opens a stream and forwards directives until the stream ends or the context does.
        Uses up choices from position `k` on. */
    method Retrieve(script: seq<Choice<D>>, k: nat, ghost record: Record<D>) returns (next: nat, ghost more: Record<D>)
      requires |record.acts| == k < |script| && Plays(script, record) && loop.Opening?
      modifies this
      ensures k < next <= |script| && |more.acts| == next && Plays(script, more)
      ensures loop.Parked? || next == |script|
      ensures attempts == old(attempts) + 1
    {
      more := Meet(script, k, record);
      next := k + 1;
      while next < |script| && !loop.Parked?
        invariant k < next <= |script| && |more.acts| == next && Plays(script, more)
        invariant loop.Receiving? || loop.Holding? || loop.Parked?
        invariant attempts == old(attempts) + 1
        decreases |script| - next
      {
        more := Meet(script, next, more);
        next := next + 1;
      }
    }

    /** retrieveLoop: retrieve, park, restart on a wake-up, exit on cancellation. Everything it does is
        a run of the transition system, its steps are the ones the script calls for, what it has received
        is what those steps heard, and it only stops before its script does by exiting, which takes a
        cancellation. */
    method RetrieveLoop(script: seq<Choice<D>>) returns (ghost acts: seq<Act<D>>, ghost trace: seq<Label<D>>)
      requires View() == Start<D>()
      modifies this
      ensures Exec(Start<D>(), trace) == Some(View())
      ensures Obeys(script, acts) && Own(trace) == Steps(acts) && received == Heard(acts)
      ensures |acts| == |script| || (loop.Exited? && cancelled)
      ensures Conserved(View()) && (rptWake <==> ReportedSinceRestart(trace))
      ensures attempts <= 1 + Reports(trace)
      ensures script != [] ==> attempts > 0
    {
      ghost var record := Record([], [View()], []);
      var k := 0;
      while k < |script| && !loop.Exited?
        invariant |record.acts| == k <= |script| && Plays(script, record)
        invariant k < |script| ==> loop.Opening? || loop.Parked? || (loop.Exited? && cancelled)
        invariant k > 0 ==> attempts > 0
        invariant k == 0 ==> loop.Opening?
        decreases |script| - k
      {
        if loop.Opening? {
          k, record := Retrieve(script, k, record);
        } else {
          record := Meet(script, k, record);
          k := k + 1;
        }
      }
      acts, trace := record.acts, record.trace;
      PerformedOut(script, record.states, acts, trace);
    }
  }
}
