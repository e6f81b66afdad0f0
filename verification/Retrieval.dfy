/** The retriever: a goroutine that streams directives from the Director into a channel of capacity
    one, parks when a stream ends, and restarts when a report wakes it. */
module Retrieval {
  import opened Prelude
  import Runs

  // ----- The transition system -----

  datatype Loop<D> =
    | Opening          // about to call Retrieve
    | Receiving        // blocked in Recv
    | Holding(held: D) // blocked sending a received directive
    | Parked           // blocked waiting for a wake-up or cancellation
    | Exited

  /** `wake` and `buffer` are the two channels. The other half is history: what all streams delivered,
      what the agent consumed, what cancellation dropped, and how often the loop called Retrieve. */
  datatype State<D> = State(loop: Loop<D>, wake: bool, buffer: seq<D>, cancelled: bool,
                            received: seq<D>, consumed: seq<D>, dropped: seq<D>, attempts: nat, restarts: nat)

  function Start<D>(): State<D> {
    State(Opening, false, [], false, [], [], [], 0, 0)
  }

  datatype Label<D> =
    | Open(ok: bool)
    | Recv(directive: D)
    | RecvError
    | Push
    | GiveUp
    | Restart
    | Exit
    | Report     // Report or StreamDiagnostics is called
    | Consume    // the agent takes a directive
    | Cancel     // Close is called, or the agent's context ends

  predicate IsEnvironment<D>(l: Label<D>) {
    l.Report? || l.Consume? || l.Cancel?
  }

  /** Retrieve on a cancelled context is assumed to fail, as gRPC documents. */
  predicate Enabled<D>(s: State<D>, l: Label<D>) {
    match l
    case Open(ok) => s.loop.Opening? && (ok ==> !s.cancelled)
    case Recv(_) => s.loop.Receiving?
    case RecvError => s.loop.Receiving?
    case Push => s.loop.Holding? && |s.buffer| < 1
    case GiveUp => s.loop.Holding? && s.cancelled
    case Restart => s.loop.Parked? && s.wake
    case Exit => s.loop.Parked? && s.cancelled
    case Report => true
    case Consume => s.buffer != []
    case Cancel => true
  }

  function Next<D>(s: State<D>, l: Label<D>): State<D>
    requires Enabled(s, l)
  {
    match l
    case Open(ok) => s.(attempts := s.attempts + 1, loop := if ok then Receiving else Parked)
    case Recv(d) => s.(loop := Holding(d), received := s.received + [d])
    case RecvError => s.(loop := Parked)
    case Push => s.(loop := Receiving, buffer := s.buffer + [s.loop.held])
    case GiveUp => s.(loop := Parked, dropped := s.dropped + [s.loop.held])
    case Restart => s.(loop := Opening, wake := false, restarts := s.restarts + 1)
    case Exit => s.(loop := Exited)
    case Report => s.(wake := true)
    case Consume => s.(consumed := s.consumed + [s.buffer[0]], buffer := s.buffer[1..])
    case Cancel => s.(cancelled := true)
  }

  function Step<D>(s: State<D>, l: Label<D>): Option<State<D>> {
    if Enabled(s, l) then Some(Next(s, l)) else None
  }

  /** The state a run leads to. */
  function Exec<D>(s: State<D>, labels: seq<Label<D>>): Option<State<D>> {
    Runs.Exec<State<D>, Label<D>>(Step, s, labels)
  }

  lemma ExecSnoc<D>(s: State<D>, labels: seq<Label<D>>, l: Label<D>)
    requires Exec(s, labels).Some? && Enabled(Exec(s, labels).value, l)
    ensures Exec(s, labels + [l]) == Some(Next(Exec(s, labels).value, l))
  {
    Runs.ExecSnoc<State<D>, Label<D>>(Step, s, labels, l);
  }

  // ----- No directive is lost, repeated or reordered -----

  function InHand<D>(s: State<D>): seq<D> {
    if s.loop.Holding? then [s.loop.held] else []
  }

  ghost predicate Conserved<D>(s: State<D>) {
    && |s.buffer| <= 1 && |s.dropped| <= 1
    && s.consumed + s.buffer + InHand(s) + s.dropped == s.received
    && (s.dropped != [] ==> s.cancelled && !s.loop.Holding? && !s.loop.Receiving?)
  }

  lemma ConservedStep<D>(s: State<D>, l: Label<D>)
    requires Conserved(s) && Enabled(s, l)
    ensures Conserved(Next(s, l))
  {}

  /** In every run, what the agent consumed, then what is buffered, then what the loop holds, is in
      order everything all the streams delivered, save at most one directive, the last, dropped on
      cancellation. */
  lemma {:induction false} Conservation<D>(labels: seq<Label<D>>)
    requires Exec(Start<D>(), labels).Some?
    ensures Conserved(Exec(Start<D>(), labels).value)
    decreases |labels|
  {
    if labels != [] {
      var n := |labels| - 1;
      Conservation(labels[..n]);
      ConservedStep(Exec(Start<D>(), labels[..n]).value, labels[n]);
    }
  }

  /** The agent always sees a prefix of what the Director sent; without cancellation everything sent
      is consumed, buffered or in hand. */
  lemma ConsumedIsPrefix<D>(labels: seq<Label<D>>, s: State<D>)
    requires Exec(Start<D>(), labels) == Some(s)
    ensures s.consumed <= s.received
    ensures !s.cancelled ==> s.received == s.consumed + s.buffer + InHand(s)
  {
    Conservation(labels);
    assert s.consumed + (s.buffer + InHand(s) + s.dropped) == s.received;
  }

  // ----- No wake-up is lost -----

  /** Some report has been made since the loop last took a wake-up. */
  predicate ReportedSinceRestart<D>(labels: seq<Label<D>>) {
    exists k :: 0 <= k < |labels| && labels[k].Report? && forall j :: k < j < |labels| ==> !labels[j].Restart?
  }

  lemma SinceRestartSnoc<D>(front: seq<Label<D>>, l: Label<D>)
    ensures ReportedSinceRestart(front + [l]) <==> l.Report? || (ReportedSinceRestart(front) && !l.Restart?)
  {
    var labels := front + [l];
    if l.Report? {
      assert labels[|front|].Report?;
    } else if ReportedSinceRestart(front) && !l.Restart? {
      var k :| 0 <= k < |front| && front[k].Report? && forall j :: k < j < |front| ==> !front[j].Restart?;
      assert labels[k].Report?;
    } else if ReportedSinceRestart(labels) {
      var k :| 0 <= k < |labels| && labels[k].Report? && forall j :: k < j < |labels| ==> !labels[j].Restart?;
      assert k < |front| && front[k].Report?;
      assert !labels[|front|].Restart?;
      forall j | k < j < |front|
        ensures !front[j].Restart?
      {
        assert labels[j] == front[j];
      }
    }
  }

  /** The wake-up channel is full exactly when a report has been made since the last restart. */
  lemma {:induction false} WakeIffReported<D>(labels: seq<Label<D>>)
    requires Exec(Start<D>(), labels).Some?
    ensures Exec(Start<D>(), labels).value.wake <==> ReportedSinceRestart(labels)
    decreases |labels|
  {
    if labels != [] {
      var n := |labels| - 1;
      WakeIffReported(labels[..n]);
      SinceRestartSnoc(labels[..n], labels[n]);
      assert labels[..n] + [labels[n]] == labels;
    }
  }

  /** So a parked retriever can restart exactly when a report has been made since its last restart:
      a report made while it is parked, or while it was still streaming, is never forgotten. */
  lemma RestartExactlyWhenReported<D>(labels: seq<Label<D>>, s: State<D>)
    requires Exec(Start<D>(), labels) == Some(s) && s.loop.Parked?
    ensures Enabled(s, Restart) <==> ReportedSinceRestart(labels)
  {
    WakeIffReported(labels);
  }

  function Reports<D>(labels: seq<Label<D>>): nat
    decreases |labels|
  {
    if labels == [] then 0
    else Reports(labels[..|labels| - 1]) + if labels[|labels| - 1].Report? then 1 else 0
  }

  /** Retrieve is called at most once more than reports are made. */
  lemma {:induction false} AttemptsBounded<D>(labels: seq<Label<D>>)
    requires Exec(Start<D>(), labels).Some?
    ensures var s := Exec(Start<D>(), labels).value;
            && s.attempts + (if s.loop.Opening? then 1 else 0) == 1 + s.restarts
            && s.restarts + (if s.wake then 1 else 0) <= Reports(labels)
    ensures Exec(Start<D>(), labels).value.attempts <= 1 + Reports(labels)
    decreases |labels|
  {
    if labels != [] {
      var n := |labels| - 1;
      AttemptsBounded(labels[..n]);
      AttemptsStep(Exec(Start<D>(), labels[..n]).value, labels[n]);
    }
  }

  lemma AttemptsStep<D>(s: State<D>, l: Label<D>)
    requires Enabled(s, l)
    ensures var t := Next(s, l);
            && t.attempts + (if t.loop.Opening? then 1 else 0) - t.restarts
               == s.attempts + (if s.loop.Opening? then 1 else 0) - s.restarts
            && t.restarts + (if t.wake then 1 else 0)
               <= s.restarts + (if s.wake then 1 else 0) + (if l.Report? then 1 else 0)
  {
  }
}
