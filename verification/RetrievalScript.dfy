/** What the retriever has to do when it meets a given script of choices, told without its state: only the
    script and the steps taken so far decide. */
module RetrievalScript {
  import opened Prelude
  import opened Retrieval

  /** What a blocking operation meets: the other goroutines' transitions before it, whether it
      succeeds, the directive if one arrives, and which ready case a select picks. */
  datatype Choice<D> = Choice(others: seq<Label<D>>, ok: bool, directive: Option<D>, preferDone: bool)

  /** The retriever's own step at a choice, or none while it is kept waiting. */
  type Act<D> = Option<Label<D>>

  // ----- What others have done by then -----

  predicate Cancels<D>(c: Choice<D>) {
    exists i :: 0 <= i < |c.others| && c.others[i].Cancel?
  }

  predicate Wakes<D>(c: Choice<D>) {
    exists i :: 0 <= i < |c.others| && c.others[i].Report?
  }

  predicate Consumes<D>(c: Choice<D>) {
    exists i :: 0 <= i < |c.others| && c.others[i].Consume?
  }

  /** One of the first `m` choices brings a cancellation. */
  predicate Cancelled<D>(script: seq<Choice<D>>, m: nat) {
    exists i :: 0 <= i < |script| && i < m && Cancels(script[i])
  }

  /** One of the first `m` choices brings a report, and no restart has followed. */
  predicate Woken<D>(script: seq<Choice<D>>, m: nat, acts: seq<Act<D>>) {
    exists i :: 0 <= i < |script| && i < m && Wakes(script[i])
                && forall j :: i <= j < |acts| ==> !(acts[j].Some? && acts[j].value.Restart?)
  }

  /** Every directive put into the channel has been taken by the agent at one of the first `m` choices. */
  ghost predicate Room<D>(script: seq<Choice<D>>, m: nat, acts: seq<Act<D>>) {
    forall j :: 0 <= j < |acts| && acts[j].Some? && acts[j].value.Push? ==> TakenAfter(script, m, j)
  }

  predicate TakenAfter<D>(script: seq<Choice<D>>, m: nat, j: int) {
    exists i :: 0 <= i < |script| && j < i < m && Consumes(script[i])
  }

  // ----- What the retriever does next -----

  function LastStep<D>(acts: seq<Act<D>>): Act<D>
    decreases |acts|
  {
    if acts == [] then None
    else if acts[|acts| - 1].Some? then acts[|acts| - 1] else LastStep(acts[..|acts| - 1])
  }

  /** The step due at the next choice. */
  ghost function Due<D>(script: seq<Choice<D>>, acts: seq<Act<D>>): Act<D>
    requires |acts| < |script|
  {
    var c := script[|acts|];
    var over := Cancelled(script, |acts| + 1);
    match LastStep(acts)
    case None => Some(Open(c.ok && !over))
    case Some(Restart) => Some(Open(c.ok && !over))
    case Some(Open(true)) => Some(if c.directive.Some? then Recv(c.directive.value) else RecvError)
    case Some(Push) => Some(if c.directive.Some? then Recv(c.directive.value) else RecvError)
    case Some(Recv(_)) =>
      if Room(script, |acts| + 1, acts) && !(over && c.preferDone) then Some(Push)
      else if over then Some(GiveUp) else None
    case Some(Exit) => None
    case Some(_) =>
      if Woken(script, |acts| + 1, acts) && !(over && c.preferDone) then Some(Restart)
      else if over then Some(Exit) else None
  }

  /** Every step was the one due. */
  ghost predicate Obeys<D>(script: seq<Choice<D>>, acts: seq<Act<D>>) {
    |acts| <= |script| && forall k :: 0 <= k < |acts| ==> ObeysAt(script, acts, k)
  }

  ghost predicate ObeysAt<D>(script: seq<Choice<D>>, acts: seq<Act<D>>, k: int)
    requires 0 <= k < |acts| <= |script|
  {
    acts[k] == Due(script, acts[..k])
  }

  lemma ObeysSnoc<D>(script: seq<Choice<D>>, acts: seq<Act<D>>)
    requires Obeys(script, acts) && |acts| < |script|
    ensures Obeys(script, acts + [Due(script, acts)])
  {
    var longer := acts + [Due(script, acts)];
    forall k | 0 <= k < |longer|
      ensures ObeysAt(script, longer, k)
    {
      assert longer[..k] == acts[..k];
      assert acts[..|acts|] == acts;
      assert k < |acts| ==> ObeysAt(script, acts, k);
    }
  }

  lemma ObeysPrefix<D>(script: seq<Choice<D>>, acts: seq<Act<D>>, n: nat)
    requires Obeys(script, acts) && n <= |acts|
    ensures Obeys(script, acts[..n])
  {
    forall k | 0 <= k < n
      ensures ObeysAt(script, acts[..n], k)
    {
      assert acts[..n][..k] == acts[..k];
      assert ObeysAt(script, acts, k);
    }
  }

  // ----- Streams and what they deliver -----

  /** A stream has been opened and has neither ended nor been given up since. */
  ghost predicate Streaming<D>(acts: seq<Act<D>>) {
    exists j :: Opened(acts, j) && forall i :: j < i < |acts| ==> !EndsStream(acts[i])
  }

  ghost predicate Opened<D>(acts: seq<Act<D>>, j: int) {
    0 <= j < |acts| && acts[j] == Some(Open(true))
  }

  predicate EndsStream<D>(a: Act<D>) {
    a.Some? && (a.value.RecvError? || a.value.GiveUp?)
  }

  /** A received directive has neither been put into the channel nor been given up. */
  ghost predicate HoldsOne<D>(acts: seq<Act<D>>) {
    exists j :: Received(acts, j)
  }

  /** A directive was received at choice `j`, and the retriever has been kept waiting since. */
  ghost predicate Received<D>(acts: seq<Act<D>>, j: int) {
    0 <= j < |acts| && acts[j].Some? && acts[j].value.Recv? && forall i :: j < i < |acts| ==> acts[i].None?
  }

  /** The directives received, in order. */
  function Heard<D>(acts: seq<Act<D>>): seq<D>
    decreases |acts|
  {
    if acts == [] then []
    else
      var n := |acts| - 1;
      Heard(acts[..n]) + if acts[n].Some? && acts[n].value.Recv? then [acts[n].value.directive] else []
  }

  lemma {:induction false} HoldsExactly<D>(acts: seq<Act<D>>)
    ensures HoldsOne(acts) <==> LastStep(acts).Some? && LastStep(acts).value.Recv?
    decreases |acts|
  {
    if acts != [] {
      var n := |acts| - 1;
      HoldsExactly(acts[..n]);
      HoldsSnoc(acts[..n], acts[n]);
      assert acts[..n] + [acts[n]] == acts;
    }
  }

  lemma HoldsSnoc<D>(front: seq<Act<D>>, a: Act<D>)
    ensures HoldsOne(front + [a]) <==> (a.Some? && a.value.Recv?) || (a.None? && HoldsOne(front))
  {
    var acts := front + [a];
    assert acts[|front|] == a;
    if a.Some? && a.value.Recv? {
      assert Received(acts, |front|);
    } else if j :| Received(front, j) && a.None? {
      assert Received(acts, j);
    }
    if j :| Received(acts, j) && j < |front| {
      assert acts[|front|].None?;
      assert Received(front, j) by {
        assert forall i :: j < i < |front| ==> front[i] == acts[i];
      }
    }
  }

  predicate OnStream<D>(a: Act<D>) {
    a.Some? && (a.value.Push? || a.value.Recv? || (a.value.Open? && a.value.ok))
  }

  lemma StreamingSnoc<D>(front: seq<Act<D>>, a: Act<D>)
    ensures Streaming(front + [a]) <==> a == Some(Open(true)) || (Streaming(front) && !EndsStream(a))
  {
    var acts := front + [a];
    if a == Some(Open(true)) {
      assert Opened(acts, |front|);
    } else if j :| Opened(front, j) && (forall i :: j < i < |front| ==> !EndsStream(front[i])) && !EndsStream(a) {
      assert Opened(acts, j);
    }
    if j :| Opened(acts, j) && (forall i :: j < i < |acts| ==> !EndsStream(acts[i])) && j < |front| {
      assert Opened(front, j) && !EndsStream(acts[|front|]);
      assert forall i :: j < i < |front| ==> front[i] == acts[i];
    }
  }

  /** The stream is open exactly while the last step is one taken on a stream. */
  lemma {:induction false} StreamingExactly<D>(script: seq<Choice<D>>, acts: seq<Act<D>>)
    requires Obeys(script, acts)
    ensures Streaming(acts) <==> OnStream(LastStep(acts))
    decreases |acts|
  {
    if acts != [] {
      var front, a := acts[..|acts| - 1], acts[|acts| - 1];
      ObeysPrefix(script, acts, |acts| - 1);
      StreamingExactly(script, front);
      assert ObeysAt(script, acts, |acts| - 1);
      StreamingSnoc(front, a);
      DueOnStream(script, front);
      assert front + [a] == acts;
    }
  }

  lemma DueOnStream<D>(script: seq<Choice<D>>, front: seq<Act<D>>)
    requires |front| < |script|
    ensures var a, last := Due(script, front), LastStep(front);
            a == Some(Open(true)) || (OnStream(last) && !EndsStream(a)) <==> OnStream(if a.Some? then a else last)
  {}

  /** Retrieve is attempted at the first choice and after each restart, and opens a stream exactly when
      the call succeeds and no cancellation has come by then. */
  lemma OpensExactly<D>(script: seq<Choice<D>>, acts: seq<Act<D>>, k: nat)
    requires Obeys(script, acts) && k < |acts|
    ensures acts[k].Some? && acts[k].value.Open? <==>
            LastStep(acts[..k]).None? || LastStep(acts[..k]).value.Restart?
    ensures acts[k].Some? && acts[k].value.Open? ==>
              (acts[k].value.ok <==> script[k].ok && forall i :: 0 <= i <= k ==> !Cancels(script[i]))
  {
    assert ObeysAt(script, acts, k);
  }

  /** A directive is received exactly when a stream is open, none is held, and the script has one; and it
      is that one. The stream ends exactly when the script has none. */
  lemma ReceivesExactly<D>(script: seq<Choice<D>>, acts: seq<Act<D>>, k: nat)
    requires Obeys(script, acts) && k < |acts|
    ensures var asked := Streaming(acts[..k]) && !HoldsOne(acts[..k]);
            && (acts[k].Some? && acts[k].value.Recv? <==> asked && script[k].directive.Some?)
            && (acts[k].Some? && acts[k].value.RecvError? <==> asked && script[k].directive.None?)
    ensures acts[k].Some? && acts[k].value.Recv? ==> Some(acts[k].value.directive) == script[k].directive
  {
    assert ObeysAt(script, acts, k);
    ObeysPrefix(script, acts, k);
    StreamingExactly(script, acts[..k]);
    HoldsExactly(acts[..k]);
  }

  /** A held directive is forwarded or given up as soon as there is room or a cancellation; with both,
      either may happen. */
  lemma ForwardsExactly<D>(script: seq<Choice<D>>, acts: seq<Act<D>>, k: nat)
    requires Obeys(script, acts) && k < |acts| && HoldsOne(acts[..k])
    ensures acts[k].None? <==> !Room(script, k + 1, acts[..k]) && !Cancelled(script, k + 1)
    ensures acts[k].Some? ==> acts[k].value.Push? || acts[k].value.GiveUp?
    ensures acts[k].Some? && acts[k].value.Push? ==> Room(script, k + 1, acts[..k])
    ensures acts[k].Some? && acts[k].value.GiveUp? ==> Cancelled(script, k + 1)
  {
    assert ObeysAt(script, acts, k);
    HoldsExactly(acts[..k]);
  }

  ghost predicate ParkedAt<D>(acts: seq<Act<D>>) {
    LastStep(acts) == Some(Open(false)) || EndsStream(LastStep(acts))
  }

  /** A parked retriever restarts or exits as soon as a report since its last restart or a cancellation is
      there; with both, either may happen. */
  lemma RestartsExactly<D>(script: seq<Choice<D>>, acts: seq<Act<D>>, k: nat)
    requires Obeys(script, acts) && k < |acts| && ParkedAt(acts[..k])
    ensures acts[k].None? <==> !Woken(script, k + 1, acts[..k]) && !Cancelled(script, k + 1)
    ensures acts[k].Some? ==> acts[k].value.Restart? || acts[k].value.Exit?
    ensures acts[k].Some? && acts[k].value.Restart? ==> Woken(script, k + 1, acts[..k])
    ensures acts[k].Some? && acts[k].value.Exit? ==> Cancelled(script, k + 1)
  {
    assert ObeysAt(script, acts, k);
  }

  // ----- How the script's view follows the state -----

  /** The retriever is where the last step left it. */
  ghost predicate PhaseFits<D>(loop: Loop<D>, acts: seq<Act<D>>) {
    match LastStep(acts)
    case None => loop == Opening
    case Some(Restart) => loop == Opening
    case Some(Open(true)) => loop == Receiving
    case Some(Push) => loop == Receiving
    case Some(Recv(d)) => loop == Holding(d)
    case Some(Exit) => loop == Exited
    case Some(_) => loop == Parked
  }

  /** State and script agree on what has happened by the `m`-th choice. */
  ghost predicate Agrees<D>(script: seq<Choice<D>>, m: nat, acts: seq<Act<D>>, loop: Loop<D>, wake: bool,
                            buffer: seq<D>, cancelled: bool)
  {
    && PhaseFits(loop, acts)
    && (cancelled <==> Cancelled(script, m))
    && (wake <==> Woken(script, m, acts))
    && (buffer == [] <==> Room(script, m, acts))
  }

  lemma AgreesStart<D>(script: seq<Choice<D>>)
    ensures Agrees(script, 0, [], Opening, false, [], false) && Obeys(script, [])
  {}

  lemma CancelledNext<D>(script: seq<Choice<D>>, m: nat)
    requires m < |script|
    ensures Cancelled(script, m + 1) <==> Cancelled(script, m) || Cancels(script[m])
  {}

  lemma WokenNext<D>(script: seq<Choice<D>>, acts: seq<Act<D>>)
    requires |acts| < |script|
    ensures Woken(script, |acts| + 1, acts) <==> Woken(script, |acts|, acts) || Wakes(script[|acts|])
  {}

  lemma RoomNext<D>(script: seq<Choice<D>>, acts: seq<Act<D>>)
    requires |acts| < |script|
    ensures Room(script, |acts| + 1, acts) <==> Room(script, |acts|, acts) || Consumes(script[|acts|])
  {
    forall j | 0 <= j < |acts|
      ensures TakenAfter(script, |acts| + 1, j) <==> TakenAfter(script, |acts|, j) || Consumes(script[|acts|])
    {}
  }

  /** After the others have moved. */
  lemma AgreesNext<D>(script: seq<Choice<D>>, acts: seq<Act<D>>, loop: Loop<D>, wake: bool, buffer: seq<D>,
                      cancelled: bool, wake': bool, buffer': seq<D>, cancelled': bool)
    requires |acts| < |script| && Agrees(script, |acts|, acts, loop, wake, buffer, cancelled)
    requires cancelled' <==> cancelled || Cancels(script[|acts|])
    requires wake' <==> wake || Wakes(script[|acts|])
    requires buffer' == [] <==> buffer == [] || Consumes(script[|acts|])
    ensures Agrees(script, |acts| + 1, acts, loop, wake', buffer', cancelled')
  {
    CancelledNext(script, |acts|);
    WokenNext(script, acts);
    RoomNext(script, acts);
  }

  /** After a step, which takes the wake-up if it is a restart and fills the channel if it is a push. */
  lemma AgreesAct<D>(script: seq<Choice<D>>, acts: seq<Act<D>>, a: Act<D>, loop: Loop<D>, wake: bool, buffer: seq<D>,
                     cancelled: bool, loop': Loop<D>, wake': bool, buffer': seq<D>)
    requires |acts| < |script| && Agrees(script, |acts| + 1, acts, loop, wake, buffer, cancelled)
    requires PhaseFits(loop', acts + [a])
    requires wake' <==> wake && !(a.Some? && a.value.Restart?)
    requires buffer' == [] <==> buffer == [] && !(a.Some? && a.value.Push?)
    ensures Agrees(script, |acts| + 1, acts + [a], loop', wake', buffer', cancelled)
  {
    var longer, m := acts + [a], |acts| + 1;
    assert longer[|acts|] == a;
    assert forall j :: 0 <= j < |acts| ==> longer[j] == acts[j];
    if wake' {
      var i :| 0 <= i < |script| && i < m && Wakes(script[i])
               && forall j :: i <= j < |acts| ==> !(acts[j].Some? && acts[j].value.Restart?);
      assert forall j :: i <= j < |longer| ==> !(longer[j].Some? && longer[j].value.Restart?);
    }
    if i :| 0 <= i < |script| && i < m && Wakes(script[i])
            && forall j :: i <= j < |longer| ==> !(longer[j].Some? && longer[j].value.Restart?) {
      assert forall j :: i <= j < |acts| ==> !(acts[j].Some? && acts[j].value.Restart?);
    }
    assert !TakenAfter(script, m, |acts|);
  }

  lemma StepSnoc<D>(acts: seq<Act<D>>, a: Act<D>)
    ensures LastStep(acts + [a]) == if a.Some? then a else LastStep(acts)
    ensures Heard(acts + [a]) == Heard(acts) + if a.Some? && a.value.Recv? then [a.value.directive] else []
  {
    assert (acts + [a])[..|acts|] == acts;
  }

  /** The retriever's own steps of a run. */
  function Own<D>(labels: seq<Label<D>>): seq<Label<D>>
    decreases |labels|
  {
    if labels == [] then []
    else
      var n := |labels| - 1;
      Own(labels[..n]) + if IsEnvironment(labels[n]) then [] else [labels[n]]
  }

  function Steps<D>(acts: seq<Act<D>>): seq<Label<D>>
    decreases |acts|
  {
    if acts == [] then []
    else
      var n := |acts| - 1;
      Steps(acts[..n]) + if acts[n].Some? then [acts[n].value] else []
  }

  lemma OwnSnoc<D>(labels: seq<Label<D>>, l: Label<D>)
    ensures Own(labels + [l]) == Own(labels) + if IsEnvironment(l) then [] else [l]
  {
    assert (labels + [l])[..|labels|] == labels;
  }

  lemma StepsSnoc<D>(acts: seq<Act<D>>, a: Act<D>)
    ensures Steps(acts + [a]) == Steps(acts) + if a.Some? then [a.value] else []
  {
    assert (acts + [a])[..|acts|] == acts;
  }

  // ----- Playing the script -----

  /** The step due, read off the state. */
  function DueIn<D>(c: Choice<D>, v: State<D>): (a: Act<D>)
    ensures a.Some? ==> Enabled(v, a.value) && !IsEnvironment(a.value)
  {
    match v.loop
    case Opening => Some(Label<D>.Open(c.ok && !v.cancelled))
    case Receiving => Some(if c.directive.Some? then Recv(c.directive.value) else RecvError)
    case Holding(_) =>
      if |v.buffer| < 1 && !(v.cancelled && c.preferDone) then Some(Push)
      else if v.cancelled then Some(GiveUp) else None
    case Parked =>
      if v.wake && !(v.cancelled && c.preferDone) then Some(Restart)
      else if v.cancelled then Some(Exit) else None
    case Exited => None
  }

  function After<D>(v: State<D>, a: Act<D>): State<D>
    requires a.Some? ==> Enabled(v, a.value)
  {
    if a.Some? then Next(v, a.value) else v
  }

  /** The other goroutines' transitions, skipping those that are impossible. */
  function Overheard<D>(v: State<D>, others: seq<Label<D>>): State<D>
    decreases |others|
  {
    if others == [] then v
    else
      var n := |others| - 1;
      var u := Overheard(v, others[..n]);
      if Possible(u, others[n]) then Next(u, others[n]) else u
  }

  predicate Possible<D>(v: State<D>, l: Label<D>) {
    IsEnvironment(l) && Enabled(v, l)
  }

  /** One choice: the others move, and the retriever takes the step `a`, if any. */
  ghost predicate Turn<D>(c: Choice<D>, v: State<D>, a: Act<D>, t: State<D>) {
    var u := Overheard(v, c.others);
    a == DueIn(c, u) && t == After(u, a)
  }

  /** The states between the choices met so far, and the steps taken at them. */
  ghost predicate Performed<D>(script: seq<Choice<D>>, states: seq<State<D>>, acts: seq<Act<D>>) {
    && |acts| <= |script| && |states| == |acts| + 1 && states[0] == Start<D>()
    && forall k :: 0 <= k < |acts| ==> TurnAt(script, states, acts, k)
  }

  ghost predicate TurnAt<D>(script: seq<Choice<D>>, states: seq<State<D>>, acts: seq<Act<D>>, k: int)
    requires 0 <= k < |acts| <= |script| && |states| == |acts| + 1
  {
    Turn(script[k], states[k], acts[k], states[k + 1])
  }

  lemma PerformedSnoc<D>(script: seq<Choice<D>>, states: seq<State<D>>, acts: seq<Act<D>>, a: Act<D>, t: State<D>)
    requires Performed(script, states, acts) && |acts| < |script| && Turn(script[|acts|], states[|acts|], a, t)
    ensures Performed(script, states + [t], acts + [a])
  {
    forall k | 0 <= k <= |acts|
      ensures TurnAt(script, states + [t], acts + [a], k)
    {
      assert k < |acts| ==> TurnAt(script, states, acts, k);
    }
  }

  lemma PerformedPrefix<D>(script: seq<Choice<D>>, states: seq<State<D>>, acts: seq<Act<D>>, n: nat)
    requires Performed(script, states, acts) && n <= |acts|
    ensures Performed(script, states[..n + 1], acts[..n])
  {
    var fewer, shorter := states[..n + 1], acts[..n];
    forall k | 0 <= k < n
      ensures TurnAt(script, fewer, shorter, k)
    {
      assert TurnAt(script, states, acts, k);
    }
  }

  lemma {:induction false} OverheardBrings<D>(v: State<D>, others: seq<Label<D>>)
    requires |v.buffer| <= 1
    ensures var u := Overheard(v, others);
            && u.loop == v.loop && u.received == v.received && |u.buffer| <= 1
            && (u.wake <==> v.wake || exists i :: 0 <= i < |others| && others[i].Report?)
            && (u.cancelled <==> v.cancelled || exists i :: 0 <= i < |others| && others[i].Cancel?)
            && (u.buffer == [] <==> v.buffer == [] || exists i :: 0 <= i < |others| && others[i].Consume?)
    decreases |others|
  {
    if others != [] {
      var n := |others| - 1;
      var front := others[..n];
      OverheardBrings(v, front);
      assert forall i :: 0 <= i < n ==> front[i] == others[i];
    }
  }

  /** In state `v` the steps taken are the ones the script calls for, and they say what was received. */
  ghost predicate Faithful<D>(script: seq<Choice<D>>, acts: seq<Act<D>>, m: nat, v: State<D>) {
    && Obeys(script, acts) && v.received == Heard(acts)
    && Agrees(script, m, acts, v.loop, v.wake, v.buffer, v.cancelled)
    && |v.buffer| <= 1
  }

  /** Reading the step off the state gives the step the script calls for. */
  lemma {:induction false} PerformedFaithfully<D>(script: seq<Choice<D>>, states: seq<State<D>>, acts: seq<Act<D>>)
    requires Performed(script, states, acts)
    ensures Faithful(script, acts, |acts|, states[|acts|])
    decreases |acts|
  {
    if acts == [] {
      AgreesStart(script);
    } else {
      var n := |acts| - 1;
      PerformedPrefix(script, states, acts, n);
      PerformedFaithfully(script, states[..n + 1], acts[..n]);
      assert TurnAt(script, states, acts, n);
      FaithfulTurn(script, acts[..n], states[n], acts[n], states[n + 1]);
      assert acts[..n] + [acts[n]] == acts;
    }
  }

  lemma FaithfulTurn<D>(script: seq<Choice<D>>, acts: seq<Act<D>>, v: State<D>, a: Act<D>, t: State<D>)
    requires |acts| < |script| && Faithful(script, acts, |acts|, v) && Turn(script[|acts|], v, a, t)
    ensures Faithful(script, acts + [a], |acts| + 1, t)
  {
    FaithfulNext(script, acts, v);
  }

  lemma FaithfulNext<D>(script: seq<Choice<D>>, acts: seq<Act<D>>, v: State<D>)
    requires |acts| < |script| && Faithful(script, acts, |acts|, v)
    ensures var c := script[|acts|];
            var u := Overheard(v, c.others);
            Faithful(script, acts + [DueIn(c, u)], |acts| + 1, After(u, DueIn(c, u)))
  {
    var u := Overheard(v, script[|acts|].others);
    OverheardBrings(v, script[|acts|].others);
    AgreesNext(script, acts, v.loop, v.wake, v.buffer, v.cancelled, u.wake, u.buffer, u.cancelled);
    StepDone(script, acts, u);
  }

  lemma DueRead<D>(script: seq<Choice<D>>, acts: seq<Act<D>>, v: State<D>)
    requires |acts| < |script| && Agrees(script, |acts| + 1, acts, v.loop, v.wake, v.buffer, v.cancelled)
    ensures Due(script, acts) == DueIn(script[|acts|], v)
  {}

  /** A step taken as due extends the record. */
  lemma StepDone<D>(script: seq<Choice<D>>, acts: seq<Act<D>>, v: State<D>)
    requires |acts| < |script| && Faithful(script, acts, |acts| + 1, v)
    ensures var a := DueIn(script[|acts|], v);
            Faithful(script, acts + [a], |acts| + 1, After(v, a))
  {
    var a := DueIn(script[|acts|], v);
    var t := After(v, a);
    DueRead(script, acts, v);
    ObeysSnoc(script, acts);
    StepSnoc(acts, a);
    StepFits(script, acts, v);
    AgreesAct(script, acts, a, v.loop, v.wake, v.buffer, v.cancelled, t.loop, t.wake, t.buffer);
  }

  lemma StepFits<D>(script: seq<Choice<D>>, acts: seq<Act<D>>, v: State<D>)
    requires |acts| < |script| && PhaseFits(v.loop, acts)
    ensures var a := DueIn(script[|acts|], v);
            PhaseFits(After(v, a).loop, acts + [a])
  {
    StepSnoc(acts, DueIn(script[|acts|], v));
  }

  /** What holds of the retriever after any number of choices. */
  lemma PerformedOut<D>(script: seq<Choice<D>>, states: seq<State<D>>, acts: seq<Act<D>>, trace: seq<Label<D>>)
    requires Performed(script, states, acts) && Exec(Start<D>(), trace) == Some(states[|acts|])
    ensures var v := states[|acts|];
            && Obeys(script, acts) && v.received == Heard(acts)
            && Conserved(v) && (v.wake <==> ReportedSinceRestart(trace)) && v.attempts <= 1 + Reports(trace)
  {
    PerformedFaithfully(script, states, acts);
    Conservation(trace);
    WakeIffReported(trace);
    AttemptsBounded(trace);
  }
}
