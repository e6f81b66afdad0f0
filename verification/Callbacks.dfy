/** Delivery of informer callbacks by the watches of one DynamicClient. Handlers and closing goroutines
    of all its watches share one lock and one `done` flag. */
module Callbacks {
  import opened Prelude
  import Runs

  // ----- State -----

  /** A watch's event handler: the informer runs one callback at a time. */
  datatype Handler<C> =
    | Idle
    | WantsLock(callback: C)
    | Checking(callback: C)   // holds the lock, about to read `done`
    | Sending(callback: C)    // holds the lock, blocked sending

  /** A watch's goroutine that waits for the context and then closes the channel. */
  datatype Closer =
    | Waiting
    | Marking   // holds the lock, about to set `done`
    | Closing   // holds the lock, about to close the channel
    | Closed    // channel closed, lock released

  /** `emitted` and `delivered` are history; `closes` counts how often the channel was closed. */
  datatype Watch<C> = Watch(cancelled: bool, handler: Handler<C>, closer: Closer, closes: nat,
                            emitted: seq<C>, delivered: seq<C>)

  datatype Holder = Free | HandlerOf(w: nat) | CloserOf(w: nat)

  datatype State<C> = State(done: bool, holder: Holder, watches: seq<Watch<C>>)

  function NewClient<C>(): State<C> {
    State(false, Free, [])
  }

  // ----- Transitions -----

  datatype Label<C> =
    | StartWatch
    | Cancel(w: nat)
    | Emit(w: nat, callback: C)
    | LockHandler(w: nat)
    | Check(w: nat)
    | Deliver(w: nat)
    | LockCloser(w: nat)
    | SetDone(w: nat)
    | Close(w: nat)

  predicate Enabled<C>(s: State<C>, l: Label<C>) {
    match l
    case StartWatch => true
    case Cancel(w) => w < |s.watches|
    case Emit(w, _) => w < |s.watches| && s.watches[w].handler.Idle?
    case LockHandler(w) => w < |s.watches| && s.watches[w].handler.WantsLock? && s.holder.Free?
    case Check(w) => w < |s.watches| && s.watches[w].handler.Checking?
    case Deliver(w) => w < |s.watches| && s.watches[w].handler.Sending?
    case LockCloser(w) => w < |s.watches| && s.watches[w].cancelled && s.watches[w].closer.Waiting? && s.holder.Free?
    case SetDone(w) => w < |s.watches| && s.watches[w].closer.Marking?
    case Close(w) => w < |s.watches| && s.watches[w].closer.Closing?
  }

  function With<C>(s: State<C>, w: nat, x: Watch<C>): State<C>
    requires w < |s.watches|
  {
    s.(watches := s.watches[w := x])
  }

  function Next<C>(s: State<C>, l: Label<C>): State<C>
    requires Enabled(s, l)
  {
    match l
    case StartWatch => s.(watches := s.watches + [Watch(false, Idle, Waiting, 0, [], [])])
    case Cancel(w) => With(s, w, s.watches[w].(cancelled := true))
    case Emit(w, c) => With(s, w, s.watches[w].(handler := WantsLock(c), emitted := s.watches[w].emitted + [c]))
    case LockHandler(w) =>
      With(s, w, s.watches[w].(handler := Checking(s.watches[w].handler.callback))).(holder := HandlerOf(w))
    case Check(w) =>
      if s.done then With(s, w, s.watches[w].(handler := Idle)).(holder := Free)
      else With(s, w, s.watches[w].(handler := Sending(s.watches[w].handler.callback)))
    case Deliver(w) =>
      With(s, w, s.watches[w].(handler := Idle, delivered := s.watches[w].delivered + [s.watches[w].handler.callback]))
        .(holder := Free)
    case LockCloser(w) => With(s, w, s.watches[w].(closer := Marking)).(holder := CloserOf(w))
    case SetDone(w) => With(s, w, s.watches[w].(closer := Closing)).(done := true)
    case Close(w) =>
      With(s, w, s.watches[w].(closer := Closer.Closed, closes := s.watches[w].closes + 1)).(holder := Free)
  }

  function Step<C>(s: State<C>, l: Label<C>): Option<State<C>> {
    if Enabled(s, l) then Some(Next(s, l)) else None
  }

  /** The state a run leads to. */
  function Exec<C>(s: State<C>, labels: seq<Label<C>>): Option<State<C>> {
    Runs.Exec<State<C>, Label<C>>(Step, s, labels)
  }

  // ----- Invariant -----

  function InFlight<C>(x: Watch<C>): seq<C> {
    if x.handler.Idle? then [] else [x.handler.callback]
  }

  /** The lock is held by the one goroutine that is inside its critical section. */
  predicate LockInv<C>(s: State<C>) {
    && (s.holder.Free? || s.holder.w < |s.watches|)
    && forall w :: 0 <= w < |s.watches| ==>
      && (s.watches[w].handler.Checking? || s.watches[w].handler.Sending? <==> s.holder == HandlerOf(w))
      && (s.watches[w].closer.Marking? || s.watches[w].closer.Closing? <==> s.holder == CloserOf(w))
  }

  /** A channel is closed once, and only after `done` is set; nobody is sending once it is. */
  predicate CloseInv<C>(s: State<C>) {
    && (forall w :: 0 <= w < |s.watches| ==>
          && s.watches[w].closes == (if s.watches[w].closer.Closed? then 1 else 0)
          && (s.watches[w].closer.Closing? || s.watches[w].closer.Closed? ==> s.done && s.watches[w].cancelled)
          && (s.watches[w].closer.Marking? ==> s.watches[w].cancelled)
          && (s.watches[w].handler.Sending? ==> !s.done))
    && (s.done ==> exists w :: 0 <= w < |s.watches| && (s.watches[w].closer.Closing? || s.watches[w].closer.Closed?))
  }

  /** Until `done` is set, everything emitted has been delivered or is in the handler's hands; ever
      after, what was delivered is what was emitted first. */
  ghost predicate DeliveryInv<C>(s: State<C>) {
    forall w :: 0 <= w < |s.watches| ==>
      && (!s.done ==> s.watches[w].emitted == s.watches[w].delivered + InFlight(s.watches[w]))
      && s.watches[w].delivered <= s.watches[w].emitted
  }

  ghost predicate Inv<C>(s: State<C>) {
    LockInv(s) && CloseInv(s) && DeliveryInv(s)
  }

  lemma LockStep<C>(s: State<C>, l: Label<C>)
    requires LockInv(s) && Enabled(s, l)
    ensures LockInv(Next(s, l))
  {}

  lemma CloseStep<C>(s: State<C>, l: Label<C>)
    requires LockInv(s) && CloseInv(s) && Enabled(s, l)
    ensures CloseInv(Next(s, l))
  {
    if Next(s, l).done {
      CloserExists(s, l);
    }
  }

  lemma CloserExists<C>(s: State<C>, l: Label<C>)
    requires LockInv(s) && CloseInv(s) && Enabled(s, l) && Next(s, l).done
    ensures exists w :: 0 <= w < |Next(s, l).watches|
                        && (Next(s, l).watches[w].closer.Closing? || Next(s, l).watches[w].closer.Closed?)
  {
    var t := Next(s, l);
    if s.done {
      var w :| 0 <= w < |s.watches| && (s.watches[w].closer.Closing? || s.watches[w].closer.Closed?);
      assert t.watches[w].closer.Closing? || t.watches[w].closer.Closed?;
    } else {
      assert t.watches[l.w].closer.Closing?;
    }
  }

  lemma DeliveryStep<C>(s: State<C>, l: Label<C>)
    requires LockInv(s) && CloseInv(s) && DeliveryInv(s) && Enabled(s, l)
    ensures DeliveryInv(Next(s, l))
  {}

  lemma InvStep<C>(s: State<C>, l: Label<C>)
    requires Inv(s) && Enabled(s, l)
    ensures Inv(Next(s, l))
  {
    LockStep(s, l);
    CloseStep(s, l);
    DeliveryStep(s, l);
  }

  lemma {:induction false} InvRun<C>(s: State<C>, labels: seq<Label<C>>)
    requires Inv(s) && Exec(s, labels).Some?
    ensures Inv(Exec(s, labels).value)
    decreases |labels|
  {
    if labels != [] {
      var n := |labels| - 1;
      InvRun(s, labels[..n]);
      InvStep(Exec(s, labels[..n]).value, labels[n]);
    }
  }

  // ----- Properties of every run -----

  /** No callback is sent, or waits to be sent, on a closed channel. */
  lemma NeverSendsOnClosed<C>(labels: seq<Label<C>>, s: State<C>, w: nat)
    requires Exec(NewClient<C>(), labels) == Some(s) && w < |s.watches| && s.watches[w].handler.Sending?
    ensures !s.watches[w].closer.Closed? && s.watches[w].closes == 0
    ensures forall l :: Enabled(s, l) ==> !Next(s, l).watches[w].closer.Closed?
  {
    InvRun(NewClient<C>(), labels);
    forall l | Enabled(s, l)
      ensures !Next(s, l).watches[w].closer.Closed?
    {
      assert s.holder == HandlerOf(w);
    }
  }

  /** No channel is closed twice, and none is closed before its context ends. */
  lemma ClosedAtMostOnce<C>(labels: seq<Label<C>>, s: State<C>, w: nat)
    requires Exec(NewClient<C>(), labels) == Some(s) && w < |s.watches|
    ensures s.watches[w].closes <= 1
    ensures Enabled(s, Close(w)) ==> s.watches[w].closes == 0
    ensures s.watches[w].closes > 0 ==> s.watches[w].cancelled
  {
    InvRun(NewClient<C>(), labels);
  }

  /** What is delivered on a channel is a prefix of what its informer emitted; and until some watch is
      closed, nothing but the callback in hand is missing from it. */
  lemma DeliveredIsPrefix<C>(labels: seq<Label<C>>, s: State<C>, w: nat)
    requires Exec(NewClient<C>(), labels) == Some(s) && w < |s.watches|
    ensures s.watches[w].delivered <= s.watches[w].emitted
    ensures !s.done ==> s.watches[w].emitted == s.watches[w].delivered + InFlight(s.watches[w])
  {
    InvRun(NewClient<C>(), labels);
  }

  /** The flag is set exactly by the first watch that closes. */
  lemma {:induction false} DoneExactlyAfterClose<C>(labels: seq<Label<C>>)
    requires Exec(NewClient<C>(), labels).Some?
    ensures Exec(NewClient<C>(), labels).value.done <==> exists k :: 0 <= k < |labels| && labels[k].SetDone?
    decreases |labels|
  {
    if labels != [] {
      var n := |labels| - 1;
      DoneExactlyAfterClose(labels[..n]);
      if k :| 0 <= k < |labels| && labels[k].SetDone? && k < n {
        assert labels[..n][k].SetDone?;
      }
      if k :| 0 <= k < n && labels[..n][k].SetDone? {
        assert labels[k].SetDone?;
      }
    }
  }

  /** A handler that looks at the flag goes on to deliver exactly when no watch of the client, its own
      or another, has begun to close. */
  lemma DeliversExactlyBeforeAnyClose<C>(labels: seq<Label<C>>, s: State<C>, w: nat)
    requires Exec(NewClient<C>(), labels) == Some(s) && Enabled(s, Check(w))
    ensures Next(s, Check(w)).watches[w].handler.Sending?
       <==> forall k :: 0 <= k < |labels| ==> !labels[k].SetDone?
  {
    DoneExactlyAfterClose(labels);
  }

  /** What `w` has delivered in `t`, given what it had in `s`. */
  function DeliveredBy<C>(s: State<C>, w: nat): seq<C> {
    if w < |s.watches| then s.watches[w].delivered else []
  }

  lemma SilentStep<C>(s: State<C>, l: Label<C>)
    requires LockInv(s) && CloseInv(s) && s.done && Enabled(s, l)
    ensures Next(s, l).done && |s.watches| <= |Next(s, l).watches|
    ensures forall w: nat :: w < |Next(s, l).watches| ==> Next(s, l).watches[w].delivered == DeliveredBy(s, w)
  {}

  /** The flag never goes back, and it silences the whole client: once one watch has begun to close,
      no watch of the client, already running or started later, ever delivers anything more. */
  lemma {:induction false} OneCloseSilencesAll<C>(s: State<C>, labels: seq<Label<C>>)
    requires Inv(s) && s.done && Exec(s, labels).Some?
    ensures Exec(s, labels).value.done
    ensures |s.watches| <= |Exec(s, labels).value.watches|
    ensures forall w: nat :: w < |Exec(s, labels).value.watches| ==>
              Exec(s, labels).value.watches[w].delivered == DeliveredBy(s, w)
    decreases |labels|
  {
    if labels != [] {
      var n := |labels| - 1;
      OneCloseSilencesAll(s, labels[..n]);
      InvRun(s, labels[..n]);
      SilentStep(Exec(s, labels[..n]).value, labels[n]);
    }
  }

  /** A step added to a run. */
  lemma Extend<C>(s0: State<C>, labels: seq<Label<C>>, l: Label<C>) returns (longer: seq<Label<C>>, s: State<C>)
    requires Exec(s0, labels).Some? && Enabled(Exec(s0, labels).value, l)
    ensures longer == labels + [l] && Exec(s0, longer) == Some(s)
    ensures s == Next(Exec(s0, labels).value, l)
  {
    ExecSnoc(s0, labels, l);
    longer, s := labels + [l], Next(Exec(s0, labels).value, l);
  }

  /** The smallest run in which a watch that was never cancelled loses a callback: the client's other
      watch has been closed. */
  lemma RunningWatchSilenced<C>(c: C) returns (labels: seq<Label<C>>, s: State<C>)
    ensures Exec(NewClient<C>(), labels) == Some(s) && |s.watches| == 2
    ensures var x := s.watches[1];
            !x.cancelled && x.handler.Idle? && x.emitted == [c] && x.delivered == []
  {
    var s0 := NewClient<C>();
    labels, s := Extend(s0, [], StartWatch);
    labels, s := Extend(s0, labels, StartWatch);
    labels, s := Extend(s0, labels, Cancel(0));
    CloseSteps(s, 0);
    labels, s := Extend(s0, labels, LockCloser(0));
    labels, s := Extend(s0, labels, SetDone(0));
    labels, s := Extend(s0, labels, Close(0));
    DropSteps(s, 1, c);
    labels, s := Extend(s0, labels, Emit(1, c));
    labels, s := Extend(s0, labels, LockHandler(1));
    labels, s := Extend(s0, labels, Check(1));
  }

  lemma ClosingMeansDone<C>(labels: seq<Label<C>>, s: State<C>, w: nat)
    requires Exec(NewClient<C>(), labels) == Some(s) && w < |s.watches| && s.watches[w].closer.Closing?
    ensures s.done
  {
    InvRun(NewClient<C>(), labels);
  }

  /** What a closing goroutine does when it is not kept waiting. */
  lemma CloseSteps<C>(s: State<C>, w: nat)
    requires s.holder.Free? && w < |s.watches| && s.watches[w].cancelled && s.watches[w].closer.Waiting?
    ensures Enabled(s, LockCloser(w))
    ensures var s1 := Next(s, LockCloser(w));
            && Enabled(s1, SetDone(w))
            && var s2 := Next(s1, SetDone(w));
               && Enabled(s2, Close(w))
               && Next(s2, Close(w)) == Ended(s, w)
  {
    assert Next(Next(Next(s, LockCloser(w)), SetDone(w)), Close(w)).watches == Ended(s, w).watches;
  }

  function Ended<C>(s: State<C>, w: nat): State<C>
    requires w < |s.watches|
  {
    With(s, w, s.watches[w].(closer := Closer.Closed, closes := s.watches[w].closes + 1)).(done := true)
  }

  /** What a handler does with an event once the client is done. */
  lemma DropSteps<C>(s: State<C>, w: nat, c: C)
    requires s.holder.Free? && s.done && w < |s.watches| && s.watches[w].handler.Idle?
    ensures Enabled(s, Emit(w, c))
    ensures var s1 := Next(s, Emit(w, c));
            && Enabled(s1, LockHandler(w))
            && var s2 := Next(s1, LockHandler(w));
               && Enabled(s2, Check(w))
               && Next(s2, Check(w)) == Dropping(s, w, c)
  {
    assert Next(Next(Next(s, Emit(w, c)), LockHandler(w)), Check(w)).watches == Dropping(s, w, c).watches;
  }

  function Dropping<C>(s: State<C>, w: nat, c: C): State<C>
    requires w < |s.watches|
  {
    With(s, w, s.watches[w].(handler := Idle, emitted := s.watches[w].emitted + [c]))
  }

  // ----- The code, with other goroutines between any two of its steps -----

  lemma ExecSnoc<C>(s: State<C>, labels: seq<Label<C>>, l: Label<C>)
    requires Exec(s, labels).Some? && Enabled(Exec(s, labels).value, l)
    ensures Exec(s, labels + [l]) == Some(Next(Exec(s, labels).value, l))
  {
    Runs.ExecSnoc<State<C>, Label<C>>(Step, s, labels, l);
  }

  /** The goroutine that takes a step, named as it is when it holds the lock. */
  function Mover<C>(l: Label<C>): Holder {
    match l
    case StartWatch => Free
    case Cancel(_) => Free
    case Emit(w, _) => HandlerOf(w)
    case LockHandler(w) => HandlerOf(w)
    case Check(w) => HandlerOf(w)
    case Deliver(w) => HandlerOf(w)
    case LockCloser(w) => CloserOf(w)
    case SetDone(w) => CloserOf(w)
    case Close(w) => CloserOf(w)
  }

  /** What is left of goroutine `me` when others have moved. */
  ghost predicate Untouched<C>(me: Holder, before: seq<Watch<C>>, after: seq<Watch<C>>) {
    && |before| <= |after|
    && (me.HandlerOf? && me.w < |before| ==>
          && after[me.w].handler == before[me.w].handler
          && after[me.w].emitted == before[me.w].emitted && after[me.w].delivered == before[me.w].delivered)
    && (me.CloserOf? && me.w < |before| ==>
          && after[me.w].closer == before[me.w].closer && after[me.w].closes == before[me.w].closes
          && (before[me.w].cancelled ==> after[me.w].cancelled))
  }

  lemma OthersLeaveMe<C>(s: State<C>, l: Label<C>, me: Holder)
    requires Enabled(s, l) && !me.Free? && Mover(l) != me
    ensures Untouched(me, s.watches, Next(s, l).watches)
  {}

  /** `longer` continues `trace` with steps of goroutines other than `me`. */
  ghost predicate OthersOnly<C>(me: Holder, trace: seq<Label<C>>, longer: seq<Label<C>>) {
    trace <= longer && forall k :: |trace| <= k < |longer| ==> Mover(longer[k]) != me
  }

  /** What other goroutines do between the steps of one. */
  datatype Gaps<C> = Gaps(first: seq<Label<C>>, second: seq<Label<C>>, third: seq<Label<C>>)

  /** How a handler's attempt to deliver ends, or where it waits for the lock. */
  datatype Delivery = Blocked | Dropped | Sent

  class DynamicClient<C> {
    var done: bool
    var mux: Holder
    var watches: seq<Watch<C>>

    function View(): State<C>
      reads this
    {
      State(done, mux, watches)
    }

    constructor ()
      ensures View() == NewClient<C>()
    {
      done, mux, watches := false, Free, [];
    }

    /** WatchGeneric: a new channel, with nothing on it yet. */
    method WatchGeneric(ghost trace: seq<Label<C>>) returns (w: nat, ghost longer: seq<Label<C>>)
      requires Exec(NewClient<C>(), trace) == Some(View())
      modifies this`watches
      ensures longer == trace + [StartWatch] && Exec(NewClient<C>(), longer) == Some(View())
      ensures w == |old(watches)| && w < |watches| && watches[w].handler.Idle? && !watches[w].cancelled
    {
      ExecSnoc(NewClient<C>(), trace, StartWatch);
      longer := trace + [StartWatch];
      w := |watches|;
      watches := watches + [Watch(false, Idle, Waiting, 0, [], [])];
    }

    /** The other goroutines: takes the given steps, skipping the caller's own and impossible ones. */
    method Interfere(me: Holder, others: seq<Label<C>>, ghost trace: seq<Label<C>>)
      returns (ghost longer: seq<Label<C>>)
      requires Exec(NewClient<C>(), trace) == Some(View()) && !me.Free?
      modifies this
      ensures Exec(NewClient<C>(), longer) == Some(View())
      ensures OthersOnly(me, trace, longer) && Untouched(me, old(watches), watches)
      ensures others == [] ==> longer == trace && View() == old(View())
    {
      longer := trace;
      for k := 0 to |others|
        invariant Exec(NewClient<C>(), longer) == Some(View())
        invariant OthersOnly(me, trace, longer) && Untouched(me, old(watches), watches)
        invariant k == 0 ==> longer == trace && View() == old(View())
      {
        var l := others[k];
        if Mover(l) != me && Enabled(View(), l) {
          OthersLeaveMe(View(), l, me);
          ExecSnoc(NewClient<C>(), longer, l);
          longer := longer + [l];
          var next := Next(View(), l);
          done, mux, watches := next.done, next.holder, next.watches;
        }
      }
    }

    /** An event handler: builds the callback and hands it to sendCallback. */
    method HandleEvent(w: nat, callback: C, ghost trace: seq<Label<C>>, gaps: Gaps<C>)
      returns (outcome: Delivery, ghost checked: nat, ghost longer: seq<Label<C>>)
      requires Exec(NewClient<C>(), trace) == Some(View()) && w < |watches| && watches[w].handler.Idle?
      modifies this
      ensures Exec(NewClient<C>(), longer) == Some(View()) && trace <= longer && w < |watches|
      ensures watches[w].handler == if outcome.Blocked? then WantsLock(callback) else Idle
      ensures watches[w].emitted == old(watches[w].emitted) + [callback]
      ensures watches[w].delivered == old(watches[w].delivered) + if outcome.Sent? then [callback] else []
      ensures !outcome.Blocked? ==> checked < |longer| && longer[checked] == Check(w)
      ensures !outcome.Blocked? ==> (outcome.Sent? <==> forall k :: 0 <= k < checked ==> !longer[k].SetDone?)
      ensures outcome.Blocked? ==> !mux.Free?
      ensures gaps == Gaps([], [], []) ==>
                outcome == if !old(mux).Free? then Blocked else if old(done) then Dropped else Sent
    {
      checked := 0;
      ExecSnoc(NewClient<C>(), trace, Emit(w, callback));
      longer := trace + [Emit(w, callback)];
      watches := watches[w := watches[w].(handler := WantsLock(callback), emitted := watches[w].emitted + [callback])];
      longer := Interfere(HandlerOf(w), gaps.first, longer);
      if !mux.Free? {
        return Blocked, checked, longer;
      }
      outcome, checked, longer := SendCallback(w, longer, gaps.second, gaps.third);
    }

    /** sendCallback, from the moment the lock is free. */
    method SendCallback(w: nat, ghost trace: seq<Label<C>>, afterLock: seq<Label<C>>, afterCheck: seq<Label<C>>)
      returns (outcome: Delivery, ghost checked: nat, ghost longer: seq<Label<C>>)
      requires Exec(NewClient<C>(), trace) == Some(View()) && mux.Free?
      requires w < |watches| && watches[w].handler.WantsLock?
      modifies this
      ensures Exec(NewClient<C>(), longer) == Some(View()) && trace <= longer && w < |watches|
      ensures !outcome.Blocked? && watches[w].handler.Idle? && watches[w].emitted == old(watches[w].emitted)
      ensures watches[w].delivered ==
                old(watches[w].delivered) + if outcome.Sent? then [old(watches[w].handler.callback)] else []
      ensures checked < |longer| && longer[checked] == Check(w)
      ensures outcome.Sent? <==> forall k :: 0 <= k < checked ==> !longer[k].SetDone?
      ensures afterLock == [] ==> (outcome.Sent? <==> !old(done))
    {
      ghost var callback := watches[w].handler.callback;
      ExecSnoc(NewClient<C>(), trace, LockHandler(w));
      longer := trace + [LockHandler(w)];
      mux := HandlerOf(w);
      watches := watches[w := watches[w].(handler := Checking(watches[w].handler.callback))];
      longer := Interfere(HandlerOf(w), afterLock, longer);
      DoneExactlyAfterClose(longer);
      checked := |longer|;
      ExecSnoc(NewClient<C>(), longer, Check(w));
      longer := longer + [Check(w)];
      if done {
        mux := Free;
        watches := watches[w := watches[w].(handler := Idle)];
        assert watches[w].delivered == old(watches[w].delivered) + [];
        return Dropped, checked, longer;
      }
      watches := watches[w := watches[w].(handler := Sending(watches[w].handler.callback))];
      longer := Send(w, longer, afterCheck);
      outcome := Sent;
    }

    /** The send on the channel, once the agent takes the callback. */
    method Send(w: nat, ghost trace: seq<Label<C>>, others: seq<Label<C>>) returns (ghost longer: seq<Label<C>>)
      requires Exec(NewClient<C>(), trace) == Some(View())
      requires w < |watches| && watches[w].handler.Sending?
      modifies this
      ensures Exec(NewClient<C>(), longer) == Some(View()) && trace <= longer && w < |watches|
      ensures watches[w].handler.Idle? && watches[w].emitted == old(watches[w].emitted)
      ensures watches[w].delivered == old(watches[w].delivered) + [old(watches[w].handler.callback)]
    {
      longer := Interfere(HandlerOf(w), others, trace);
      ExecSnoc(NewClient<C>(), longer, Deliver(w));
      longer := longer + [Deliver(w)];
      mux := Free;
      var x := watches[w];
      watches := watches[w := x.(handler := Idle, delivered := x.delivered + [x.handler.callback])];
    }

    /** The goroutine that ends a watch: once the context is over and the lock is free, marks the client
        done and closes the channel. */
    method EndWatch(w: nat, ghost trace: seq<Label<C>>, gaps: Gaps<C>)
      returns (ended: bool, ghost longer: seq<Label<C>>)
      requires Exec(NewClient<C>(), trace) == Some(View()) && w < |watches| && watches[w].closer.Waiting?
      modifies this
      ensures Exec(NewClient<C>(), longer) == Some(View()) && trace <= longer && w < |watches|
      ensures watches[w].closer == if ended then Closer.Closed else Waiting
      ensures watches[w].closes == old(watches[w].closes) + if ended then 1 else 0
      ensures ended ==> done && watches[w].cancelled
      ensures !ended ==> !watches[w].cancelled || !mux.Free?
      ensures gaps.first == [] ==> (ended <==> old(watches[w].cancelled) && old(mux).Free?)
    {
      longer := Interfere(CloserOf(w), gaps.first, trace);
      if !watches[w].cancelled || !mux.Free? {
        return false, longer;
      }
      ExecSnoc(NewClient<C>(), longer, LockCloser(w));
      longer := longer + [LockCloser(w)];
      mux := CloserOf(w);
      watches := watches[w := watches[w].(closer := Marking)];
      longer := Interfere(CloserOf(w), gaps.second, longer);
      longer := MarkAndClose(w, longer, gaps.third);
      ended := true;
    }

    method MarkAndClose(w: nat, ghost trace: seq<Label<C>>, others: seq<Label<C>>)
      returns (ghost longer: seq<Label<C>>)
      requires Exec(NewClient<C>(), trace) == Some(View())
      requires w < |watches| && watches[w].closer.Marking? && watches[w].cancelled
      modifies this
      ensures Exec(NewClient<C>(), longer) == Some(View()) && trace <= longer && w < |watches|
      ensures watches[w].closer.Closed? && watches[w].closes == old(watches[w].closes) + 1
      ensures done && watches[w].cancelled
    {
      ExecSnoc(NewClient<C>(), trace, SetDone(w));
      longer := trace + [SetDone(w)];
      done := true;
      watches := watches[w := watches[w].(closer := Closing)];
      longer := Interfere(CloserOf(w), others, longer);
      ClosingMeansDone(longer, View(), w);
      ExecSnoc(NewClient<C>(), longer, Close(w));
      longer := longer + [Close(w)];
      mux := Free;
      watches := watches[w := watches[w].(closer := Closer.Closed, closes := watches[w].closes + 1)];
    }
  }
}
