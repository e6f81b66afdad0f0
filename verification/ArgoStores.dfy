/** The stores of Argo rollouts and applications: a view of the cluster that is seeded once from a
    listing of the informer's cache and then follows the events. */
module ArgoStores {
  import opened Prelude

  type UID = string

  /** An unstructured Kubernetes object; `content` is everything the store does not look at. */
  datatype Obj = Obj(uid: UID, apiVersion: string, kind: string, name: string, namespace: string,
                     created: int, content: string)

  datatype EventType = Added | Updated | Deleted

  datatype Event = Event(eventType: EventType, obj: Obj)

  /** An entry of the cache listing, which is only supposed to be an unstructured object. */
  datatype Cached = Unstructured(obj: Obj) | Other

  /** GenericCallback. */
  datatype Callback = Callback(event: Event, sotw: seq<Cached>)

  datatype DeltaType = ObjectAdd | ObjectUpdate | ObjectDelete

  datatype Delta = Delta(apiVersion: string, kind: string, name: string, namespace: string, created: int,
                         deltaType: DeltaType)

  type World = map<UID, Obj>

  function ToDelta(e: Event): Delta {
    Delta(e.obj.apiVersion, e.obj.kind, e.obj.name, e.obj.namespace, e.obj.created,
          match e.eventType
          case Added => ObjectAdd
          case Updated => ObjectUpdate
          case Deleted => ObjectDelete)
  }

  // ----- What events mean -----

  /** The effect of an event, on the informer's cache and on the store alike. */
  function Apply(w: World, e: Event): World {
    if e.eventType.Deleted? then w - {e.obj.uid} else w[e.obj.uid := e.obj]
  }

  function Replay(w: World, events: seq<Event>): World
    decreases |events|
  {
    if events == [] then w else Apply(Replay(w, events[..|events| - 1]), events[|events| - 1])
  }

  function Deltas(events: seq<Event>): seq<Delta> {
    seq(|events|, i requires 0 <= i < |events| => ToDelta(events[i]))
  }

  /** `listing` lists the world: every object once, in some order. */
  ghost predicate Lists(listing: seq<Cached>, w: World) {
    && (forall i :: 0 <= i < |listing| ==>
          listing[i].Unstructured? && listing[i].obj.uid in w && w[listing[i].obj.uid] == listing[i].obj)
    && (forall u :: u in w ==> Unstructured(w[u]) in listing)
  }

  predicate AllUnstructured(listing: seq<Cached>) {
    forall i :: 0 <= i < |listing| ==> listing[i].Unstructured?
  }

  /** Later entries of a listing win. */
  function Seeded(listing: seq<Cached>): World
    requires AllUnstructured(listing)
    decreases |listing|
  {
    if listing == [] then map[]
    else
      var o := listing[|listing| - 1].obj;
      Seeded(listing[..|listing| - 1])[o.uid := o]
  }

  // ----- The store -----

  /** RolloutStore and ApplicationStore. */
  class ArgoStore {
    var deltas: seq<Delta>
    var sotw: Option<World>

    constructor ()
      ensures deltas == [] && sotw == None
    {
      deltas, sotw := [], None;
    }

    /** The store takes the listing of the first callback it accepts as its starting point, then
        follows every event. A callback whose listing is needed but not understood changes nothing. */
    method FromCallback(callback: Callback) returns (failed: bool)
      modifies this
      ensures failed <==> old(sotw).None? && !AllUnstructured(callback.sotw)
      ensures failed ==> sotw == old(sotw) && deltas == old(deltas)
      ensures !failed ==>
                && deltas == old(deltas) + [ToDelta(callback.event)]
                && var start := if old(sotw).Some? then old(sotw).value else Seeded(callback.sotw);
                   sotw == Some(Apply(start, callback.event))
    {
      if sotw.None? {
        var uMap := ToUnstructuredMap(callback.sotw);
        if uMap.None? {
          return true;
        }
        sotw := uMap;
      }
      deltas := deltas + [ToDelta(callback.event)];
      var obj := callback.event.obj;
      match callback.event.eventType {
        case Added => sotw := Some(sotw.value[obj.uid := obj]);
        case Updated => sotw := Some(sotw.value[obj.uid := obj]);
        case Deleted => sotw := Some(sotw.value - {obj.uid});
      }
      return false;
    }

    /** Every object once, in the arbitrary order of a Go map. */
    method StateOfWorld() returns (objs: seq<Obj>)
      ensures sotw.None? ==> objs == []
      ensures sotw.Some? ==>
                && |objs| == |sotw.value|
                && (forall u :: u in sotw.value ==> sotw.value[u] in objs)
                && (forall o :: o in objs ==> o in sotw.value.Values)
    {
      objs := [];
      if sotw.None? {
        return;
      }
      var rest := sotw.value.Keys;
      while rest != {}
        invariant rest <= sotw.value.Keys && |objs| == |sotw.value.Keys| - |rest|
        invariant forall u :: u in sotw.value && u !in rest ==> sotw.value[u] in objs
        invariant forall o :: o in objs ==> o in sotw.value.Values
        decreases |rest|
      {
        var u :| u in rest;
        rest := rest - {u};
        objs := objs + [sotw.value[u]];
      }
      assert |sotw.value.Keys| == |sotw.value|;
    }
  }

  /** toUntructuredMap. */
  method ToUnstructuredMap(listing: seq<Cached>) returns (r: Option<World>)
    ensures r == if AllUnstructured(listing) then Some(Seeded(listing)) else None
  {
    var results: World := map[];
    for k := 0 to |listing|
      invariant AllUnstructured(listing[..k])
      invariant results == Seeded(listing[..k])
    {
      if listing[k].Other? {
        return None;
      }
      assert listing[..k + 1][..k] == listing[..k];
      results := results[listing[k].obj.uid := listing[k].obj];
    }
    assert listing[..|listing|] == listing;
    return Some(results);
  }

  /** argoRolloutWatch and argoApplicationWatch: the agent's field, which still points at the store of an
      earlier watch, changes with the first callback; from then on it points at the new store after a
      callback that store accepted, and is nil after one it did not. */
  method WatchCallbacks(callbacks: seq<Callback>, earlier: Option<ArgoStore>)
    returns (store: ArgoStore, published: Option<ArgoStore>)
    ensures fresh(store)
    ensures (store.sotw, store.deltas) == Watched(callbacks)
    ensures published == if callbacks == [] then earlier else if store.sotw.Some? then Some(store) else None
  {
    store := new ArgoStore();
    published := earlier;
    for k := 0 to |callbacks|
      invariant fresh(store)
      invariant (store.sotw, store.deltas) == Watched(callbacks[..k])
      invariant published == if k == 0 then earlier else if store.sotw.Some? then Some(store) else None
    {
      assert callbacks[..k + 1][..k] == callbacks[..k];
      var failed := store.FromCallback(callbacks[k]);
      published := if failed then None else Some(store);
    }
    assert callbacks[..|callbacks|] == callbacks;
  }

  /** State of the world and deltas after a sequence of callbacks. */
  function Watched(callbacks: seq<Callback>): (Option<World>, seq<Delta>)
    decreases |callbacks|
  {
    if callbacks == [] then (None, [])
    else
      var (sotw, deltas) := Watched(callbacks[..|callbacks| - 1]);
      var c := callbacks[|callbacks| - 1];
      if sotw.None? && !AllUnstructured(c.sotw) then (sotw, deltas)
      else (Some(Apply(if sotw.Some? then sotw.value else Seeded(c.sotw), c.event)), deltas + [ToDelta(c.event)])
  }

  // ----- Convergence -----

  /** The position of the first callback the store can be seeded from. */
  function FirstGood(callbacks: seq<Callback>): nat {
    if callbacks == [] || AllUnstructured(callbacks[0].sotw) then 0 else 1 + FirstGood(callbacks[1..])
  }

  lemma {:induction false} FirstGoodIsFirst(callbacks: seq<Callback>)
    ensures FirstGood(callbacks) <= |callbacks|
    ensures forall i :: 0 <= i < FirstGood(callbacks) ==> !AllUnstructured(callbacks[i].sotw)
    ensures FirstGood(callbacks) < |callbacks| ==> AllUnstructured(callbacks[FirstGood(callbacks)].sotw)
  {
    if callbacks != [] && !AllUnstructured(callbacks[0].sotw) {
      FirstGoodIsFirst(callbacks[1..]);
      forall i | 0 < i < FirstGood(callbacks)
        ensures !AllUnstructured(callbacks[i].sotw)
      {
        assert callbacks[i] == callbacks[1..][i - 1];
      }
    }
  }

  function EventsOf(callbacks: seq<Callback>): seq<Event> {
    seq(|callbacks|, i requires 0 <= i < |callbacks| => callbacks[i].event)
  }

  /** The store ignores callbacks until one carries a good listing; from that one on it replays every
      event on top of that listing, and its deltas are those events in order. */
  lemma {:induction false} WatchedIsReplay(callbacks: seq<Callback>)
    ensures var g := FirstGood(callbacks);
            && g <= |callbacks|
            && (g == |callbacks| ==> Watched(callbacks) == (None, []))
            && (g < |callbacks| ==>
                  && AllUnstructured(callbacks[g].sotw)
                  && Watched(callbacks) == (Some(Replay(Seeded(callbacks[g].sotw), EventsOf(callbacks[g..]))),
                                            Deltas(EventsOf(callbacks[g..]))))
    decreases |callbacks|
  {
    FirstGoodIsFirst(callbacks);
    if callbacks != [] {
      var n := |callbacks| - 1;
      var front := callbacks[..n];
      FirstGoodIsFirst(front);
      WatchedIsReplay(front);
      var g := FirstGood(callbacks);
      FirstGoodOfPrefix(callbacks);
      if g < n {
        assert callbacks[g..] == front[g..] + [callbacks[n]];
        EventsSnoc(Seeded(callbacks[g].sotw), front[g..], callbacks[n]);
      } else if g == n {
        SingleReplay(Seeded(callbacks[g].sotw), callbacks[n].event);
        assert EventsOf(callbacks[g..]) == [callbacks[n].event];
      }
    }
  }

  lemma EventsSnoc(w: World, front: seq<Callback>, c: Callback)
    ensures Replay(w, EventsOf(front + [c])) == Apply(Replay(w, EventsOf(front)), c.event)
    ensures Deltas(EventsOf(front + [c])) == Deltas(EventsOf(front)) + [ToDelta(c.event)]
  {
    assert EventsOf(front + [c])[..|front|] == EventsOf(front);
  }

  lemma SingleReplay(w: World, e: Event)
    ensures Replay(w, [e]) == Apply(w, e)
    ensures Deltas([e]) == [ToDelta(e)] == [] + [ToDelta(e)]
  {
    assert [e][..0] == [];
  }

  lemma FirstGoodOfPrefix(callbacks: seq<Callback>)
    requires callbacks != []
    ensures var front := callbacks[..|callbacks| - 1];
            FirstGood(front) == (if FirstGood(callbacks) < |front| then FirstGood(callbacks) else |front|)
  {
    var front := callbacks[..|callbacks| - 1];
    FirstGoodIsFirst(callbacks);
    FirstGoodIsFirst(front);
    if FirstGood(front) < |front| {
      assert callbacks[FirstGood(front)] == front[FirstGood(front)];
    }
    if FirstGood(callbacks) < |front| {
      assert front[FirstGood(callbacks)] == callbacks[FirstGood(callbacks)];
    }
  }

  /** From the first good listing on there is one delta per event, in order, and it says of the same object
      what the event says. */
  lemma DeltasAreEvents(callbacks: seq<Callback>, k: nat)
    requires FirstGood(callbacks) + k < |callbacks|
    ensures |Watched(callbacks).1| == |callbacks| - FirstGood(callbacks)
    ensures var d, e := Watched(callbacks).1[k], callbacks[FirstGood(callbacks) + k].event;
            && (d.deltaType.ObjectAdd? <==> e.eventType.Added?)
            && (d.deltaType.ObjectUpdate? <==> e.eventType.Updated?)
            && (d.deltaType.ObjectDelete? <==> e.eventType.Deleted?)
            && d.apiVersion == e.obj.apiVersion && d.kind == e.obj.kind
            && d.name == e.obj.name && d.namespace == e.obj.namespace && d.created == e.obj.created
  {
    WatchedIsReplay(callbacks);
  }

  /** Replaying in two parts. */
  lemma {:induction false} ReplaySplit(w: World, events: seq<Event>, k: nat)
    requires k <= |events|
    ensures Replay(w, events) == Replay(Replay(w, events[..k]), events[k..])
    decreases |events|
  {
    if k == |events| {
      assert events[..k] == events && events[k..] == [];
    } else {
      var n := |events| - 1;
      ReplaySplit(w, events[..n], k);
      assert events[..n][..k] == events[..k] && events[..n][k..] == events[k..][..n - k];
    }
  }

  /** The last event about `u`, if any, decides; otherwise the starting world does. */
  function LastAbout(events: seq<Event>, u: UID): Option<Event>
    decreases |events|
  {
    if events == [] then None
    else if events[|events| - 1].obj.uid == u then Some(events[|events| - 1])
    else LastAbout(events[..|events| - 1], u)
  }

  lemma {:induction false} ReplayAt(w: World, events: seq<Event>, u: UID)
    ensures match LastAbout(events, u)
            case None => (u in Replay(w, events) <==> u in w) && (u in w ==> Replay(w, events)[u] == w[u])
            case Some(e) => (u in Replay(w, events) <==> !e.eventType.Deleted?)
                            && (!e.eventType.Deleted? ==> Replay(w, events)[u] == e.obj)
    decreases |events|
  {
    if events != [] {
      ReplayAt(w, events[..|events| - 1], u);
    }
  }

  /** Event `i` is about `u`, and none after it is. */
  predicate IsLastAbout(events: seq<Event>, i: int, u: UID) {
    0 <= i < |events| && events[i].obj.uid == u && forall j :: i < j < |events| ==> events[j].obj.uid != u
  }

  lemma {:induction false} LastAboutExactly(events: seq<Event>, u: UID)
    ensures LastAbout(events, u).None? <==> forall i :: 0 <= i < |events| ==> events[i].obj.uid != u
    ensures forall i :: IsLastAbout(events, i, u) ==> LastAbout(events, u) == Some(events[i])
    decreases |events|
  {
    if events != [] {
      var n := |events| - 1;
      var front := events[..n];
      LastAboutExactly(front, u);
      forall i | 0 <= i < n
        ensures front[i] == events[i]
      {}
      forall i | IsLastAbout(events, i, u) && i < n
        ensures IsLastAbout(front, i, u)
      {}
    }
  }

  lemma {:induction false} LastAboutPrefix(events: seq<Event>, k: nat, u: UID)
    requires k <= |events| && LastAbout(events, u).None?
    ensures LastAbout(events[..k], u).None?
    decreases |events|
  {
    if k == |events| {
      assert events[..k] == events;
    } else {
      assert events[..|events| - 1][..k] == events[..k];
      LastAboutPrefix(events[..|events| - 1], k, u);
    }
  }

  /** Replaying events on top of a world that has already seen some of them gives the same result as
      replaying them from where they began. */
  lemma ReplayAhead(w: World, events: seq<Event>, ahead: nat)
    requires ahead <= |events|
    ensures Replay(Replay(w, events[..ahead]), events) == Replay(w, events)
  {
    var seeded := Replay(w, events[..ahead]);
    forall u
      ensures u in Replay(seeded, events) <==> u in Replay(w, events)
      ensures u in Replay(w, events) ==> Replay(seeded, events)[u] == Replay(w, events)[u]
    {
      ReplayAt(w, events, u);
      ReplayAt(seeded, events, u);
      if LastAbout(events, u).None? {
        LastAboutPrefix(events, ahead, u);
        ReplayAt(w, events[..ahead], u);
      }
    }
  }

  lemma {:induction false} SeededListing(listing: seq<Cached>, u: UID)
    requires AllUnstructured(listing)
    ensures u in Seeded(listing) ==> Unstructured(Seeded(listing)[u]) in listing && Seeded(listing)[u].uid == u
    ensures (exists i :: 0 <= i < |listing| && listing[i].obj.uid == u) ==> u in Seeded(listing)
    decreases |listing|
  {
    if listing != [] {
      var n := |listing| - 1;
      SeededListing(listing[..n], u);
      if i :| 0 <= i < |listing| && listing[i].obj.uid == u {
        if i < n {
          assert listing[..n][i].obj.uid == u;
        }
      }
    }
  }

  /** Reading back a listing of a keyed world gives the world. */
  lemma SeededRoundTrip(listing: seq<Cached>, w: World)
    requires Lists(listing, w) && forall u :: u in w ==> w[u].uid == u
    ensures AllUnstructured(listing) && Seeded(listing) == w
  {
    forall u
      ensures u in Seeded(listing) <==> u in w
      ensures u in w ==> Seeded(listing)[u] == w[u]
    {
      SeededListing(listing, u);
      if u in w {
        var i :| 0 <= i < |listing| && listing[i] == Unstructured(w[u]);
        assert listing[i].obj.uid == u;
      }
    }
  }

  lemma {:induction false} ReplayKeyed(w: World, events: seq<Event>)
    requires forall u :: u in w ==> w[u].uid == u
    ensures forall u :: u in Replay(w, events) ==> Replay(w, events)[u].uid == u
    decreases |events|
  {
    if events != [] {
      ReplayKeyed(w, events[..|events| - 1]);
    }
  }

  /** Callback `i` brings event `i`, and a listing taken when the cache had seen `seen[i]` events, at
      least that one; a listing the store cannot use stands for whatever else a cache might hold. */
  ghost predicate FromInformer(callbacks: seq<Callback>, events: seq<Event>, seen: seq<nat>) {
    && |callbacks| == |seen| <= |events|
    && forall i :: 0 <= i < |callbacks| ==>
         && callbacks[i].event == events[i]
         && i < seen[i] <= |events|
         && (AllUnstructured(callbacks[i].sotw) ==> Lists(callbacks[i].sotw, Replay(map[], events[..seen[i]])))
  }

  /** However late each listing was taken and whichever callback it was seeded from, a store that has
      processed a callback for every event holds exactly the informer's final cache, provided one
      callback carried a listing it could read; otherwise it holds nothing. */
  lemma Convergence(callbacks: seq<Callback>, events: seq<Event>, seen: seq<nat>)
    requires FromInformer(callbacks, events, seen) && |callbacks| == |events|
    ensures Watched(callbacks).0 ==
              if exists i :: 0 <= i < |callbacks| && AllUnstructured(callbacks[i].sotw)
              then Some(Replay(map[], events)) else None
  {
    WatchedIsReplay(callbacks);
    FirstGoodIsFirst(callbacks);
    if FirstGood(callbacks) < |callbacks| {
      ReplayFromSeed(callbacks, events, seen, FirstGood(callbacks));
    }
  }

  /** So, object by object, the last event decides: the store has an object with the UID exactly when there
      was an event about it and the last one was no deletion, and then the object is that event's. */
  lemma FinalContents(callbacks: seq<Callback>, events: seq<Event>, seen: seq<nat>, u: UID)
    requires FromInformer(callbacks, events, seen) && |callbacks| == |events|
    requires exists i :: 0 <= i < |callbacks| && AllUnstructured(callbacks[i].sotw)
    ensures Watched(callbacks).0.Some?
    ensures var w := Watched(callbacks).0.value;
            && ((forall i :: 0 <= i < |events| ==> events[i].obj.uid != u) ==> u !in w)
            && forall i :: IsLastAbout(events, i, u) ==>
                 && (u in w <==> !events[i].eventType.Deleted?)
                 && (u in w ==> w[u] == events[i].obj)
  {
    Convergence(callbacks, events, seen);
    ReplayAt(map[], events, u);
    LastAboutExactly(events, u);
  }

  lemma ReplayFromSeed(callbacks: seq<Callback>, events: seq<Event>, seen: seq<nat>, g: nat)
    requires FromInformer(callbacks, events, seen) && |callbacks| == |events|
    requires g < |callbacks| && AllUnstructured(callbacks[g].sotw)
    ensures Replay(Seeded(callbacks[g].sotw), EventsOf(callbacks[g..])) == Replay(map[], events)
  {
    SeededFromCache(callbacks, events, seen, g);
    assert EventsOf(callbacks[g..]) == events[g..];
    LateSeed(events, g, seen[g]);
  }

  lemma SeededFromCache(callbacks: seq<Callback>, events: seq<Event>, seen: seq<nat>, g: nat)
    requires FromInformer(callbacks, events, seen)
    requires g < |callbacks| && AllUnstructured(callbacks[g].sotw)
    ensures Seeded(callbacks[g].sotw) == Replay(map[], events[..seen[g]])
  {
    ReplayKeyed(map[], events[..seen[g]]);
    SeededRoundTrip(callbacks[g].sotw, Replay(map[], events[..seen[g]]));
  }

  /** Seeding from the cache as of `ahead` and replaying from `g` on ends where the cache ends. */
  lemma LateSeed(events: seq<Event>, g: nat, ahead: nat)
    requires g <= ahead <= |events|
    ensures Replay(Replay(map[], events[..ahead]), events[g..]) == Replay(map[], events)
  {
    ReplayTo(events, g, ahead);
    ReplayAhead(Replay(map[], events[..g]), events[g..], ahead - g);
    ReplaySplit(map[], events, g);
  }

  lemma ReplayTo(events: seq<Event>, g: nat, ahead: nat)
    requires g <= ahead <= |events|
    ensures Replay(map[], events[..ahead]) == Replay(Replay(map[], events[..g]), events[g..][..ahead - g])
  {
    var shorter := events[..ahead];
    ReplaySplit(map[], shorter, g);
    assert shorter[..g] == events[..g] && shorter[g..] == events[g..][..ahead - g];
  }
}
