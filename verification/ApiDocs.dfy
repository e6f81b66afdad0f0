/** The cache of API documents. Two generations of mapping UIDs decide what to delete after each
    scrape; the result is compared with specifications that know nothing of generations. */
module ApiDocs {
  import opened Prelude

  type UID = string

  /** docMappingRef: the mapping a document belongs to, under its display name. */
  datatype MappingRef = MappingRef(uid: UID, name: string, resourceVersion: string)

  datatype DocsRef = DocsRef(ref: MappingRef, json: seq<bv8>)

  /** One processable mapping of a snapshot and what fetching its document gives: nothing when the
      URL does not parse, the request fails, or the document is not OpenAPI. */
  datatype Mapping = Mapping(ref: MappingRef, doc: Option<seq<bv8>>)

  type Round = seq<Mapping>
  type Entries = map<UID, DocsRef>

  // ----- Specification of one round -----

  function Uids(r: Round): set<UID> {
    set i | 0 <= i < |r| :: r[i].ref.uid
  }

  /** The last document fetched in the round for `u`. */
  function LastSuccess(r: Round, u: UID): Option<DocsRef>
    decreases |r|
  {
    if r == [] then None
    else
      var m := r[|r| - 1];
      if m.ref.uid == u && m.doc.Some? then Some(DocsRef(m.ref, m.doc.value))
      else LastSuccess(r[..|r| - 1], u)
  }

  predicate Fetches(r: Round, u: UID) {
    exists i :: 0 <= i < |r| && r[i].ref.uid == u && r[i].doc.Some?
  }

  lemma {:induction false} LastSuccessListed(r: Round, u: UID)
    ensures LastSuccess(r, u).Some? <==> Fetches(r, u)
    ensures LastSuccess(r, u).Some? ==> u in Uids(r) && LastSuccess(r, u).value.ref.uid == u
    decreases |r|
  {
    if r != [] {
      var front := r[..|r| - 1];
      LastSuccessListed(front, u);
      FetchesSnoc(front, r[|r| - 1], u);
      assert front + [r[|r| - 1]] == r;
      if u in Uids(front) {
        var i :| 0 <= i < |front| && front[i].ref.uid == u;
        assert r[i].ref.uid == u;
      }
      assert r[|r| - 1].ref.uid in Uids(r);
    }
  }

  lemma FetchesSnoc(front: Round, m: Mapping, u: UID)
    ensures Fetches(front + [m], u) <==> Fetches(front, u) || (m.ref.uid == u && m.doc.Some?)
  {
    var r := front + [m];
    assert r[|front|] == m;
    if i :| 0 <= i < |front| && front[i].ref.uid == u && front[i].doc.Some? {
      assert r[i] == front[i];
    }
  }

  /** A fetched document of the round for `u` that no later one replaces. */
  predicate LastFetched(r: Round, u: UID, i: int) {
    && 0 <= i < |r| && r[i].ref.uid == u && r[i].doc.Some?
    && forall j :: i < j < |r| && r[j].ref.uid == u ==> r[j].doc.None?
  }

  /** LastSuccess is such a document, byte for byte, under the reference it was fetched for, and is
      missing exactly if there is none. */
  lemma {:induction false} LastSuccessExactly(r: Round, u: UID, x: DocsRef)
    ensures LastSuccess(r, u) == Some(x) <==>
            exists i :: LastFetched(r, u, i) && x.ref == r[i].ref && Some(x.json) == r[i].doc
    decreases |r|
  {
    if r != [] {
      var n := |r| - 1;
      var front := r[..n];
      LastSuccessExactly(front, u, x);
      var hit := r[n].ref.uid == u && r[n].doc.Some?;
      assert LastFetched(r, u, n) <==> hit;
      forall i
        ensures LastFetched(r, u, i) <==> (i == n && hit) || (LastFetched(front, u, i) && !hit)
      {
        LastFetchedSnoc(r, u, i);
      }
      if i :| LastFetched(front, u, i) && x.ref == front[i].ref && Some(x.json) == front[i].doc && !hit {
        assert LastFetched(r, u, i);
      }
    }
  }

  lemma LastFetchedSnoc(r: Round, u: UID, i: int)
    requires r != []
    ensures var n := |r| - 1;
            var hit := r[n].ref.uid == u && r[n].doc.Some?;
            LastFetched(r, u, i) <==> (i == n && hit) || (LastFetched(r[..n], u, i) && !hit)
  {
    var front := r[..|r| - 1];
    assert forall j :: 0 <= j < |front| ==> front[j] == r[j];
  }

  /** What a round makes of the entries, without generations: keep the mappings still listed and
      overwrite those fetched. */
  function Scraped(entries: Entries, r: Round): (after: Entries) {
    map u | u in Uids(r) && (u in entries || LastSuccess(r, u).Some?)
      :: if LastSuccess(r, u).Some? then LastSuccess(r, u).value else entries[u]
  }

  // ----- The code's objects -----

  /** Figures out which documents are no longer wanted. */
  class DocsDiffCalculator {
    var previous: set<UID>
    var current: set<UID>

    constructor (known: seq<MappingRef>)
      ensures previous == (set i | 0 <= i < |known| :: known[i].uid) && current == {}
    {
      var knownUids: set<UID> := {};
      for k := 0 to |known|
        invariant knownUids == set i | 0 <= i < k :: known[i].uid
      {
        knownUids := knownUids + {known[k].uid};
      }
      previous, current := knownUids, {};
    }

    method Add(ref: MappingRef)
      modifies this`current
      ensures current == old(current) + {ref.uid}
    {
      current := current + {ref.uid};
    }

    /** Starts a new round; lists, in the arbitrary order of a Go map, the UIDs to delete. */
    method NewRound() returns (toDelete: seq<UID>)
      modifies this
      ensures previous == old(current) && current == {}
      ensures forall u :: u in toDelete <==> u in old(previous) && u !in old(current)
      ensures forall i, j :: 0 <= i < j < |toDelete| ==> toDelete[i] != toDelete[j]
    {
      toDelete := [];
      var rest := previous;
      while rest != {}
        invariant rest <= previous
        invariant forall u :: u in toDelete <==> u in previous - rest && u !in current
        invariant forall i, j :: 0 <= i < j < |toDelete| ==> toDelete[i] != toDelete[j]
        decreases |rest|
      {
        var u :| u in rest;
        rest := rest - {u};
        if u !in current {
          toDelete := toDelete + [u];
        }
      }
      previous := current;
      current := {};
    }

    method DeleteOld(store: InMemoryStore)
      modifies this, store
      ensures previous == old(current) && current == {}
      ensures store.entries == old(store.entries) - (old(previous) - old(current))
    {
      var toDelete := NewRound();
      ghost var before := store.entries;
      for k := 0 to |toDelete|
        invariant previous == old(current) && current == {}
        invariant store.entries == before - (set i | 0 <= i < k :: toDelete[i])
      {
        store.DeleteRefUID(toDelete[k]);
      }
      assert (set i | 0 <= i < |toDelete| :: toDelete[i]) == old(previous) - old(current);
    }
  }

  class InMemoryStore {
    var entries: Entries

    constructor ()
      ensures entries == map[]
    {
      entries := map[];
    }

    method Add(ref: MappingRef, json: seq<bv8>)
      modifies this
      ensures entries == old(entries)[ref.uid := DocsRef(ref, json)]
    {
      entries := entries[ref.uid := DocsRef(ref, json)];
    }

    /** Looks for the UID by going through all the entries. */
    method DeleteRefUID(uid: UID)
      modifies this
      ensures entries == old(entries) - {uid}
    {
      var rest := entries.Keys;
      assert uid !in entries ==> entries == entries - {uid};
      while rest != {}
        invariant rest <= old(entries).Keys
        invariant uid in rest ==> entries == old(entries)
        invariant uid !in rest ==> entries == old(entries) - {uid}
        decreases |rest|
      {
        var u :| u in rest;
        rest := rest - {u};
        if uid == u {
          entries := entries - {u};
        }
      }
    }

    /** Every entry once, in the arbitrary order of a Go map. */
    method GetAll() returns (all: seq<DocsRef>)
      requires Keyed(entries)
      ensures |all| == |entries|
      ensures forall i :: 0 <= i < |all| ==> all[i].ref.uid in entries && entries[all[i].ref.uid] == all[i]
      ensures forall i, j :: 0 <= i < j < |all| ==> all[i].ref.uid != all[j].ref.uid
    {
      all := [];
      var rest := entries.Keys;
      while rest != {}
        invariant rest <= entries.Keys && |all| == |entries| - |rest|
        invariant forall i :: 0 <= i < |all| ==>
                    && all[i].ref.uid in entries && all[i].ref.uid !in rest
                    && entries[all[i].ref.uid] == all[i]
        invariant forall i, j :: 0 <= i < j < |all| ==> all[i].ref.uid != all[j].ref.uid
        decreases |rest|
      {
        var u :| u in rest;
        rest := rest - {u};
        all := all + [entries[u]];
      }
      assert |entries.Keys| == |entries|;
    }
  }

  /** Every document is filed under the UID of its mapping. */
  predicate Keyed(entries: Entries) {
    forall u :: u in entries ==> entries[u].ref.uid == u
  }

  const NANOS_PER_MINUTE := 60_000_000_000

  class APIDocsStore {
    const store: InMemoryStore
    const docsDiff: DocsDiffCalculator
    var dontProcessSnapshotBefore: int

    /** Between rounds everything stored was listed in the last round. */
    ghost predicate Valid()
      reads this, store, docsDiff
    {
      docsDiff.current == {} && store.entries.Keys <= docsDiff.previous && Keyed(store.entries)
    }

    constructor ()
      ensures Valid() && fresh(store) && fresh(docsDiff)
      ensures store.entries == map[] && dontProcessSnapshotBefore == 0
    {
      store := new InMemoryStore();
      docsDiff := new DocsDiffCalculator([]);
      dontProcessSnapshotBefore := 0;
    }

    /** One scrape: fetch every mapping, then delete what the last round listed and this one did not. */
    method Scrape(mappings: Round)
      requires Valid()
      modifies store, docsDiff
      ensures Valid()
      ensures store.entries == Scraped(old(store.entries), mappings)
      ensures docsDiff.previous == Uids(mappings)
    {
      ghost var before := store.entries;
      for k := 0 to |mappings|
        invariant docsDiff.previous == old(docsDiff.previous)
        invariant docsDiff.current == Uids(mappings[..k])
        invariant store.entries == Fetched(before, mappings[..k])
      {
        assert mappings[..k + 1][..k] == mappings[..k];
        UidsSnoc(mappings[..k], mappings[k]);
        assert mappings[..k + 1] == mappings[..k] + [mappings[k]];
        docsDiff.Add(mappings[k].ref);
        if mappings[k].doc.Some? {
          store.Add(mappings[k].ref, mappings[k].doc.value);
        }
      }
      assert mappings[..|mappings|] == mappings;
      docsDiff.DeleteOld(store);
      GenerationsAreRestriction(before, old(docsDiff.previous), mappings);
    }

    /** At most one scrape a minute, and none while there is nothing stored and nothing to fetch. The first
        scrape is done at once; a store that holds something is updated by a goroutine, later. */
    method ProcessSnapshot(mappings: Round, now: int) returns (decision: Decision)
      requires Valid()
      modifies this, store, docsDiff
      ensures Valid()
      ensures decision.Skip? <==>
                (mappings == [] && old(store.entries) == map[]) || now < old(dontProcessSnapshotBefore)
      ensures decision.InForeground? ==> old(store.entries) == map[] && store.entries == Scraped(map[], mappings)
      ensures decision.InBackground? ==> old(store.entries) != map[]
      ensures !decision.InForeground? ==> store.entries == old(store.entries)
      ensures dontProcessSnapshotBefore ==
                if decision.Skip? then old(dontProcessSnapshotBefore) else now + NANOS_PER_MINUTE
    {
      var all := store.GetAll();
      var emptyStore := |all| == 0;
      if |mappings| == 0 && emptyStore {
        return Skip;
      }
      if now < dontProcessSnapshotBefore {
        return Skip;
      }
      dontProcessSnapshotBefore := now + NANOS_PER_MINUTE;
      if !emptyStore {
        return InBackground;
      }
      Scrape(mappings);
      return InForeground;
    }

    /** A new store over a sequence of snapshots, up to any of them. `processed` are the positions of the
        calls that were not skipped, and `pending` is the last one's round if its goroutine has not scraped
        yet. The store holds what the scraped rounds amount to, scrapes are asked for at least a minute
        apart, and a call is skipped only for a reason. */
    method ProcessSnapshots(calls: seq<Call>) returns (processed: seq<nat>, pending: Option<Round>)
      requires Valid() && store.entries == map[] && dontProcessSnapshotBefore == 0
      modifies this, store, docsDiff
      ensures Valid() && Ascending(processed, |calls|) && (pending.Some? ==> processed != [])
      ensures store.entries == AfterRounds(Completed(calls, processed, pending))
      ensures MinuteApart(calls, processed)
      ensures Unsettled(calls, processed, pending, |calls|)
      ensures forall k :: 0 <= k < |calls| && k !in processed ==> Excused(calls, processed, k)
    {
      processed, pending := [], None;
      for k := 0 to |calls|
        invariant Valid()
        invariant Account(processed, pending, store.entries, dontProcessSnapshotBefore) == AccountAfter(calls, k)
      {
        if pending.Some? && (calls[k].settled || calls[k].now >= dontProcessSnapshotBefore) {
          Scrape(pending.value);
          pending := None;
        }
        var decision := ProcessSnapshot(calls[k].mappings, calls[k].now);
        if !decision.Skip? {
          processed := processed + [k];
          pending := if decision.InBackground? then Some(calls[k].mappings) else None;
        }
      }
      AccountHolds(calls, |calls|);
    }
  }

  /** What becomes of a snapshot. */
  datatype Decision = Skip | InForeground | InBackground

  /** A call of ProcessSnapshot; `settled` says that a scrape still in the background has finished by
      then. Scrapes follow one another: one that is still in the background finishes before a call that
      could start the next. */
  datatype Call = Call(mappings: Round, now: int, settled: bool)

  predicate Ascending(positions: seq<nat>, limit: nat) {
    && (forall i :: 0 <= i < |positions| ==> positions[i] < limit)
    && (forall i, j :: 0 <= i < j < |positions| ==> positions[i] < positions[j])
  }

  /** The rounds asked for. */
  function Asked(calls: seq<Call>, processed: seq<nat>): seq<Round>
    requires Ascending(processed, |calls|)
  {
    seq(|processed|, i requires 0 <= i < |processed| => calls[processed[i]].mappings)
  }

  /** The rounds scraped: all those asked for, but for the one in the background. */
  function Completed(calls: seq<Call>, processed: seq<nat>, pending: Option<Round>): seq<Round>
    requires Ascending(processed, |calls|)
  {
    if pending.Some? && processed != [] then Asked(calls, processed[..|processed| - 1]) else Asked(calls, processed)
  }

  /** A scrape is still in the background only if no later call has found it finished. */
  predicate Unsettled(calls: seq<Call>, processed: seq<nat>, pending: Option<Round>, k: nat)
    requires k <= |calls|
  {
    pending.Some? && processed != [] ==> forall j :: processed[|processed| - 1] < j < k ==> !calls[j].settled
  }

  predicate MinuteApart(calls: seq<Call>, processed: seq<nat>)
    requires Ascending(processed, |calls|)
  {
    forall i :: 0 < i < |processed| ==> calls[processed[i]].now >= calls[processed[i - 1]].now + NANOS_PER_MINUTE
  }

  /** The time before which nothing is processed. */
  function NotBefore(calls: seq<Call>, processed: seq<nat>): int
    requires Ascending(processed, |calls|)
  {
    if processed == [] then 0 else calls[processed[|processed| - 1]].now + NANOS_PER_MINUTE
  }

  /** The first `n` of the processed calls are those before `k`, and they left the store empty. */
  predicate EmptyBefore(calls: seq<Call>, processed: seq<nat>, n: nat, k: nat)
    requires Ascending(processed, |calls|)
  {
    && n <= |processed|
    && (forall i :: 0 <= i < |processed| ==> (processed[i] < k <==> i < n))
    && AfterRounds(Asked(calls, processed[..n])) == map[]
  }

  /** There was nothing stored and nothing to fetch, or less than a minute had passed since a processed
      call. */
  ghost predicate Excused(calls: seq<Call>, processed: seq<nat>, k: nat)
    requires k < |calls| && Ascending(processed, |calls|)
  {
    || calls[k].now < 0
    || (calls[k].mappings == [] && exists n :: EmptyBefore(calls, processed, n, k))
    || exists i :: 0 <= i < |processed| && processed[i] < k && calls[k].now < calls[processed[i]].now + NANOS_PER_MINUTE
  }

  lemma RoundsSnoc(calls: seq<Call>, processed: seq<nat>, k: nat)
    requires Ascending(processed, k) && k < |calls|
    ensures Ascending(processed + [k], k + 1)
    ensures Asked(calls, processed + [k]) == Asked(calls, processed) + [calls[k].mappings]
    ensures (processed + [k])[..|processed|] == processed
    ensures AfterRounds(Asked(calls, processed + [k]))
         == Scraped(AfterRounds(Asked(calls, processed)), calls[k].mappings)
  {
    var longer := Asked(calls, processed) + [calls[k].mappings];
    assert longer[..|longer| - 1] == Asked(calls, processed);
  }

  /** What a sequence of calls leaves: the positions of those processed, the round still to be scraped, the
      entries stored, and the time before which nothing is processed. */
  datatype Account = Account(processed: seq<nat>, pending: Option<Round>, entries: Entries, notBefore: int)

  /** A scrape in the background finishes before a call if it is said to, or has to. */
  function Settled(a: Account, c: Call): Account {
    if a.pending.Some? && (c.settled || c.now >= a.notBefore)
    then a.(pending := None, entries := Scraped(a.entries, a.pending.value))
    else a
  }

  function Taken(a: Account, c: Call, k: nat): Account {
    var later := c.now + NANOS_PER_MINUTE;
    if (c.mappings == [] && a.entries == map[]) || c.now < a.notBefore then a
    else if a.entries == map[] then Account(a.processed + [k], None, Scraped(map[], c.mappings), later)
    else Account(a.processed + [k], Some(c.mappings), a.entries, later)
  }

  function AccountAfter(calls: seq<Call>, k: nat): Account
    requires k <= |calls|
  {
    if k == 0 then Account([], None, map[], 0)
    else Taken(Settled(AccountAfter(calls, k - 1), calls[k - 1]), calls[k - 1], k - 1)
  }

  /** The account of the first `k` calls is as ProcessSnapshots promises. */
  ghost predicate Accounted(calls: seq<Call>, a: Account, k: nat)
    requires k <= |calls|
  {
    && Ascending(a.processed, k)
    && (a.pending.Some? ==> a.processed != [] && a.entries != map[])
    && (a.pending.Some? ==> a.pending.value == calls[a.processed[|a.processed| - 1]].mappings)
    && a.entries == AfterRounds(Completed(calls, a.processed, a.pending))
    && MinuteApart(calls, a.processed)
    && a.notBefore == NotBefore(calls, a.processed)
    && Unsettled(calls, a.processed, a.pending, k)
    && forall j :: 0 <= j < k && j !in a.processed ==> Excused(calls, a.processed, j)
  }

  lemma {:induction false} AccountHolds(calls: seq<Call>, k: nat)
    requires k <= |calls|
    ensures Accounted(calls, AccountAfter(calls, k), k)
  {
    if k == 0 {
      AccountStart(calls);
    } else {
      var n := k - 1;
      AccountHolds(calls, n);
      AccountTurn(calls, n);
    }
  }

  lemma AccountStart(calls: seq<Call>)
    ensures Accounted(calls, AccountAfter(calls, 0), 0)
  {}

  lemma AccountTurn(calls: seq<Call>, k: nat)
    requires k < |calls| && Accounted(calls, AccountAfter(calls, k), k)
    ensures Accounted(calls, AccountAfter(calls, k + 1), k + 1)
  {
    var a := AccountAfter(calls, k);
    SettledHolds(calls, a, k);
    TakenHolds(calls, Settled(a, calls[k]), k);
    assert AccountAfter(calls, k + 1) == Taken(Settled(a, calls[k]), calls[k], k);
  }

  lemma SettledHolds(calls: seq<Call>, a: Account, k: nat)
    requires k < |calls| && Accounted(calls, a, k)
    ensures var b := Settled(a, calls[k]);
            Accounted(calls, b, k) && (b.pending.Some? ==> !calls[k].settled && calls[k].now < b.notBefore)
  {
    if a.pending.Some? {
      CompletedLast(calls, a.processed);
    }
  }

  lemma CompletedLast(calls: seq<Call>, processed: seq<nat>)
    requires Ascending(processed, |calls|) && processed != []
    ensures var round := calls[processed[|processed| - 1]].mappings;
            AfterRounds(Completed(calls, processed, None))
              == Scraped(AfterRounds(Completed(calls, processed, Some(round))), round)
  {
    var n := |processed| - 1;
    RoundsSnoc(calls, processed[..n], processed[n]);
    assert processed[..n] + [processed[n]] == processed;
  }

  lemma TakenHolds(calls: seq<Call>, a: Account, k: nat)
    requires k < |calls| && Accounted(calls, a, k)
    requires a.pending.Some? ==> !calls[k].settled && calls[k].now < a.notBefore
    ensures Accounted(calls, Taken(a, calls[k], k), k + 1)
  {
    if (calls[k].mappings == [] && a.entries == map[]) || calls[k].now < a.notBefore {
      SkippedHolds(calls, a, k);
    } else {
      ScrapedHolds(calls, a, k);
    }
  }

  lemma ScrapedHolds(calls: seq<Call>, a: Account, k: nat)
    requires k < |calls| && Accounted(calls, a, k) && a.pending.None?
    requires calls[k].now >= a.notBefore && !(calls[k].mappings == [] && a.entries == map[])
    ensures Accounted(calls, Taken(a, calls[k], k), k + 1)
  {
    RoundsSnoc(calls, a.processed, k);
    MinuteSnoc(calls, a.processed, k);
    StillExcused(calls, a.processed, a.processed + [k], k);
  }

  lemma SkippedHolds(calls: seq<Call>, a: Account, k: nat)
    requires k < |calls| && Accounted(calls, a, k)
    requires (calls[k].mappings == [] && a.entries == map[]) || calls[k].now < a.notBefore
    requires a.pending.Some? ==> !calls[k].settled
    ensures Accounted(calls, Taken(a, calls[k], k), k + 1)
  {
    SkipExcused(calls, a, k);
    StillExcused(calls, a.processed, a.processed, k);
  }

  lemma SkipExcused(calls: seq<Call>, a: Account, k: nat)
    requires k < |calls| && Ascending(a.processed, k) && a.notBefore == NotBefore(calls, a.processed)
    requires a.entries == map[] ==> AfterRounds(Asked(calls, a.processed)) == map[]
    requires (calls[k].mappings == [] && a.entries == map[]) || calls[k].now < a.notBefore
    ensures Excused(calls, a.processed, k)
  {
    var processed := a.processed;
    if calls[k].now >= a.notBefore {
      assert processed[..|processed|] == processed;
      assert EmptyBefore(calls, processed, |processed|, k);
    } else if processed != [] {
      assert calls[k].now < calls[processed[|processed| - 1]].now + NANOS_PER_MINUTE;
    }
  }

  lemma MinuteSnoc(calls: seq<Call>, processed: seq<nat>, k: nat)
    requires Ascending(processed, k) && k < |calls| && MinuteApart(calls, processed)
    requires calls[k].now >= NotBefore(calls, processed)
    ensures Ascending(processed + [k], k + 1) && MinuteApart(calls, processed + [k])
    ensures NotBefore(calls, processed + [k]) == calls[k].now + NANOS_PER_MINUTE
  {}

  lemma StillExcused(calls: seq<Call>, before: seq<nat>, after: seq<nat>, k: nat)
    requires Ascending(before, k) && Ascending(after, k + 1) && k < |calls|
    requires after == before + [k] || (after == before && Excused(calls, before, k))
    requires forall j :: 0 <= j < k && j !in before ==> Excused(calls, before, j)
    ensures forall j :: 0 <= j < k + 1 && j !in after ==> Excused(calls, after, j)
  {
    forall j | 0 <= j < k + 1 && j !in after
      ensures Excused(calls, after, j)
    {
      if i :| 0 <= i < |before| && before[i] < j && calls[j].now < calls[before[i]].now + NANOS_PER_MINUTE {
        assert after[i] == before[i];
      } else if n: nat :| EmptyBefore(calls, before, n, j) {
        assert after[..n] == before[..n];
        assert EmptyBefore(calls, after, n, j);
      }
    }
  }

  // ----- Two generations are a restriction to the mappings still listed -----

  /** The entries before the deletion. */
  function Fetched(entries: Entries, r: Round): Entries
    decreases |r|
  {
    if r == [] then entries
    else
      var n := |r| - 1;
      var before := Fetched(entries, r[..n]);
      if r[n].doc.Some? then before[r[n].ref.uid := DocsRef(r[n].ref, r[n].doc.value)] else before
  }

  lemma UidsSnoc(r: Round, m: Mapping)
    ensures Uids(r + [m]) == Uids(r) + {m.ref.uid}
  {
    var s := r + [m];
    forall u | u in Uids(r)
      ensures u in Uids(s)
    {
      var i :| 0 <= i < |r| && r[i].ref.uid == u;
      assert s[i].ref.uid == u;
    }
    assert s[|r|].ref.uid in Uids(s);
  }

  lemma {:induction false} FetchedAt(entries: Entries, r: Round, u: UID)
    ensures u in Fetched(entries, r) <==> u in entries || LastSuccess(r, u).Some?
    ensures u in Fetched(entries, r) ==>
              Fetched(entries, r)[u] == if LastSuccess(r, u).Some? then LastSuccess(r, u).value else entries[u]
    decreases |r|
  {
    if r != [] {
      FetchedAt(entries, r[..|r| - 1], u);
    }
  }

  /** Deleting the last generation's UIDs that this one lacks is the same as keeping only what this
      round listed, because nothing older than the last generation is ever stored. */
  lemma GenerationsAreRestriction(entries: Entries, previous: set<UID>, r: Round)
    requires entries.Keys <= previous && Keyed(entries)
    ensures Fetched(entries, r) - (previous - Uids(r)) == Scraped(entries, r)
    ensures Scraped(entries, r).Keys <= Uids(r) && Keyed(Scraped(entries, r))
  {
    var a, b := Fetched(entries, r) - (previous - Uids(r)), Scraped(entries, r);
    forall u
      ensures u in a <==> u in b
      ensures u in a ==> a[u] == b[u]
      ensures u in b ==> b[u].ref.uid == u
    {
      FetchedAt(entries, r, u);
      LastSuccessListed(r, u);
    }
  }

  // ----- Contents over a whole history of rounds -----

  function AfterRounds(history: seq<Round>): Entries
    decreases |history|
  {
    if history == [] then map[] else Scraped(AfterRounds(history[..|history| - 1]), history[|history| - 1])
  }

  /** Round `k` fetched `u`, and `u` has been listed in every round since. */
  predicate FetchedAndKept(history: seq<Round>, k: nat, u: UID) {
    && k < |history|
    && Fetches(history[k], u)
    && forall j :: k <= j < |history| ==> u in Uids(history[j])
  }

  /** The store holds `u` exactly when some round of its current unbroken streak fetched it. */
  lemma {:induction false} HeldExactly(history: seq<Round>, u: UID)
    ensures u in AfterRounds(history) <==> exists k: nat :: FetchedAndKept(history, k, u)
    decreases |history|
  {
    if history != [] {
      var n := |history| - 1;
      var front, last := history[..n], history[n];
      HeldExactly(front, u);
      LastSuccessListed(last, u);
      forall k: nat
        ensures FetchedAndKept(history, k, u) <==>
                (FetchedAndKept(front, k, u) && u in Uids(last)) || (k == n && Fetches(last, u))
      {
        KeptSnoc(front, last, k, u);
        assert front + [last] == history;
      }
      if k: nat :| FetchedAndKept(front, k, u) {
        assert u in Uids(last) ==> FetchedAndKept(history, k, u);
      }
      if Fetches(last, u) {
        assert FetchedAndKept(history, n, u);
      }
    }
  }

  /** And then it holds, byte for byte and under its mapping, the document the latest such round fetched
      last. */
  lemma HeldIsLatest(history: seq<Round>, u: UID, k: nat, i: nat)
    requires FetchedAndKept(history, k, u) && LastFetched(history[k], u, i)
    requires forall j: nat | j > k :: !FetchedAndKept(history, j, u)
    ensures u in AfterRounds(history)
    ensures AfterRounds(history)[u].ref == history[k][i].ref
    ensures Some(AfterRounds(history)[u].json) == history[k][i].doc
  {
    HeldIsLastSuccess(history, u, k);
    LastSuccessExactly(history[k], u, DocsRef(history[k][i].ref, history[k][i].doc.value));
  }

  lemma {:induction false} HeldIsLastSuccess(history: seq<Round>, u: UID, k: nat)
    requires FetchedAndKept(history, k, u)
    requires forall j: nat | j > k :: !FetchedAndKept(history, j, u)
    ensures u in AfterRounds(history) && Some(AfterRounds(history)[u]) == LastSuccess(history[k], u)
    decreases |history|
  {
    var n := |history| - 1;
    var front, last := history[..n], history[n];
    assert front + [last] == history;
    LastSuccessListed(last, u);
    KeptSnoc(front, last, k, u);
    KeptSnoc(front, last, n, u);
    if k < n {
      forall j: nat | j > k
        ensures !FetchedAndKept(front, j, u)
      {
        KeptSnoc(front, last, j, u);
      }
      HeldIsLastSuccess(front, u, k);
    }
  }

  lemma KeptSnoc(front: seq<Round>, last: Round, k: nat, u: UID)
    ensures FetchedAndKept(front + [last], k, u) <==>
            (FetchedAndKept(front, k, u) && u in Uids(last)) || (k == |front| && Fetches(last, u))
  {
    LastSuccessListed(last, u);
    var history := front + [last];
    assert forall j :: 0 <= j < |front| ==> history[j] == front[j];
    assert history[|front|] == last;
  }

  /** A snapshot without mappings that is skipped because the store is empty would not have changed
      anything, in that round or in any later one. */
  lemma {:induction false} SkippingIsHarmless(before: seq<Round>, after: seq<Round>)
    requires AfterRounds(before) == map[]
    ensures AfterRounds(before + [[]] + after) == AfterRounds(before + after)
    decreases |after|
  {
    var long, short := before + [[]] + after, before + after;
    if after == [] {
      assert long[..|long| - 1] == before && short == before && long[|long| - 1] == [];
    } else {
      var n := |after| - 1;
      SkippingIsHarmless(before, after[..n]);
      assert long[..|long| - 1] == before + [[]] + after[..n] && long[|long| - 1] == after[n];
      assert short[..|short| - 1] == before + after[..n] && short[|short| - 1] == after[n];
    }
  }
}
