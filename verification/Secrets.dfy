/** Keeping one Kubernetes secret in step with what the Director asks for. */
module Secrets {
  import opened Prelude
  import opened JsonPatch

  const SET := "SET"
  const DELETE := "DELETE"

  datatype SyncCommand = SyncCommand(name: string, namespace: string, action: string, secret: map<string, Bytes>)

  /** A secret of the cluster; `kind` stands for its type and everything else a patch leaves alone. */
  datatype Secret = Secret(data: map<string, Bytes>, kind: string)

  const OPAQUE_TYPE := "Opaque"

  /** Secrets by namespace and name. */
  type Store = map<(string, string), Secret>

  /** Which calls the API server refuses for reasons of its own. */
  datatype Faults = Faults(factory: bool, get: bool, create: bool, patch: bool, delete: bool)

  const NO_FAULTS := Faults(false, false, false, false, false)

  datatype SyncError = FactoryFailed | GetFailed | CreateFailed | UnsupportedAction | PatchFailed | DeleteFailed

  // ----- The operations of a patch -----

  /** `ops` inserts the root exactly when asked, then has one operation per key of the command, in
      some order of the keys. */
  ghost predicate IsPatchFor(c: SyncCommand, insertRoot: bool, ops: seq<Op>) {
    exists keys :: Enumerates(keys, c.secret) && ops == PatchInOrder(c, insertRoot, keys)
  }

  function PatchInOrder(c: SyncCommand, insertRoot: bool, keys: seq<string>): seq<Op>
    requires Enumerates(keys, c.secret)
  {
    if insertRoot then [AddRoot] + KeyOps(c, keys) else KeyOps(c, keys)
  }

  function KeyOps(c: SyncCommand, keys: seq<string>): seq<Op>
    requires Enumerates(keys, c.secret)
  {
    if c.action == DELETE then Removals(keys) else Additions(keys, c.secret)
  }

  /** getOps. The loops go through the command's keys in the arbitrary order of a Go map. */
  method GetOps(c: SyncCommand, insertRoot: bool) returns (r: Result<seq<Op>, SyncError>)
    ensures r.Ok? <==> c.action == SET || c.action == DELETE
    ensures r.Ok? ==> IsPatchFor(c, insertRoot, r.value)
    ensures r.Err? ==> r.error == UnsupportedAction
  {
    var ops: seq<Op> := [];
    if insertRoot {
      ops := ops + [AddRoot];
    }
    if c.action == DELETE {
      ghost var keys;
      ops, keys := AppendRemovals(c, ops);
      assert ops == PatchInOrder(c, insertRoot, keys);
    } else if c.action == SET {
      ghost var keys;
      ops, keys := AppendAdditions(c, ops);
      assert ops == PatchInOrder(c, insertRoot, keys);
    } else {
      return Err(UnsupportedAction);
    }
    return Ok(ops);
  }

  method AppendRemovals(c: SyncCommand, root: seq<Op>) returns (ops: seq<Op>, ghost keys: seq<string>)
    ensures Enumerates(keys, c.secret) && ops == root + Removals(keys)
  {
    ops, keys := root, [];
    var rest := c.secret.Keys;
    while rest != {}
      invariant Remaining(c, keys, rest)
      invariant ops == root + Removals(keys)
      decreases |rest|
    {
      var key :| key in rest;
      rest := rest - {key};
      RemovalsSnoc(keys, key);
      ops := ops + [RemoveKey(key)];
      keys := keys + [key];
    }
  }

  method AppendAdditions(c: SyncCommand, root: seq<Op>) returns (ops: seq<Op>, ghost keys: seq<string>)
    ensures Enumerates(keys, c.secret) && ops == root + Additions(keys, c.secret)
  {
    ops, keys := root, [];
    var rest := c.secret.Keys;
    while rest != {}
      invariant Remaining(c, keys, rest)
      invariant ops == root + Additions(keys, c.secret)
      decreases |rest|
    {
      var key :| key in rest;
      rest := rest - {key};
      AdditionsSnoc(keys, key, c.secret);
      ops := ops + [AddKey(key, Base64(c.secret[key]))];
      keys := keys + [key];
    }
  }

  /** `keys` are the keys already visited, each once. */
  ghost predicate Remaining(c: SyncCommand, keys: seq<string>, rest: set<string>) {
    && (forall i :: 0 <= i < |keys| ==> keys[i] in c.secret && keys[i] !in rest)
    && (forall i, j :: 0 <= i < j < |keys| ==> keys[i] != keys[j])
    && (forall k :: k in c.secret ==> k in keys || k in rest)
    && rest <= c.secret.Keys
  }

  lemma AmongEnumerated(keys: seq<string>, secret: map<string, Bytes>)
    requires Enumerates(keys, secret)
    ensures Among(keys) == secret.Keys
  {
    forall k | k in secret
      ensures k in Among(keys)
    {
      assert k in keys;
    }
  }

  /** The data a patch leaves behind, if the patch applies. */
  function Patched(data: map<string, Bytes>, ops: seq<Op>): Option<map<string, Bytes>> {
    match ApplyPatch(ToDoc(data), ops)
    case None => None
    case Some(d) => Some(Decoded(d))
  }

  /** The root, inserted exactly when the data is empty, gives the operations on keys an object to
      work on. */
  lemma OnObject(c: SyncCommand, data: map<string, Bytes>, keys: seq<string>)
    requires Enumerates(keys, c.secret)
    ensures ApplyPatch(ToDoc(data), PatchInOrder(c, data == map[], keys))
         == ApplyPatch(Some(Encoded(data)), KeyOps(c, keys))
  {
    if data == map[] {
      assert Encoded(data) == map[];
      RootFirst(None, KeyOps(c, keys));
    }
  }

  lemma RootFirst(d: Doc, rest: seq<Op>)
    ensures ApplyPatch(d, [AddRoot] + rest) == ApplyPatch(Some(map[]), rest)
  {
    assert ([AddRoot] + rest)[1..] == rest;
  }

  /** SET, in every order of the keys: the patch applies, and the data is the old data overridden by
      the command's. */
  lemma SetOverrides(c: SyncCommand, data: map<string, Bytes>, ops: seq<Op>)
    requires c.action == SET && IsPatchFor(c, data == map[], ops)
    ensures Patched(data, ops) == Some(data + c.secret)
  {
    var keys :| Enumerates(keys, c.secret) && ops == PatchInOrder(c, data == map[], keys);
    OnObject(c, data, keys);
    AddInOrder(c.secret, Encoded(data), keys);
    DecodedOverlay(data, c.secret);
  }

  lemma AddInOrder(secret: map<string, Bytes>, d: map<string, Base64>, keys: seq<string>)
    requires Enumerates(keys, secret)
    ensures ApplyPatch(Some(d), Additions(keys, secret)) == Some(Some(d + Encoded(secret)))
  {
    AmongEnumerated(keys, secret);
    AddAll(d, keys, secret);
    assert Picked(secret.Keys, secret) == Encoded(secret);
  }

  lemma DecodedOverlay(data: map<string, Bytes>, secret: map<string, Bytes>)
    ensures Decoded(Some(Encoded(data) + Encoded(secret))) == data + secret
  {}

  /** DELETE, in every order of the keys: the patch applies exactly when every named key is there, and
      then removes exactly those. */
  lemma DeleteRemovesExactly(c: SyncCommand, data: map<string, Bytes>, ops: seq<Op>)
    requires c.action == DELETE && IsPatchFor(c, data == map[], ops)
    ensures Patched(data, ops) == if c.secret.Keys <= data.Keys then Some(data - c.secret.Keys) else None
  {
    var keys :| Enumerates(keys, c.secret) && ops == PatchInOrder(c, data == map[], keys);
    OnObject(c, data, keys);
    RemoveInOrder(c.secret, data, keys);
    DecodedRemoval(data, c.secret.Keys);
  }

  lemma RemoveInOrder(secret: map<string, Bytes>, data: map<string, Bytes>, keys: seq<string>)
    requires Enumerates(keys, secret)
    ensures ApplyPatch(Some(Encoded(data)), Removals(keys))
         == if secret.Keys <= data.Keys then Some(Some(Encoded(data) - secret.Keys)) else None
  {
    AmongEnumerated(keys, secret);
    RemoveAll(Encoded(data), keys);
    assert Encoded(data).Keys == data.Keys;
  }

  lemma DecodedRemoval(data: map<string, Bytes>, names: set<string>)
    ensures Decoded(Some(Encoded(data) - names)) == data - names
  {}

  /** Leaving the root out of an empty secret makes every patch that names a key fail. */
  lemma RootNeededWhenEmpty(c: SyncCommand, ops: seq<Op>)
    requires (c.action == SET || c.action == DELETE) && c.secret != map[] && IsPatchFor(c, false, ops)
    ensures Patched(map[], ops).None?
  {
    var keys :| Enumerates(keys, c.secret) && ops == PatchInOrder(c, false, keys);
    NeedsParent(c, keys);
  }

  lemma NeedsParent(c: SyncCommand, keys: seq<string>)
    requires Enumerates(keys, c.secret) && c.secret != map[]
    ensures ApplyPatch(None, KeyOps(c, keys)).None?
  {
    var k :| k in c.secret;
    assert k in keys;
    var ops := KeyOps(c, keys);
    assert |ops| == |keys| && !ops[0].AddRoot?;
    NoParent(ops[0], ops[1..]);
    assert [ops[0]] + ops[1..] == ops;
  }

  /** Putting it into any secret makes SET lose every key the command does not name. */
  lemma RootHarmfulOtherwise(c: SyncCommand, data: map<string, Bytes>, ops: seq<Op>)
    requires c.action == SET && IsPatchFor(c, true, ops)
    ensures Patched(data, ops) == Some(c.secret)
  {
    var keys :| Enumerates(keys, c.secret) && ops == PatchInOrder(c, true, keys);
    RootFirst(ToDoc(data), KeyOps(c, keys));
    AddInOrder(c.secret, map[], keys);
    OverlayOnNothing(c.secret);
  }

  lemma OverlayOnNothing(secret: map<string, Bytes>)
    ensures Decoded(Some(map[] + Encoded(secret))) == secret
  {}

  // ----- The command against the cluster -----

  /** The data the command asks for, or an error if it cannot be had. */
  function Wanted(c: SyncCommand, data: map<string, Bytes>): Result<map<string, Bytes>, SyncError> {
    if c.action == SET then Ok(data + c.secret)
    else if c.action != DELETE then Err(UnsupportedAction)
    else if c.secret.Keys <= data.Keys then Ok(data - c.secret.Keys)
    else Err(PatchFailed)
  }

  /** What a command makes of the cluster, without mention of patches: a missing secret is created by
      SET and ignored otherwise; an existing one gets the wanted data, and disappears with its last
      key. An error leaves the cluster as it was, except that a failed clean-up leaves the emptied
      secret behind. */
  function Synced(c: SyncCommand, s: Store, f: Faults): (Store, Result<(), SyncError>) {
    var at := (c.namespace, c.name);
    if f.factory then (s, Err(FactoryFailed))
    else if f.get then (s, Err(GetFailed))
    else if at !in s then
      if c.action != SET then (s, Ok(()))
      else if f.create then (s, Err(CreateFailed))
      else (s[at := Secret(c.secret, OPAQUE_TYPE)], Ok(()))
    else Settled(s, at, Wanted(c, s[at].data), f)
  }

  /** What becomes of an existing secret, given the data it should have. */
  function Settled(s: Store, at: (string, string), wanted: Result<map<string, Bytes>, SyncError>, f: Faults)
    : (Store, Result<(), SyncError>)
    requires at in s
  {
    match wanted
    case Err(e) => (s, Err(e))
    case Ok(data) =>
      if f.patch then (s, Err(PatchFailed))
      else if data != map[] then (s[at := s[at].(data := data)], Ok(()))
      else if f.delete then (s[at := s[at].(data := map[])], Err(DeleteFailed))
      else (s - {at}, Ok(()))
  }

  /** The cluster's secrets behind the API server. */
  class Cluster {
    var secrets: Store

    constructor (secrets: Store)
      ensures this.secrets == secrets
    {
      this.secrets := secrets;
    }

    method Get(at: (string, string), fault: bool) returns (r: Option<Secret>, failed: bool)
      ensures failed == fault
      ensures !failed ==> r == if at in secrets then Some(secrets[at]) else None
    {
      r, failed := None, fault;
      if !fault && at in secrets {
        r := Some(secrets[at]);
      }
    }

    method Create(at: (string, string), secret: Secret, fault: bool) returns (failed: bool)
      modifies this
      ensures failed <==> fault || at in old(secrets)
      ensures secrets == if failed then old(secrets) else old(secrets)[at := secret]
    {
      if fault || at in secrets {
        return true;
      }
      secrets := secrets[at := secret];
      return false;
    }

    /** Applies the patch as a whole or not at all, and returns the secret's new data. */
    method Patch(at: (string, string), ops: seq<Op>, fault: bool) returns (r: Option<map<string, Bytes>>)
      modifies this
      ensures r == if fault || at !in old(secrets) then None else Patched(old(secrets)[at].data, ops)
      ensures secrets == if r.None? then old(secrets) else old(secrets)[at := old(secrets)[at].(data := r.value)]
    {
      if fault || at !in secrets {
        return None;
      }
      r := Patched(secrets[at].data, ops);
      if r.Some? {
        secrets := secrets[at := secrets[at].(data := r.value)];
      }
    }

    method Delete(at: (string, string), fault: bool) returns (failed: bool)
      modifies this
      ensures failed <==> fault || at !in old(secrets)
      ensures secrets == if failed then old(secrets) else old(secrets) - {at}
    {
      if fault || at !in secrets {
        return true;
      }
      secrets := secrets - {at};
      return false;
    }

    /** syncSecret. */
    method SyncSecret(c: SyncCommand, f: Faults) returns (r: Result<(), SyncError>)
      requires !f.factory
      modifies this
      ensures (secrets, r) == Synced(c, old(secrets), f)
    {
      var at := (c.namespace, c.name);
      var found, getFailed := Get(at, f.get);
      if getFailed {
        return Err(GetFailed);
      }
      if found.None? {
        if c.action == SET {
          var createFailed := Create(at, Secret(c.secret, OPAQUE_TYPE), f.create);
          if createFailed {
            return Err(CreateFailed);
          }
        }
        return Ok(());
      }
      var ops := GetOps(c, |found.value.data| == 0);
      if ops.Err? {
        return Err(UnsupportedAction);
      }
      r := PatchAndCleanUp(c, ops.value, f);
    }

    /** The second half: the patch, and the removal of a secret without keys. */
    method PatchAndCleanUp(c: SyncCommand, ops: seq<Op>, f: Faults) returns (r: Result<(), SyncError>)
      requires (c.namespace, c.name) in secrets && (c.action == SET || c.action == DELETE)
      requires IsPatchFor(c, |secrets[(c.namespace, c.name)].data| == 0, ops)
      modifies this
      ensures var at := (c.namespace, c.name);
              (secrets, r) == Settled(old(secrets), at, Wanted(c, old(secrets)[at].data), f)
    {
      var at := (c.namespace, c.name);
      PatchIsWanted(c, secrets[at].data, ops);
      var data := Patch(at, ops, f.patch);
      if data.None? {
        return Err(PatchFailed);
      }
      if |data.value| == 0 {
        assert data.value == map[];
        var deleteFailed := Delete(at, f.delete);
        if deleteFailed {
          return Err(DeleteFailed);
        }
        assert secrets == old(secrets) - {at};
      }
      return Ok(());
    }

    /** RunWithClientFactory. */
    method Run(c: SyncCommand, f: Faults) returns (r: Result<(), SyncError>)
      modifies this
      ensures (secrets, r) == Synced(c, old(secrets), f)
    {
      if f.factory {
        return Err(FactoryFailed);
      }
      r := SyncSecret(c, f);
    }
  }

  lemma PatchIsWanted(c: SyncCommand, data: map<string, Bytes>, ops: seq<Op>)
    requires c.action == SET || c.action == DELETE
    requires IsPatchFor(c, |data| == 0, ops)
    ensures Patched(data, ops) == match Wanted(c, data) case Ok(d) => Some(d) case Err(_) => None
    ensures Wanted(c, data).Err? ==> Wanted(c, data).error == PatchFailed
  {
    assert |data| == 0 <==> data == map[];
    if c.action == SET {
      SetOverrides(c, data, ops);
    } else {
      DeleteRemovesExactly(c, data, ops);
    }
  }

  // ----- Laws of commands -----

  function After(c: SyncCommand, s: Store): Store {
    Synced(c, s, NO_FAULTS).0
  }

  function Location(c: SyncCommand): (string, string) {
    (c.namespace, c.name)
  }

  /** Whatever happens, no other secret is touched, and a command that fails for a reason other than
      a failed clean-up leaves the whole cluster as it was. */
  lemma OthersUntouched(c: SyncCommand, s: Store, f: Faults)
    ensures Synced(c, s, f).0 - {Location(c)} == s - {Location(c)}
    ensures Synced(c, s, f).1.Err? && Synced(c, s, f).1.error != DeleteFailed ==> Synced(c, s, f).0 == s
  {}

  /** Without faults, a command fails exactly if it is a DELETE and the secret, which exists, lacks
      one of the named keys. */
  lemma FailsExactly(c: SyncCommand, s: Store)
    requires c.action == SET || c.action == DELETE
    ensures Synced(c, s, NO_FAULTS).1.Err?
       <==> c.action == DELETE && Location(c) in s && !(c.secret.Keys <= s[Location(c)].data.Keys)
  {}

  lemma EmptyLeft(data: map<string, Bytes>, names: set<string>)
    ensures data - names == map[] <==> data.Keys <= names
  {
    assert (data - names).Keys == data.Keys - names;
    if data - names == map[] {
      forall k | k in data
        ensures k in names
      {
        assert k !in data - names;
      }
    } else {
      var k :| k in data - names;
    }
  }

  lemma EmptyMerged(data: map<string, Bytes>, secret: map<string, Bytes>)
    ensures data + secret == map[] <==> data.Keys == {} && secret.Keys == {}
  {
    assert (data + secret).Keys == data.Keys + secret.Keys;
    if data + secret == map[] {
      assert data.Keys + secret.Keys == {};
    }
  }

  /** Whatever is refused: when a command works at all. A refused call that the command needs is an error. */
  lemma SucceedsExactly(c: SyncCommand, s: Store, f: Faults)
    ensures var at := Location(c);
            Synced(c, s, f).1.Ok? <==>
            && !f.factory && !f.get
            && (at !in s ==> !(c.action == SET && f.create))
            && (at in s ==>
                  && c.action in {SET, DELETE} && !f.patch
                  && (c.action == DELETE ==> c.secret.Keys <= s[at].data.Keys)
                  && (f.delete ==> !(c.action == DELETE && c.secret.Keys == s[at].data.Keys))
                  && (f.delete ==> !(c.action == SET && c.secret.Keys == {} && s[at].data.Keys == {})))
  {
    var at := Location(c);
    if at in s {
      var data := s[at].data;
      EmptyLeft(data, c.secret.Keys);
      EmptyMerged(data, c.secret);
      assert SET[0] == 'S' && DELETE[0] == 'D';
    }
  }

  /** A SET, key by key: it creates a missing secret as an opaque one with the command's data; in an
      existing one the named keys get the command's values, the others keep theirs, and nothing else
      changes. */
  lemma SetGives(c: SyncCommand, s: Store, k: string)
    requires c.action == SET
    ensures var at := Location(c);
            && (at !in s ==> After(c, s) == s[at := Secret(c.secret, "Opaque")])
            && (at in s && (s[at].data != map[] || c.secret != map[]) ==>
                  && at in After(c, s) && After(c, s)[at].kind == s[at].kind
                  && (k in After(c, s)[at].data <==> k in c.secret || k in s[at].data)
                  && (k in c.secret ==> After(c, s)[at].data[k] == c.secret[k])
                  && (k in s[at].data && k !in c.secret ==> After(c, s)[at].data[k] == s[at].data[k]))
  {
    var at := Location(c);
    if at in s {
      var merged := s[at].data + c.secret;
      assert merged.Keys == s[at].data.Keys + c.secret.Keys;
      if x :| x in s[at].data {
        assert x in merged;
      }
      if x :| x in c.secret {
        assert x in merged;
      }
    }
  }

  /** A DELETE that works leaves the other keys, and removes the secret exactly when there are none. */
  lemma DeleteLeavesTheRest(c: SyncCommand, s: Store)
    requires c.action == DELETE && Location(c) in s && c.secret.Keys <= s[Location(c)].data.Keys
    ensures Location(c) !in After(c, s) <==> s[Location(c)].data.Keys == c.secret.Keys
    ensures Location(c) in After(c, s) ==>
              && After(c, s)[Location(c)].data.Keys == s[Location(c)].data.Keys - c.secret.Keys
              && After(c, s)[Location(c)].kind == s[Location(c)].kind
              && forall k :: k in After(c, s)[Location(c)].data ==>
                   After(c, s)[Location(c)].data[k] == s[Location(c)].data[k]
  {
    var data := s[Location(c)].data;
    var left := data - c.secret.Keys;
    assert left.Keys == data.Keys - c.secret.Keys;
    assert Wanted(c, data) == Ok(left);
    if data.Keys == c.secret.Keys {
      assert left == map[];
    } else {
      var k :| k in data && k !in c.secret;
      assert k in left;
    }
  }

  /** SET then DELETE of the same keys gives the cluster back exactly when the secret was absent, or
      had data and none of those keys. */
  lemma SetThenDelete(set_: SyncCommand, s: Store)
    requires set_.action == SET
    ensures var at := Location(set_);
            After(set_.(action := DELETE), After(set_, s)) == s <==>
            (at !in s || (s[at].data != map[] && s[at].data.Keys !! set_.secret.Keys))
  {
    var at := Location(set_);
    var del := set_.(action := DELETE);
    var s1 := After(set_, s);
    if at !in s {
      assert s1[at].data - set_.secret.Keys == map[];
      assert After(del, s1) == s1 - {at} == s;
    } else {
      var data := s[at].data;
      var merged := data + set_.secret;
      assert merged.Keys == data.Keys + set_.secret.Keys;
      if merged == map[] {
        assert data.Keys == {} by { assert data.Keys <= merged.Keys; }
        assert at !in s1;
        assert After(del, s1) != s;
      } else {
        assert s1 == s[at := s[at].(data := merged)];
        var left := merged - set_.secret.Keys;
        assert left.Keys == data.Keys - set_.secret.Keys;
        if data != map[] && data.Keys !! set_.secret.Keys {
          assert left == data;
          assert After(del, s1) == s[at := s[at].(data := left)] == s;
        } else if left == map[] {
          assert at !in After(del, s1);
        } else {
          assert left.Keys != data.Keys;
          assert After(del, s1)[at].data == left;
        }
      }
    }
  }

  /** SET is idempotent exactly when the command names a key or the secret already has data: an empty
      SET creates an empty secret, and deletes one. */
  lemma SetIdempotent(c: SyncCommand, s: Store)
    requires c.action == SET
    ensures After(c, After(c, s)) == After(c, s)
       <==> c.secret != map[] || (Location(c) in s && s[Location(c)].data != map[])
  {
    var at := Location(c);
    var s1 := After(c, s);
    if at !in s {
      assert c.secret + c.secret == c.secret;
      if c.secret != map[] {
        assert s1[at := s1[at].(data := c.secret)] == s1;
      }
    } else {
      var merged := s[at].data + c.secret;
      assert merged.Keys == s[at].data.Keys + c.secret.Keys;
      assert merged + c.secret == merged;
      if merged != map[] {
        assert s1[at].data == merged;
        assert s1[at := s1[at].(data := merged)] == s1;
      } else {
        assert c.secret == map[] by { assert c.secret.Keys <= merged.Keys; }
        assert s[at].data == map[] by { assert s[at].data.Keys <= merged.Keys; }
        assert at !in s1;
      }
    }
  }
}
