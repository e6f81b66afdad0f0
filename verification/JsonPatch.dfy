/** The part of JSON Patch (RFC 6902) the secret directive uses, applied to the JSON document of a
    Kubernetes secret. */
module JsonPatch {
  import opened Prelude

  /** A base64 string; the encoding is only assumed to be injective. */
  datatype Base64 = Base64(decoded: Bytes)

  /** The `data` member of the document, absent or an object. */
  type Doc = Option<map<string, Base64>>

  datatype Op =
    | AddRoot                             // add at /data the empty object
    | AddKey(key: string, value: Base64)  // add at /data/key
    | RemoveKey(key: string)              // remove at /data/key

  /** One operation: section 4.1 lets `add` create or replace a member of an existing object, and
      section 4.2 lets `remove` delete a member that exists. */
  function ApplyOp(d: Doc, op: Op): Option<Doc> {
    match op
    case AddRoot => Some(Some(map[]))
    case AddKey(k, v) => if d.Some? then Some(Some(d.value[k := v])) else None
    case RemoveKey(k) => if d.Some? && k in d.value then Some(Some(d.value - {k})) else None
  }

  /** Operations apply in order, and section 5 makes the patch fail as a whole if one of them does. */
  function ApplyPatch(d: Doc, ops: seq<Op>): Option<Doc>
    decreases |ops|
  {
    if ops == [] then Some(d)
    else
      match ApplyOp(d, ops[0])
      case None => None
      case Some(d1) => ApplyPatch(d1, ops[1..])
  }

  // ----- What a list of additions or removals does, in any order -----

  function Encoded(data: map<string, Bytes>): map<string, Base64> {
    map k | k in data :: Base64(data[k])
  }

  function Decoded(d: Doc): map<string, Bytes> {
    match d
    case None => map[]
    case Some(m) => map k | k in m :: m[k].decoded
  }

  /** The API server leaves `data` out of the document when it is empty. */
  function ToDoc(data: map<string, Bytes>): Doc {
    if data == map[] then None else Some(Encoded(data))
  }

  /** `keys` lists the keys of the map, each once, in some order. */
  predicate Enumerates(keys: seq<string>, secret: map<string, Bytes>) {
    && (forall i :: 0 <= i < |keys| ==> keys[i] in secret)
    && (forall i, j :: 0 <= i < j < |keys| ==> keys[i] != keys[j])
    && (forall k :: k in secret ==> k in keys)
  }

  function Additions(keys: seq<string>, secret: map<string, Bytes>): seq<Op>
    requires forall i :: 0 <= i < |keys| ==> keys[i] in secret
  {
    seq(|keys|, i requires 0 <= i < |keys| => AddKey(keys[i], Base64(secret[keys[i]])))
  }

  function Removals(keys: seq<string>): seq<Op> {
    seq(|keys|, i requires 0 <= i < |keys| => RemoveKey(keys[i]))
  }

  function Among(keys: seq<string>): set<string> {
    set i | 0 <= i < |keys| :: keys[i]
  }

  lemma AmongTail(keys: seq<string>)
    requires keys != []
    ensures Among(keys) == {keys[0]} + Among(keys[1..])
  {
    forall k | k in Among(keys)
      ensures k in {keys[0]} + Among(keys[1..])
    {
      var i :| 0 <= i < |keys| && keys[i] == k;
      if i > 0 {
        assert keys[1..][i - 1] == k;
      }
    }
    forall k | k in Among(keys[1..])
      ensures k in Among(keys)
    {
      var i :| 0 <= i < |keys| - 1 && keys[1..][i] == k;
      assert keys[i + 1] == k;
    }
    assert keys[0] in Among(keys);
  }

  lemma AdditionsSnoc(keys: seq<string>, key: string, secret: map<string, Bytes>)
    requires key in secret && forall i :: 0 <= i < |keys| ==> keys[i] in secret
    ensures Additions(keys + [key], secret) == Additions(keys, secret) + [AddKey(key, Base64(secret[key]))]
  {}

  lemma RemovalsSnoc(keys: seq<string>, key: string)
    ensures Removals(keys + [key]) == Removals(keys) + [RemoveKey(key)]
  {}

  /** The named entries of the map, encoded. */
  function Picked(names: set<string>, secret: map<string, Bytes>): map<string, Base64> {
    map k | k in names && k in secret :: Base64(secret[k])
  }

  /** Adding to an existing object never fails, and leaves the object overridden by the additions. */
  lemma {:induction false} AddAll(d: map<string, Base64>, keys: seq<string>, secret: map<string, Bytes>)
    requires forall i :: 0 <= i < |keys| ==> keys[i] in secret
    requires forall i, j :: 0 <= i < j < |keys| ==> keys[i] != keys[j]
    ensures ApplyPatch(Some(d), Additions(keys, secret)) == Some(Some(d + Picked(Among(keys), secret)))
    decreases |keys|
  {
    if keys == [] {
      assert Among(keys) == {};
      assert Picked({}, secret) == map[];
      assert d + map[] == d;
    } else {
      var ops := Additions(keys, secret);
      assert ops[1..] == Additions(keys[1..], secret);
      assert ops[0] == AddKey(keys[0], Base64(secret[keys[0]]));
      var d1 := d[keys[0] := Base64(secret[keys[0]])];
      AddAll(d1, keys[1..], secret);
      PickedStep(d, keys, secret);
    }
  }

  lemma PickedStep(d: map<string, Base64>, keys: seq<string>, secret: map<string, Bytes>)
    requires keys != [] && keys[0] in secret
    ensures d[keys[0] := Base64(secret[keys[0]])] + Picked(Among(keys[1..]), secret)
         == d + Picked(Among(keys), secret)
  {
    AmongTail(keys);
  }

  /** Removing works exactly when every key is there, and then removes exactly those keys. */
  lemma {:induction false} RemoveAll(d: map<string, Base64>, keys: seq<string>)
    requires forall i, j :: 0 <= i < j < |keys| ==> keys[i] != keys[j]
    ensures ApplyPatch(Some(d), Removals(keys))
         == if Among(keys) <= d.Keys then Some(Some(d - Among(keys))) else None
    decreases |keys|
  {
    if keys == [] {
      assert Among(keys) == {};
      assert d - {} == d;
    } else {
      var ops := Removals(keys);
      AmongTail(keys);
      assert ops[1..] == Removals(keys[1..]);
      assert keys[0] !in Among(keys[1..]);
      if keys[0] in d {
        var d1 := d - {keys[0]};
        RemoveAll(d1, keys[1..]);
        assert Among(keys) <= d.Keys <==> Among(keys[1..]) <= d1.Keys;
        assert d1 - Among(keys[1..]) == d - Among(keys);
      } else {
        assert keys[0] in Among(keys);
      }
    }
  }

  /** With no object to work on, the first addition or removal fails. */
  lemma NoParent(op: Op, rest: seq<Op>)
    requires !op.AddRoot?
    ensures ApplyPatch(None, [op] + rest).None?
  {
    assert ([op] + rest)[0] == op;
  }
}
