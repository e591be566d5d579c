/**
  The secure mirror of one record type for one user: the memoised map of child
  bindings, the snapshots built from it, and the write gates that guard the
  remote store. The remote store is an input: `remote` holds the current value
  of every record of the type as the child bindings see it.
 */
module SecureMirror {
  import opened Values
  import opened Permission

  /** A live binding to the record `<typeName>/<key>`; it names its type, never its mirror. */
  datatype ChildRef = ChildRef(typeName: string, key: string)

  /**
    The mirror's state. `rootBound` is set when the user has root access and the mirror
    forwards to the remote store; `children` and `order` are the child bindings and their
    keys in insertion order; `loading` and `pending` belong to the bulk load; `initted`
    records that initialisation has run.
   */
  datatype Mirror = Mirror(
    policy: TypePolicy,
    user: Option<User>,
    login: Login,
    rootBound: bool,
    children: map<string, ChildRef>,
    order: seq<string>,
    loading: bool,
    pending: set<string>,
    initted: bool)

  ghost predicate Distinct(s: seq<string>) {
    forall i, j :: 0 <= i < j < |s| ==> s[i] != s[j]
  }

  /** The state's shape: bindings point at their own key, keys listed once each, no wait outside a load. */
  ghost predicate Wf(m: Mirror) {
    && (forall k :: k in m.children ==> m.children[k] == ChildRef(m.policy.name, k))
    && Distinct(m.order)
    && (forall k :: k in m.order <==> k in m.children)
    && (m.pending != {} ==> m.loading)
  }

  /** `permit` evaluated with the mirror's type, user and sign-in state. */
  predicate Allows(m: Mirror, key: Key, value: Option<Value>) {
    Permit(m.policy, m.user, m.login, key, value)
  }

  /** Every tracked child is one the user may see. */
  ghost predicate Gated(m: Mirror) {
    forall k :: k in m.children ==> Allows(m, Name(k), None)
  }

  /** A fresh mirror: no children, no handlers, not loading. */
  function Fresh(policy: TypePolicy, user: Option<User>, login: Login): (m: Mirror)
    ensures Wf(m) && Gated(m)
    ensures m.children == map[] && !m.loading && !m.rootBound && !m.initted
  {
    Mirror(policy, user, login, false, map[], [], false, {}, false)
  }

  /** Adds the binding for `key` unless it is already there. */
  function Materialise(m: Mirror, key: string): (r: Mirror)
    requires Wf(m)
    ensures Wf(r)
    ensures r.children.Keys == m.children.Keys + {key}
    ensures key in m.children ==> r == m
    ensures key !in m.children ==> r.order == m.order + [key]
    ensures r == m.(children := r.children, order := r.order)
  {
    if key in m.children then m
    else m.(children := m.children[key := ChildRef(m.policy.name, key)], order := m.order + [key])
  }

  /**
    `child(key)`: no binding when the key is not permitted; otherwise the binding, created
    on the first request and the same one afterwards.
   */
  function Child(m: Mirror, key: string): (r: (Mirror, Option<ChildRef>))
    requires Wf(m)
    ensures Wf(r.0)
    ensures r.1.Some? <==> Allows(m, Name(key), None)
    ensures r.1.Some? ==> r.1.value == ChildRef(m.policy.name, key) && key in r.0.children
    ensures r.1.None? ==> r.0 == m
    ensures key in m.children ==> r.0 == m
    ensures r.0.children.Keys == m.children.Keys + (if r.1.Some? then {key} else {})
    ensures r.0 == m.(children := r.0.children, order := r.0.order)
    ensures Gated(m) ==> Gated(r.0)
  {
    if Allows(m, Name(key), None) then
      var m' := Materialise(m, key);
      (m', Some(m'.children[key]))
    else (m, None)
  }

  /** `childKeys`: every tracked key exactly once, listed in the order the bindings were made (see README, "Left out"). */
  function ChildKeys(m: Mirror): (keys: seq<string>)
    requires Wf(m)
    ensures Distinct(keys)
    ensures forall k :: k in keys <==> k in m.children
    ensures |keys| == |m.children|
  {
    DistinctCard(m.order, m.children.Keys);
    m.order
  }

  lemma {:induction false} DistinctCard(s: seq<string>, keys: set<string>)
    requires Distinct(s)
    requires forall k :: k in s <==> k in keys
    ensures |s| == |keys|
    decreases |s|
  {
    if |s| > 0 {
      var rest := s[1..];
      assert forall k :: k in rest <==> k in keys - {s[0]} by {
        forall k ensures k in rest <==> k in keys - {s[0]} {
          if k in rest {
            var j :| 0 <= j < |rest| && rest[j] == k;
            assert s[j + 1] == k;
          }
          if k in keys - {s[0]} {
            var j :| 0 <= j < |s| && s[j] == k;
            assert j != 0;
            assert rest[j - 1] == k;
          }
        }
      }
      DistinctCard(rest, keys - {s[0]});
    }
  }

  /** Drops `key` from a list of keys, keeping the others in order. */
  function Without(s: seq<string>, key: string): (r: seq<string>)
    ensures forall k :: k in r <==> k in s && k != key
    ensures Distinct(s) ==> Distinct(r)
    ensures |r| <= |s|
  {
    if |s| == 0 then []
    else if s[0] == key then Without(s[1..], key)
    else
      var rest := Without(s[1..], key);
      assert forall k :: k in s[1..] ==> k in s;
      assert Distinct(s) ==> s[0] !in s[1..];
      [s[0]] + rest
  }

  /** Deletes the binding for `key` (the local part of `child_removed`). */
  function Forget(m: Mirror, key: string): (r: Mirror)
    requires Wf(m)
    ensures Wf(r)
    ensures r.children.Keys == m.children.Keys - {key}
    ensures r == m.(children := r.children, order := r.order)
    ensures Gated(m) ==> Gated(r)
  {
    m.(children := map k | k in m.children && k != key :: m.children[k], order := Without(m.order, key))
  }

  // ---------------------------------------------------------------------------
  // Snapshots

  /** A snapshot: a name (the type's, or one child's key) and a value. */
  datatype Snap = Snap(name: string, value: Value)

  /**
    The object handed to event handlers: the snapshot (none when the child was refused)
    and the previous sibling's key when one is reported (`Undefined` when not).
   */
  datatype SnapshotResult = SnapshotResult(snapshot: Option<Snap>, prevChild: Key)

  /** A node without descendants: an empty object or array. */
  predicate EmptyNode(v: Value) {
    (v.Obj? && |v.fields| == 0) || (v.Arr? && |v.items| == 0)
  }

  /** The decimal digit `d`. */
  function Digit(d: nat): char
    requires d < 10
  {
    ('0' as int + d) as char
  }

  /** The decimal name of an array position, the key a binding's index lists for it. */
  function IndexKey(i: nat): (k: string)
    ensures |k| > 0
    ensures i >= 10 ==> |k| >= 2
    ensures k[|k| - 1] == Digit(i % 10)
    decreases i
  {
    if i < 10 then [Digit(i)] else IndexKey(i / 10) + [Digit(i % 10)]
  }

  /** Different positions have different names. */
  lemma {:induction false} IndexKeyInjective(i: nat, j: nat)
    ensures IndexKey(i) == IndexKey(j) ==> i == j
    decreases i
  {
    if IndexKey(i) == IndexKey(j) && i >= 10 && j >= 10 {
      var ki, kj := IndexKey(i), IndexKey(j);
      assert ki[..|ki| - 1] == IndexKey(i / 10);
      assert kj[..|kj| - 1] == IndexKey(j / 10);
      IndexKeyInjective(i / 10, j / 10);
    }
  }

  /** An array's items as the object keyed by their positions' names. */
  function ArrayAsObject(items: seq<Value>): (fields: map<string, Value>)
    ensures forall i :: 0 <= i < |items| ==> IndexKey(i) in fields && fields[IndexKey(i)] == items[i]
    ensures forall k :: k in fields ==> exists i :: 0 <= i < |items| && k == IndexKey(i)
    decreases |items|
  {
    if |items| == 0 then map[]
    else
      var n := |items| - 1;
      var init := ArrayAsObject(items[..n]);
      var fields := init[IndexKey(n) := items[n]];
      forall i | 0 <= i < |items| ensures IndexKey(i) in fields && fields[IndexKey(i)] == items[i] {
        if i < n {
          IndexKeyInjective(i, n);
          assert items[..n][i] == items[i];
        }
      }
      fields
  }

  /**
    `snapshotValue`: a record with descendants yields a new object holding them under the
    keys of the binding's index, so an array comes back keyed by its positions' names; a
    literal yields itself, and a missing or empty record yields null.
   */
  function SnapshotValue(remote: map<string, Value>, key: string): (v: Value)
    ensures v == Null <==> key !in remote || remote[key] == Null || EmptyNode(remote[key])
    ensures v != Null && !remote[key].Arr? ==> v == remote[key]
    ensures v != Null && remote[key].Arr? ==>
              && v.Obj?
              && (forall i :: 0 <= i < |remote[key].items| ==> IndexKey(i) in v.fields && v.fields[IndexKey(i)] == remote[key].items[i])
              && (forall k :: k in v.fields ==> exists i :: 0 <= i < |remote[key].items| && k == IndexKey(i))
  {
    if key !in remote || EmptyNode(remote[key]) then Null
    else if remote[key].Arr? then Obj(ArrayAsObject(remote[key].items))
    else remote[key]
  }

  /** A record held as the array `["a", "b"]` is snapshotted as the object `{"0": "a", "1": "b"}`. */
  lemma ArraySnapshotIsObject(remote: map<string, Value>, key: string)
    requires key in remote && remote[key] == Arr([Str("a"), Str("b")])
    ensures SnapshotValue(remote, key) == Obj(map["0" := Str("a"), "1" := Str("b")])
  {
    assert IndexKey(0) == "0";
    assert IndexKey(1) == "1";
    var items := [Str("a"), Str("b")];
    assert items[..1] == [Str("a")];
    assert ArrayAsObject(items[..1][..0]) == map[];
    assert ArrayAsObject(items) == map["0" := Str("a"), "1" := Str("b")];
  }

  /** `snapshot()` without a key: every tracked child with its current value, not re-gated. */
  function WholeSnapshot(m: Mirror, remote: map<string, Value>): (s: Snap)
    ensures s.name == m.policy.name && s.value.Obj?
    ensures s.value.fields.Keys == m.children.Keys
    ensures forall k :: k in s.value.fields ==> s.value.fields[k] == SnapshotValue(remote, k)
  {
    Snap(m.policy.name, Obj(map k | k in m.children :: SnapshotValue(remote, k)))
  }

  /**
    `snapshot(key, prevChild)`: re-gated at snapshot time. A refused key yields no snapshot
    and no change; a permitted key is materialised if needed and yields its value, with the
    previous sibling reported when it was given and is null or itself permitted.
   */
  function ChildSnapshot(m: Mirror, remote: map<string, Value>, key: string, prev: Key): (r: (Mirror, SnapshotResult))
    requires Wf(m)
    ensures Wf(r.0)
    ensures !Allows(m, Name(key), None) ==> r == (m, SnapshotResult(None, Undefined))
    ensures Allows(m, Name(key), None) ==>
              && r.1.snapshot == Some(Snap(key, SnapshotValue(remote, key)))
              && r.0 == Materialise(m, key)
    ensures r.1.prevChild != Undefined ==> r.1.prevChild == prev && (prev.NullKey? || Allows(m, prev, None))
    ensures Allows(m, Name(key), None) && (prev.NullKey? || (prev.Name? && Allows(m, prev, None))) ==> r.1.prevChild == prev
    ensures Gated(m) ==> Gated(r.0)
  {
    if Allows(m, Name(key), None) then
      var (m', c) := Child(m, key);
      var reported := if !prev.Undefined? && (prev.NullKey? || Allows(m', prev, None)) then prev else Undefined;
      (m', SnapshotResult(Some(Snap(key, SnapshotValue(remote, key))), reported))
    else (m, SnapshotResult(None, Undefined))
  }

  // ---------------------------------------------------------------------------
  // Write gates

  /** The remote write a gate issues. */
  datatype Write = NoWrite | Push(value: Value) | RemoveRecord(key: string) | SaveRecord(key: string)

  /** A gate's settled promise. */
  datatype GateResult = Created(typeName: string, id: string) | Done | Failed(reason: Value)

  /**
    `addChild` as written: a value the user may write is pushed, and once the push's callback
    runs the new key is bound (if permitted) and the promise resolves as created, whatever the
    callback reports. `pushError` is the error the store hands that callback.
   */
  function AddChildAsWritten(m: Mirror, value: Value, newId: string, pushError: Option<Value>): (r: (Mirror, Write, GateResult))
    requires Wf(m)
    ensures Wf(r.0)
    ensures Allows(m, NullKey, Some(value)) ==> r.1 == Push(value) && r.2 == Created(m.policy.name, newId)
    ensures Allows(m, NullKey, Some(value)) ==> r.0 == (if Allows(m, Name(newId), None) then Materialise(m, newId) else m)
    ensures !Allows(m, NullKey, Some(value)) ==> r == (m, NoWrite, Failed(Str("No permission to add child")))
    ensures Gated(m) ==> Gated(r.0)
  {
    if Allows(m, NullKey, Some(value)) then
      (Child(m, newId).0, Push(value), Created(m.policy.name, newId))
    else (m, NoWrite, Failed(Str("No permission to add child")))
  }

  /**
    `addChild`: a refused value is rejected without a write; a permitted one is pushed, and
    the promise resolves as created (binding the new key when it is itself permitted) only
    when the push succeeded, and rejects with the store's error otherwise.
   */
  function AddChild(m: Mirror, value: Value, newId: string, pushError: Option<Value>): (r: (Mirror, Write, GateResult))
    requires Wf(m)
    ensures Wf(r.0)
    ensures r.1 == (if Allows(m, NullKey, Some(value)) then Push(value) else NoWrite)
    ensures r.2.Created? <==> Allows(m, NullKey, Some(value)) && pushError.None?
    ensures r.2.Created? ==> r.2 == Created(m.policy.name, newId)
    ensures r.2.Created? ==> (newId in r.0.children <==> newId in m.children || Allows(m, Name(newId), None))
    ensures r.2.Created? ==> r.0 == (if Allows(m, Name(newId), None) then Materialise(m, newId) else m)
    ensures !r.2.Created? ==> r.0 == m
    ensures !Allows(m, NullKey, Some(value)) ==> r.2 == Failed(Str("No permission to add child"))
    ensures Allows(m, NullKey, Some(value)) && pushError.Some? ==> r.2 == Failed(pushError.value)
    ensures Gated(m) ==> Gated(r.0)
  {
    if !Allows(m, NullKey, Some(value)) then (m, NoWrite, Failed(Str("No permission to add child")))
    else if pushError.Some? then (m, Push(value), Failed(pushError.value))
    else (Child(m, newId).0, Push(value), Created(m.policy.name, newId))
  }

  /** The as-written gate reports a failed push as a created record. */
  lemma AddChildIgnoresPushError(m: Mirror, value: Value, newId: string, err: Value)
    requires Wf(m) && Allows(m, NullKey, Some(value))
    ensures AddChildAsWritten(m, value, newId, Some(err)).2 == Created(m.policy.name, newId)
    ensures AddChild(m, value, newId, Some(err)).2 == Failed(err)
  {
  }

  /**
    `removeChild` / `saveChild`: the key must be permitted (its binding is made if needed);
    then the write is issued and the promise follows its outcome. A refused key is rejected
    with "Child not found" and nothing is written.
   */
  function RemoveChild(m: Mirror, key: string, writeError: Option<Value>): (r: (Mirror, Write, GateResult))
    requires Wf(m)
    ensures Wf(r.0)
    ensures Allows(m, Name(key), None) ==>
              && r.0 == Materialise(m, key) && r.1 == RemoveRecord(key)
              && r.2 == (if writeError.None? then Done else Failed(writeError.value))
    ensures !Allows(m, Name(key), None) ==> r == (m, NoWrite, Failed(Str("Child not found")))
    ensures Gated(m) ==> Gated(r.0)
  {
    var (m', c) := Child(m, key);
    if c.Some? then (m', RemoveRecord(key), if writeError.None? then Done else Failed(writeError.value))
    else (m', NoWrite, Failed(Str("Child not found")))
  }

  function SaveChild(m: Mirror, key: string, writeError: Option<Value>): (r: (Mirror, Write, GateResult))
    requires Wf(m)
    ensures Wf(r.0)
    ensures Allows(m, Name(key), None) ==>
              && r.0 == Materialise(m, key) && r.1 == SaveRecord(key)
              && r.2 == (if writeError.None? then Done else Failed(writeError.value))
    ensures !Allows(m, Name(key), None) ==> r == (m, NoWrite, Failed(Str("Child not found")))
    ensures Gated(m) ==> Gated(r.0)
  {
    var (m', c) := Child(m, key);
    if c.Some? then (m', SaveRecord(key), if writeError.None? then Done else Failed(writeError.value))
    else (m', NoWrite, Failed(Str("Child not found")))
  }

  // ---------------------------------------------------------------------------
  // Properties relating several calls

  /** Asking for a child twice gives the same binding and leaves the state as the first call did. */
  lemma ChildMemoised(m: Mirror, key: string)
    requires Wf(m)
    ensures var (m1, c1) := Child(m, key); Child(m1, key) == (m1, c1)
  {
  }

  /** The set of tracked keys only grows through permitted keys. */
  lemma ChildrenGrowOnlyByPermit(m: Mirror, key: string)
    requires Wf(m)
    ensures var m1 := Child(m, key).0;
            m.children.Keys <= m1.children.Keys
            && forall k :: k in m1.children && k !in m.children ==> k == key && Allows(m, Name(k), None)
  {
  }

  /**
    With an unchanged user, every child key in the whole snapshot passes a fresh permission
    check, because the mirror only ever tracks keys that passed one.
   */
  lemma WholeSnapshotPermitted(m: Mirror, remote: map<string, Value>)
    requires Gated(m)
    ensures forall k :: k in WholeSnapshot(m, remote).value.fields ==> Allows(m, Name(k), None)
  {
  }

  /** A keyed snapshot of a child is present exactly when the key is permitted at that moment. */
  lemma ChildSnapshotRegated(m: Mirror, remote: map<string, Value>, key: string, prev: Key)
    requires Wf(m)
    ensures ChildSnapshot(m, remote, key, prev).1.snapshot.Some? <==> Allows(m, Name(key), None)
  {
  }
}
