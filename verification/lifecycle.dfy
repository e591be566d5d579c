/**
  How a mirror comes up: access normalisation, the wait for the user's queue to drain,
  the root-access check, and the bulk load of the user's personal index with its
  counting join that emits one `value` and one `loaded` once every child has loaded.
 */
module Lifecycle {
  import opened Values
  import opened Permission
  import opened SecureMirror
  import opened Events

  /** The user's personal index for the mirror's type (`user[type.name]`). */
  function PersonalIndex(m: Mirror): Option<Value> {
    if m.user.Some? then Get(m.user.value.props, m.policy.name) else None
  }

  /** `Object.keys(index).length`; an array counts its items. */
  function EntryCount(idx: Option<Value>): nat {
    if idx.Some? && idx.value.Obj? then |idx.value.fields|
    else if idx.Some? && idx.value.Arr? then |idx.value.items|
    else 0
  }

  /** The bulk load applies: the type grants "user", there is a user, and its index is a non-empty object. */
  predicate BulkLoadApplies(m: Mirror) {
    "user" in m.policy.access && m.user.Some? && IsObject(PersonalIndex(m)) && EntryCount(PersonalIndex(m)) > 0
  }

  /** The keys the bulk load binds: the index entries with a truthy flag. */
  function FlaggedKeys(idx: Option<Value>): (keys: set<string>)
    ensures forall k :: k in keys <==> idx.Some? && idx.value.Obj? && k in idx.value.fields && Truthy(idx.value.fields[k])
  {
    if idx.Some? && idx.value.Obj? then set k | k in idx.value.fields && Truthy(idx.value.fields[k]) else {}
  }

  /** The join has completed: `value` with the whole snapshot, then `loaded`, and the load flag cleared. */
  function FinishLoad(m: Mirror, remote: map<string, Value>): (r: (Mirror, seq<Event>))
    requires Wf(m) && m.pending == {}
    ensures Wf(r.0) && !r.0.loading
    ensures r.1 == [ValueEvent(m, remote), Event("loaded", None)]
    ensures r.0.children == m.children
  {
    (m.(loading := false), [ValueEvent(m, remote), Event("loaded", None)])
  }

  /** Binds every key of `wanted`, each of which the user may see. */
  method BindAll(m: Mirror, wanted: set<string>) returns (m': Mirror)
    requires Wf(m)
    requires forall k :: k in wanted ==> Allows(m, Name(k), None)
    ensures Wf(m')
    ensures Gated(m) ==> Gated(m')
    ensures m' == m.(children := m'.children, order := m'.order)
    ensures m'.children.Keys == m.children.Keys + wanted
  {
    var todo := wanted;
    m' := m;
    while todo != {}
      invariant BoundSoFar(m, wanted, todo, m')
      decreases todo
    {
      var k :| k in todo;
      BindStep(m, wanted, todo, m', k);
      m' := Child(m', k).0;
      todo := todo - {k};
    }
  }

  /** The loop state of `BindAll`: the keys of `wanted` outside `todo` are bound, nothing else changed. */
  ghost predicate BoundSoFar(m: Mirror, wanted: set<string>, todo: set<string>, m': Mirror) {
    && Wf(m')
    && (Gated(m) ==> Gated(m'))
    && todo <= wanted
    && m' == m.(children := m'.children, order := m'.order)
    && m'.children.Keys == m.children.Keys + (wanted - todo)
  }

  /** Binding one more wanted key keeps the loop state. */
  lemma BindStep(m: Mirror, wanted: set<string>, todo: set<string>, m': Mirror, k: string)
    requires forall k :: k in wanted ==> Allows(m, Name(k), None)
    requires BoundSoFar(m, wanted, todo, m') && k in todo
    ensures Wf(m') && BoundSoFar(m, wanted, todo - {k}, Child(m', k).0)
  {
    assert Allows(m', Name(k), None) == Allows(m, Name(k), None);
    assert (wanted - todo) + {k} == wanted - (todo - {k});
  }

  /** The keys the bulk load awaits: the flagged keys of the personal index that the user may see. */
  function Awaited(m: Mirror): (keys: set<string>)
    ensures forall k :: k in keys <==> k in FlaggedKeys(PersonalIndex(m)) && Allows(m, Name(k), None)
  {
    set k | k in FlaggedKeys(PersonalIndex(m)) && Allows(m, Name(k), None)
  }

  /**
    `loadForUser`: when the bulk load applies, every flagged key the user may see is bound and
    awaited, and the load flag is raised; with nothing to await (or when the bulk load does not
    apply) the `value` and `loaded` pair is emitted at once.
   */
  method LoadForUser(m: Mirror, remote: map<string, Value>) returns (m': Mirror, evs: seq<Event>)
    requires Wf(m) && m.pending == {} && !m.loading
    ensures Wf(m')
    ensures Gated(m) ==> Gated(m')
    ensures m'.policy == m.policy && m'.user == m.user && m'.login == m.login && m'.rootBound == m.rootBound
    ensures m'.initted == m.initted
    ensures m'.pending == (if BulkLoadApplies(m) then Awaited(m) else {})
    ensures m'.children.Keys == m.children.Keys + m'.pending
    ensures m'.loading <==> m'.pending != {}
    ensures m'.pending != {} ==> evs == []
    ensures m'.pending == {} ==> evs == [ValueEvent(m', remote), Event("loaded", None)]
  {
    if !BulkLoadApplies(m) {
      var fin := FinishLoad(m, remote);
      m', evs := fin.0, fin.1;
      return;
    }
    var wanted := Awaited(m);
    var bound := BindAll(m, wanted);
    if wanted == {} {
      var fin := FinishLoad(bound, remote);
      m', evs := fin.0, fin.1;
    } else {
      m' := bound.(loading := true, pending := wanted);
      evs := [];
    }
  }

  /** One awaited child has loaded; the last one completes the join. */
  function ChildLoaded(m: Mirror, remote: map<string, Value>, key: string): (r: (Mirror, seq<Event>))
    requires Wf(m)
    ensures Wf(r.0)
    ensures r.0.children == m.children && r.0.pending == m.pending - {key}
    ensures key !in m.pending ==> r == (m, [])
    ensures m.pending == {key} ==> r.1 == [ValueEvent(m, remote), Event("loaded", None)] && !r.0.loading
    ensures m.pending != {key} ==> r.1 == [] && r.0.loading == m.loading
  {
    if key in m.pending then
      var m1 := m.(pending := m.pending - {key});
      if m1.pending == {} then FinishLoad(m1, remote) else (m1, [])
    else (m, [])
  }

  /** A run of load signals, one after another. */
  function LoadSignals(m: Mirror, remote: map<string, Value>, keys: seq<string>): (r: (Mirror, seq<Event>))
    requires Wf(m)
    ensures Wf(r.0)
    ensures r.0.children == m.children
    ensures m.pending == {} ==> r == (m, [])
    decreases |keys|
  {
    if |keys| == 0 then (m, [])
    else
      var first := ChildLoaded(m, remote, keys[0]);
      var rest := LoadSignals(first.0, remote, keys[1..]);
      assert m.pending == {} ==> keys[0] !in m.pending && first == (m, []) && first.1 + rest.1 == rest.1;
      (rest.0, first.1 + rest.1)
  }

  /** How many `loaded` events a list holds. */
  function CountLoaded(evs: seq<Event>): nat {
    if |evs| == 0 then 0 else (if evs[0].name == "loaded" then 1 else 0) + CountLoaded(evs[1..])
  }

  lemma {:induction false} CountLoadedAppend(a: seq<Event>, b: seq<Event>)
    ensures CountLoaded(a + b) == CountLoaded(a) + CountLoaded(b)
    decreases |a|
  {
    if |a| > 0 {
      assert (a + b)[0] == a[0];
      assert (a + b)[1..] == a[1..] + b;
      CountLoadedAppend(a[1..], b);
    } else {
      assert a + b == b;
    }
  }

  /**
    Once every awaited child has signalled, the join has emitted exactly one `loaded` (none
    when nothing was awaited), and the load flag is down if anything was awaited.
   */
  lemma {:induction false} JoinEmitsLoadedOnce(m: Mirror, remote: map<string, Value>, keys: seq<string>)
    requires Wf(m)
    requires forall k :: k in m.pending ==> k in keys
    ensures LoadSignals(m, remote, keys).0.pending == {}
    ensures CountLoaded(LoadSignals(m, remote, keys).1) == (if m.pending == {} then 0 else 1)
    ensures m.pending != {} ==> !LoadSignals(m, remote, keys).0.loading
    decreases |keys|
  {
    if |keys| == 0 {
    } else {
      var (m1, out1) := ChildLoaded(m, remote, keys[0]);
      forall k | k in m1.pending ensures k in keys[1..] {
        assert k in keys && k != keys[0];
        var j :| 0 <= j < |keys| && keys[j] == k;
        assert keys[1..][j - 1] == k;
      }
      JoinEmitsLoadedOnce(m1, remote, keys[1..]);
      var (m2, out2) := LoadSignals(m1, remote, keys[1..]);
      CountLoadedAppend(out1, out2);
      if m.pending == {keys[0]} {
        assert CountLoaded(out1) == 1 by {
          assert out1 == [ValueEvent(m1, remote), Event("loaded", None)];
          assert out1[1..][1..] == [];
        }
      } else if keys[0] in m.pending {
        assert out1 == [];
        assert m1.pending != {};
        assert m1.loading;
      } else {
        assert out1 == [];
      }
    }
  }

  /** Root access exists exactly when the type is public or the user holds one of its non-public roles. */
  lemma RootAccessIff(p: TypePolicy, u: User, login: Login)
    ensures Permit(p, Some(u), login, Undefined, None)
            <==> "public" in p.access
                 || exists i :: 0 <= i < |p.access| && p.access[i] != "public"
                      && IsObject(Get(u.props, "roles")) && IsTruthy(Prop(Get(u.props, "roles"), p.access[i]))
  {
    ScanTokensIff(p, Some(u), p.access, Undefined, None);
  }

  /** With "user" in the access list, every flagged non-empty key of the personal index is permitted. */
  lemma FlaggedKeysPermitted(m: Mirror, k: string)
    requires BulkLoadApplies(m) && k in FlaggedKeys(PersonalIndex(m)) && k != ""
    ensures Allows(m, Name(k), None)
  {
    var i :| 0 <= i < |m.policy.access| && m.policy.access[i] == "user";
    ScanTokensIff(m.policy, m.user, m.policy.access, Name(k), None);
    assert TokenGrants(m.policy, m.user, m.policy.access[i], Name(k), None);
  }

  /**
    `initForUser`: root access binds the mirror to the store root and emits nothing;
    otherwise the bulk load runs.
   */
  method InitForUser(m: Mirror, remote: map<string, Value>) returns (m': Mirror, evs: seq<Event>)
    requires Wf(m) && m.pending == {} && !m.loading && !m.rootBound
    ensures Wf(m') && m'.initted
    ensures m'.policy == m.policy && m'.user == m.user && m'.login == m.login
    ensures Gated(m) ==> Gated(m')
    ensures m'.rootBound <==> Allows(m, Undefined, None)
    ensures m'.rootBound ==> evs == [] && m'.children == m.children
    ensures !m'.rootBound ==> m'.pending == (if BulkLoadApplies(m) then Awaited(m) else {})
    ensures !m'.rootBound ==> m'.children.Keys == m.children.Keys + m'.pending
    ensures !m'.rootBound ==> (m'.loading <==> m'.pending != {})
    ensures !m'.rootBound && m'.pending != {} ==> evs == []
    ensures !m'.rootBound && m'.pending == {} ==> evs == [ValueEvent(m', remote), Event("loaded", None)]
  {
    if Allows(m, Undefined, None) {
      m' := m.(rootBound := true, initted := true);
      evs := [];
    } else {
      m', evs := LoadForUser(m.(initted := true), remote);
    }
  }

  /**
    Construction: the access is normalised; a user with an id waits for its queue to drain
    before initialising, anyone else initialises at once.
   */
  method Construct(name: string, access: AccessSpec, user: Option<User>, login: Login, remote: map<string, Value>)
    returns (m: Mirror, evs: seq<Event>, awaitingQueue: bool)
    ensures Wf(m) && Gated(m)
    ensures m.policy == TypePolicy(name, NormaliseAccess(access)) && m.user == user
    ensures awaitingQueue <==> user.Some? && user.value.id != ""
    ensures awaitingQueue ==> !m.initted && evs == [] && m.children == map[] && !m.rootBound
    ensures !awaitingQueue ==> m.initted && (m.rootBound <==> Permit(m.policy, user, login, Undefined, None))
  {
    var m0 := Fresh(TypePolicy(name, NormaliseAccess(access)), user, login);
    if user.Some? && user.value.id != "" {
      m, evs, awaitingQueue := m0, [], true;
    } else {
      m, evs := InitForUser(m0, remote);
      awaitingQueue := false;
    }
  }

  /**
    The queue's `value` event: after a drain in which every entry succeeded, initialisation
    runs, once; a failed drain, or any later drain, leaves the mirror as it is.
   */
  method OnQueueDrained(m: Mirror, remote: map<string, Value>, drain: Outcome) returns (m': Mirror, evs: seq<Event>)
    requires Wf(m) && Gated(m)
    requires !m.initted ==> m.pending == {} && !m.loading && !m.rootBound
    ensures Wf(m') && Gated(m')
    ensures m.initted || drain.Rejected? ==> m' == m && evs == []
    ensures !m.initted && drain.Resolved? ==> m'.initted && (m'.rootBound <==> Allows(m, Undefined, None))
  {
    if drain.Resolved? && !m.initted {
      m', evs := InitForUser(m, remote);
    } else {
      m', evs := m, [];
    }
  }
}
