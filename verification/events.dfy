/**
  The event translator of a mirror without root access: each raw change the store
  reports for the type's root becomes, for a permitted child, the triple `change`,
  the specific `child_*` event, and `value` unless a bulk load is running. Denied
  children produce nothing; the raw `value` event is never forwarded.
 */
module Events {
  import opened Values
  import opened Permission
  import opened SecureMirror
  import Handlers

  /** A change the remote store reports for the type's root. */
  datatype RemoteEvent =
    | RemoteValue
    | ChildAdded(name: string, prev: Key)
    | ChildRemoved(name: string)
    | ChildChanged(name: string, prev: Key)
    | ChildMoved(name: string, prev: Key)

  /** An event the mirror emits to its handlers: a name and, for most, a snapshot result. */
  datatype Event = Event(name: string, arg: Option<SnapshotResult>)

  /** The name of the local event a raw child change becomes. */
  function SpecificName(ev: RemoteEvent): string
    requires !ev.RemoteValue?
  {
    match ev
    case ChildAdded(_, _) => "child_added"
    case ChildRemoved(_) => "child_removed"
    case ChildChanged(_, _) => "child_changed"
    case ChildMoved(_, _) => "child_moved"
  }

  /** The `value` event carrying the whole snapshot. */
  function ValueEvent(m: Mirror, remote: map<string, Value>): Event {
    Event("value", Some(SnapshotResult(Some(WholeSnapshot(m, remote)), Undefined)))
  }

  /** The trailing `value` event: present only outside a bulk load. */
  function ValueTail(m: Mirror, remote: map<string, Value>): (evs: seq<Event>)
    ensures |evs| == (if m.loading then 0 else 1)
    ensures forall e :: e in evs ==> e.name == "value"
  {
    if m.loading then [] else [ValueEvent(m, remote)]
  }

  /** The key the store reports as the previous sibling; a removal reports none. */
  function PrevOf(ev: RemoteEvent): Key
    requires !ev.RemoteValue?
  {
    match ev
    case ChildRemoved(_) => Undefined
    case ChildAdded(_, prev) => prev
    case ChildChanged(_, prev) => prev
    case ChildMoved(_, prev) => prev
  }

  /**
    The shape every permitted transition emits: `change`, the specific event with the
    child's snapshot and the previous sibling's key when that is given and null or
    permitted, then, unless loading, `value` with the whole snapshot of the mirror once
    the child is bound.
   */
  ghost predicate Triple(m: Mirror, remote: map<string, Value>, name: string, prev: Key, specific: string, evs: seq<Event>) {
    && Wf(m)
    && |evs| == (if m.loading then 2 else 3)
    && evs[0] == Event("change", None)
    && evs[1].name == specific
    && evs[1].arg.Some? && evs[1].arg.value.snapshot == Some(Snap(name, SnapshotValue(remote, name)))
    && evs[1].arg.value.prevChild == (if !prev.Undefined? && (prev.NullKey? || Allows(m, prev, None)) then prev else Undefined)
    && (!m.loading ==> evs[2] == ValueEvent(Materialise(m, name), remote))
  }

  /**
    `child_added`, `child_changed`, `child_moved` for one child. `child_added` is taken at the
    moment the child's binding has loaded and `child_changed` after the deferral that lets
    the binding catch up, which is when the source emits them.
   */
  function Announce(m: Mirror, remote: map<string, Value>, name: string, prev: Key, specific: string): (r: (Mirror, seq<Event>))
    requires Wf(m)
    ensures Wf(r.0)
    ensures Gated(m) ==> Gated(r.0)
    ensures r.0.loading == m.loading && r.0.pending == m.pending && r.0.rootBound == m.rootBound
    ensures !Allows(m, Name(name), None) ==> r == (m, [])
    ensures Allows(m, Name(name), None) ==> Triple(m, remote, name, prev, specific, r.1) && r.0 == Materialise(m, name)
    ensures Allows(m, Name(name), None) ==> r.0.children.Keys == m.children.Keys + {name}
    ensures forall k :: k in m.children ==> k in r.0.children && r.0.children[k] == m.children[k]
  {
    if Allows(m, Name(name), None) then
      var (m1, snap) := ChildSnapshot(m, remote, name, prev);
      BindKeeps(m, name);
      (m1, [Event("change", None), Event(specific, Some(snap))] + ValueTail(m1, remote))
    else (m, [])
  }

  /** `child_removed` for one child: the events first, then the binding is dropped. */
  function Removal(m: Mirror, remote: map<string, Value>, name: string): (r: (Mirror, seq<Event>))
    requires Wf(m)
    ensures Wf(r.0)
    ensures Gated(m) ==> Gated(r.0)
    ensures r.0.loading == m.loading && r.0.pending == m.pending && r.0.rootBound == m.rootBound
    ensures !Allows(m, Name(name), None) ==> r == (m, [])
    ensures Allows(m, Name(name), None) ==> Triple(m, remote, name, Undefined, "child_removed", r.1)
    ensures Allows(m, Name(name), None) ==> r.0 == Forget(Materialise(m, name), name)
    ensures Allows(m, Name(name), None) ==> r.0.children.Keys == m.children.Keys - {name}
    ensures forall k :: k in r.0.children ==> k in m.children && r.0.children[k] == m.children[k]
  {
    if Allows(m, Name(name), None) then
      var (m1, snap) := ChildSnapshot(m, remote, name, Undefined);
      BindThenForget(m, name);
      (Forget(m1, name), [Event("change", None), Event("child_removed", Some(snap))] + ValueTail(m1, remote))
    else (m, [])
  }

  /** Binding a child adds exactly that child and keeps every other one. */
  lemma BindKeeps(m: Mirror, name: string)
    requires Wf(m)
    ensures var b := Materialise(m, name);
            && b.children.Keys == m.children.Keys + {name}
            && (forall k :: k in m.children ==> k in b.children && b.children[k] == m.children[k])
  {
  }

  /** Binding a child and then forgetting it drops exactly that child and keeps every other one. */
  lemma BindThenForget(m: Mirror, name: string)
    requires Wf(m)
    ensures var f := Forget(Materialise(m, name), name);
            && f.children.Keys == m.children.Keys - {name}
            && (forall k :: k in f.children ==> k in m.children && f.children[k] == m.children[k])
            && f == m.(children := f.children, order := f.order)
  {
  }

  /** One raw change, translated; the raw `value` event is dropped. */
  function OnRemote(m: Mirror, remote: map<string, Value>, ev: RemoteEvent): (r: (Mirror, seq<Event>))
    requires Wf(m)
    ensures Wf(r.0)
    ensures Gated(m) ==> Gated(r.0)
    ensures r.0.loading == m.loading && r.0.pending == m.pending && r.0.rootBound == m.rootBound
    ensures ev.RemoteValue? ==> r == (m, [])
    ensures !ev.RemoteValue? && !Allows(m, Name(ev.name), None) ==> r == (m, [])
    ensures !ev.RemoteValue? && Allows(m, Name(ev.name), None) ==> Triple(m, remote, ev.name, PrevOf(ev), SpecificName(ev), r.1)
    ensures ev.ChildRemoved? && Allows(m, Name(ev.name), None) ==> r.0 == Forget(Materialise(m, ev.name), ev.name)
    ensures ev.ChildRemoved? && Allows(m, Name(ev.name), None) ==> r.0.children.Keys == m.children.Keys - {ev.name}
    ensures !ev.RemoteValue? && !ev.ChildRemoved? && Allows(m, Name(ev.name), None) ==> r.0 == Materialise(m, ev.name)
    ensures !ev.RemoteValue? && !ev.ChildRemoved? && Allows(m, Name(ev.name), None) ==> r.0.children.Keys == m.children.Keys + {ev.name}
    ensures forall k :: k in m.children && (ev.RemoteValue? || k != ev.name) ==> k in r.0.children && r.0.children[k] == m.children[k]
  {
    match ev
    case RemoteValue => (m, [])
    case ChildRemoved(name) => Removal(m, remote, name)
    case ChildAdded(name, prev) => Announce(m, remote, name, prev, "child_added")
    case ChildChanged(name, prev) => Announce(m, remote, name, prev, "child_changed")
    case ChildMoved(name, prev) => Announce(m, remote, name, prev, "child_moved")
  }

  /** During a bulk load no translated change ever emits `value`. */
  lemma NoValueWhileLoading(m: Mirror, remote: map<string, Value>, ev: RemoteEvent)
    requires Wf(m)
    ensures m.loading ==> forall e :: e in OnRemote(m, remote, ev).1 ==> e.name != "value"
  {
  }

  /**
    The `value` event that follows a `child_removed` still lists the removed key, because the
    binding is dropped only after the events are emitted.
   */
  lemma RemovedStillInValue(m: Mirror, remote: map<string, Value>, name: string)
    requires Wf(m) && !m.loading && Allows(m, Name(name), None)
    ensures var evs := OnRemote(m, remote, ChildRemoved(name)).1;
            && evs[2].arg.Some? && evs[2].arg.value.snapshot.Some?
            && name in evs[2].arg.value.snapshot.value.value.fields
            && name !in OnRemote(m, remote, ChildRemoved(name)).0.children
  {
    var (m1, snap) := ChildSnapshot(m, remote, name, Undefined);
    assert name in m1.children;
  }

  /** The emitted events handed to `handleEvent` one after another: the handler calls, in order. */
  function Dispatch<H>(reg: Handlers.Registry<H>, evs: seq<Event>): (calls: seq<Handlers.Call<H, Option<SnapshotResult>>>)
    decreases |evs|
  {
    if |evs| == 0 then [] else Handlers.HandleEvent(reg, evs[0].name, evs[0].arg) + Dispatch(reg, evs[1..])
  }

  /**
    A permitted raw change outside a bulk load reaches the handlers in three rounds: every
    `change` handler with no argument, then every handler of the specific event with the
    child's snapshot, then every `value` handler with the whole snapshot.
   */
  lemma DispatchOrder<H>(reg: Handlers.Registry<H>, m: Mirror, remote: map<string, Value>, ev: RemoteEvent)
    requires Wf(m) && !m.loading && !ev.RemoteValue? && Allows(m, Name(ev.name), None)
    ensures var evs := OnRemote(m, remote, ev).1;
            && evs[1].arg.Some? && evs[1].arg.value.snapshot == Some(Snap(ev.name, SnapshotValue(remote, ev.name)))
            && Dispatch(reg, evs)
               == Handlers.HandleEvent(reg, "change", None)
                  + Handlers.HandleEvent(reg, SpecificName(ev), evs[1].arg)
                  + Handlers.HandleEvent(reg, "value", Some(SnapshotResult(Some(WholeSnapshot(Materialise(m, ev.name), remote)), Undefined)))
  {
    var evs := OnRemote(m, remote, ev).1;
    DispatchThree(reg, evs);
  }

  /** Three events reach the handlers one event after another. */
  lemma DispatchThree<H>(reg: Handlers.Registry<H>, evs: seq<Event>)
    requires |evs| == 3
    ensures Dispatch(reg, evs)
            == Handlers.HandleEvent(reg, evs[0].name, evs[0].arg)
               + Handlers.HandleEvent(reg, evs[1].name, evs[1].arg)
               + Handlers.HandleEvent(reg, evs[2].name, evs[2].arg)
  {
    var c0 := Handlers.HandleEvent(reg, evs[0].name, evs[0].arg);
    var c1 := Handlers.HandleEvent(reg, evs[1].name, evs[1].arg);
    var c2 := Handlers.HandleEvent(reg, evs[2].name, evs[2].arg);
    assert evs[1..][1..][1..] == [];
    assert Dispatch(reg, evs[1..][1..]) == c2 + [];
    assert Dispatch(reg, evs[1..]) == c1 + (c2 + []);
    assert c0 + (c1 + (c2 + [])) == c0 + c1 + c2;
  }

  /** A run of raw changes, translated one after another; the emitted events are concatenated. */
  function Replay(m: Mirror, remote: map<string, Value>, evs: seq<RemoteEvent>): (r: (Mirror, seq<Event>))
    requires Wf(m)
    ensures Wf(r.0)
    ensures Gated(m) ==> Gated(r.0)
    ensures r.0.loading == m.loading
    ensures m.loading ==> forall e :: e in r.1 ==> e.name != "value"
    decreases |evs|
  {
    if |evs| == 0 then (m, [])
    else
      var (m1, out1) := OnRemote(m, remote, evs[0]);
      NoValueWhileLoading(m, remote, evs[0]);
      var (m2, out2) := Replay(m1, remote, evs[1..]);
      (m2, out1 + out2)
  }
}
