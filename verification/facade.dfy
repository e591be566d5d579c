/**
  The public face of a secure mirror: the same calls as a direct store binding, each
  forwarded to the store when the user has root access for the type and handled by the
  mirror's own gates otherwise. Calls that act on the whole root are declined without
  root access.
 */
module Facade {
  import opened Values
  import opened Permission
  import opened SecureMirror
  import Handlers
  import Lifecycle

  /** The calls the facade offers. */
  datatype Call =
    | Add(value: Value)
    | Remove(key: string)
    | Save(key: string)
    | ChildOf(key: string)
    | SetRoot(value: Value)
    | UpdateRoot(value: Value)
    | Transaction
    | GetIndex
    | On(event: string)
    | Off(event: string)
    | GetRef
    | AsArray
    | AddToUsers(id: Option<string>, uids: seq<string>)
    | RemoveFromUsers(id: Option<string>, uids: seq<string>)

  /** Where a call goes: the store binding, the mirror's own logic, or nowhere (the call yields null). */
  datatype Route = ToStore | ToSecure | Declined

  /** The root-wide calls: set, update and transaction. */
  predicate RootWide(c: Call) {
    c.SetRoot? || c.UpdateRoot? || c.Transaction?
  }

  /** The calls the mirror always handles itself: the root reference and the membership fan-outs. */
  predicate AlwaysSecure(c: Call) {
    c.GetRef? || c.AddToUsers? || c.RemoveFromUsers?
  }

  /**
    The routing rule: with root access everything except the reference and the fan-outs
    goes to the store; without it the root-wide calls are declined and the rest are gated.
   */
  function RouteOf(rootBound: bool, c: Call): (r: Route)
    ensures r == ToStore <==> rootBound && !AlwaysSecure(c)
    ensures r == Declined <==> !rootBound && RootWide(c)
    ensures r == ToSecure <==> AlwaysSecure(c) || (!rootBound && !RootWide(c))
  {
    if AlwaysSecure(c) then ToSecure
    else if rootBound then ToStore
    else if RootWide(c) then Declined
    else ToSecure
  }

  /** The store's `$add` wrapped by the facade: created with the type and new id, or the store's error. */
  function StoreAdd(typeName: string, newId: string, pushError: Option<Value>): (r: GateResult)
    ensures r.Created? <==> pushError.None?
    ensures r.Created? ==> r.typeName == typeName && r.id == newId
    ensures r.Failed? ==> Some(r.reason) == pushError
  {
    if pushError.None? then Created(typeName, newId) else Failed(pushError.value)
  }

  /** `$add`: pushed straight to the store with root access, through the write gate otherwise. */
  function AddCall(m: Mirror, value: Value, newId: string, pushError: Option<Value>): (r: (Mirror, Write, GateResult))
    requires Wf(m)
    ensures Wf(r.0)
    ensures m.rootBound ==> r == (m, Push(value), StoreAdd(m.policy.name, newId, pushError))
    ensures !m.rootBound ==> r == AddChild(m, value, newId, pushError)
  {
    if m.rootBound then (m, Push(value), StoreAdd(m.policy.name, newId, pushError))
    else AddChild(m, value, newId, pushError)
  }

  /** Root access on a type also lets its holder add any record, so the gate would have let the push through. */
  lemma RootAccessCoversAdd(m: Mirror, value: Value)
    requires Allows(m, Undefined, None)
    ensures Allows(m, NullKey, Some(value))
  {
    if !PublicAllowed(m.policy) && m.user.Some? {
      ScanTokensIff(m.policy, m.user, m.policy.access, Undefined, None);
      ScanTokensIff(m.policy, m.user, m.policy.access, NullKey, Some(value));
      var i :| 0 <= i < |m.policy.access| && TokenGrants(m.policy, m.user, m.policy.access[i], Undefined, None);
      assert TokenGrants(m.policy, m.user, m.policy.access[i], NullKey, Some(value));
    }
  }

  /**
    For a user with root access both `$add` paths settle alike: the store path and the gate
    issue the same push and report the same result, so binding to the root changes nothing
    a caller of `$add` can observe.
   */
  lemma AddPathsAgree(m: Mirror, value: Value, newId: string, pushError: Option<Value>)
    requires Wf(m) && !m.rootBound && Allows(m, Undefined, None)
    ensures AddCall(m.(rootBound := true), value, newId, pushError).1 == AddChild(m, value, newId, pushError).1
    ensures AddCall(m.(rootBound := true), value, newId, pushError).2 == AddChild(m, value, newId, pushError).2
  {
    RootAccessCoversAdd(m, value);
  }

  /** `$getIndex`: the store's keys with root access, the tracked children otherwise. */
  function IndexCall(m: Mirror, storeKeys: seq<string>): (keys: seq<string>)
    requires Wf(m)
    ensures m.rootBound ==> keys == storeKeys
    ensures !m.rootBound ==> forall k :: k in keys <==> k in m.children
  {
    if m.rootBound then storeKeys else ChildKeys(m)
  }

  /** Without root access the index lists only keys the user may see. */
  lemma IndexPermitted(m: Mirror, storeKeys: seq<string>)
    requires Wf(m) && Gated(m) && !m.rootBound
    ensures forall k :: k in IndexCall(m, storeKeys) ==> Allows(m, Name(k), None)
  {
  }

  /** `$on`: the store keeps the handler with root access; the mirror's registry does otherwise. */
  function OnCall<H(==)>(rootBound: bool, reg: Handlers.Registry<H>, e: string, h: H): (r: Handlers.Registry<H>)
    ensures rootBound ==> r == reg
    ensures !rootBound ==> e in r && h in r[e]
  {
    if rootBound then reg else Handlers.AddEventHandler(reg, e, h)
  }

  /**
    `$off`: as `$on`, removing instead. Without root access, no handler drops the event's
    whole list, a given handler is no longer registered for the event, and other events
    keep their handlers.
   */
  function OffCall<H(==)>(rootBound: bool, reg: Handlers.Registry<H>, e: string, h: Option<H>): (r: Handlers.Registry<H>)
    ensures rootBound ==> r == reg
    ensures !rootBound && h.None? ==> e !in r
    ensures !rootBound && h.Some? && (e in reg ==> Handlers.NoDuplicates(reg[e])) ==> e !in r || h.value !in r[e]
    ensures !rootBound ==> forall e' :: e' != e ==> (e' in r <==> e' in reg) && (e' in reg ==> r[e'] == reg[e'])
  {
    if rootBound then reg else Handlers.RemoveEventHandler(reg, e, h)
  }

  /** Without root access, `$off` undoes a fresh `$on` exactly. */
  lemma OnThenOff<H>(reg: Handlers.Registry<H>, e: string, h: H)
    requires Handlers.Wf(reg) && !(e in reg && h in reg[e])
    ensures OffCall(false, OnCall(false, reg, e, h), e, Some(h)) == reg
  {
    Handlers.AddThenRemove(reg, e, h);
  }

  /** A record type as callers describe it: its name and its access, one token or a list. */
  datatype TypeSpec = TypeSpec(name: string, access: AccessSpec)

  /** What the service hands out: the shared sign-in object, or a new mirror. */
  datatype Opened = AuthObject | MirrorOf(mirror: Mirror, awaitingQueue: bool)

  /**
    The service entry point. A falsy type (None) yields the shared sign-in object; any type
    object, even one with an empty name, yields a newly constructed mirror of that type.
   */
  method Open(t: Option<TypeSpec>, user: Option<User>, login: Login, remote: map<string, Value>) returns (r: Opened)
    ensures r == AuthObject <==> t.None?
    ensures r.MirrorOf? ==> Wf(r.mirror) && Gated(r.mirror) && r.mirror.user == user
    ensures r.MirrorOf? ==> r.mirror.policy == TypePolicy(t.value.name, NormaliseAccess(t.value.access))
    ensures r.MirrorOf? ==> (r.awaitingQueue <==> user.Some? && user.value.id != "")
    ensures r.MirrorOf? && !r.awaitingQueue ==> r.mirror.initted
  {
    if t.Some? {
      var m, _, awaiting := Lifecycle.Construct(t.value.name, t.value.access, user, login, remote);
      r := MirrorOf(m, awaiting);
    } else {
      r := AuthObject;
    }
  }
}
