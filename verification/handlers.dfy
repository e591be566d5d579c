/**
  The mirror's own event-handler registry: event name -> ordered list of handlers,
  used instead of the remote store's when the user has no root access.
 */
module Handlers {
  import opened Values

  type Registry<H> = map<string, seq<H>>

  /** No handler is listed twice for one event. */
  ghost predicate NoDuplicates<H>(s: seq<H>) {
    forall i, j :: 0 <= i < j < |s| ==> s[i] != s[j]
  }

  /** The registry's shape: no empty lists kept, no handler twice in a list. */
  ghost predicate Wf<H>(reg: Registry<H>) {
    forall e :: e in reg ==> |reg[e]| > 0 && NoDuplicates(reg[e])
  }

  /** Position of the first occurrence of `h` in `s`, or |s| when absent (`indexOf`). */
  function IndexOf<H(==)>(s: seq<H>, h: H): (i: nat)
    ensures i <= |s|
    ensures i < |s| ==> s[i] == h
    ensures forall j :: 0 <= j < i ==> s[j] != h
  {
    if |s| == 0 then 0
    else if s[0] == h then 0
    else 1 + IndexOf(s[1..], h)
  }

  /** Registers `h` for `e` unless it is already registered there. */
  function AddEventHandler<H(==)>(reg: Registry<H>, e: string, h: H): (r: Registry<H>)
    ensures e in r && h in r[e]
    ensures e in reg && h in reg[e] ==> r == reg
    ensures !(e in reg && h in reg[e]) ==> r[e] == (if e in reg then reg[e] else []) + [h]
    ensures forall e' :: e' != e ==> (e' in r <==> e' in reg)
    ensures forall e' :: e' != e && e' in reg ==> r[e'] == reg[e']
    ensures Wf(reg) ==> Wf(r)
  {
    var current := if e in reg then reg[e] else [];
    if IndexOf(current, h) == |current| then reg[e := current + [h]] else reg
  }

  /** Removes `h` from `e`'s list, or every handler of `e` when no handler is given. */
  function RemoveEventHandler<H(==)>(reg: Registry<H>, e: string, h: Option<H>): (r: Registry<H>)
    ensures e !in reg ==> r == reg
    ensures e in reg && h.None? ==> r == reg - {e}
    ensures e in reg && h.Some? && h.value !in reg[e] ==> r == reg
    ensures e in r ==> e in reg
    ensures e in r && h.Some? && NoDuplicates(reg[e]) ==> h.value !in r[e]
    ensures forall e' :: e' != e ==> (e' in r <==> e' in reg)
    ensures forall e' :: e' != e && e' in reg ==> r[e'] == reg[e']
    ensures Wf(reg) ==> Wf(r)
  {
    if e !in reg then reg
    else if h.None? then reg - {e}
    else
      var list := reg[e];
      var i := IndexOf(list, h.value);
      if i == |list| then reg
      else
        var rest := list[..i] + list[i + 1..];
        CutKeepsDistinct(list, i);
        if |rest| == 0 then reg - {e} else reg[e := rest]
  }

  /** Cutting the first occurrence of a handler out of a duplicate-free list leaves it duplicate-free and without that handler. */
  lemma CutKeepsDistinct<H>(list: seq<H>, i: nat)
    requires i < |list|
    requires forall j :: 0 <= j < i ==> list[j] != list[i]
    ensures var rest := list[..i] + list[i + 1..];
            && |rest| == |list| - 1
            && (forall k :: 0 <= k < |rest| ==> rest[k] == (if k < i then list[k] else list[k + 1]))
            && (NoDuplicates(list) ==> NoDuplicates(rest) && list[i] !in rest)
  {
    var rest := list[..i] + list[i + 1..];
    assert forall k :: 0 <= k < |rest| ==> rest[k] == (if k < i then list[k] else list[k + 1]);
  }

  /** One handler invocation, with the event's argument. */
  datatype Call<H, A> = Call(handler: H, arg: A)

  /** `handleEvent`: the calls made, one per registered handler of `e`, in registration order. */
  function HandleEvent<H, A>(reg: Registry<H>, e: string, arg: A): (calls: seq<Call<H, A>>)
    ensures e !in reg ==> calls == []
    ensures e in reg ==> |calls| == |reg[e]|
    ensures e in reg ==> forall i :: 0 <= i < |calls| ==> calls[i] == Call(reg[e][i], arg)
  {
    if e in reg then seq(|reg[e]|, i requires 0 <= i < |reg[e]| => Call(reg[e][i], arg)) else []
  }

  /**
    `handleEvent` after registering a new handler: the handlers already there are called
    first, in their order, and the new one last; other events call what they called before.
   */
  lemma HandleAfterAdd<H, A>(reg: Registry<H>, e: string, h: H, arg: A)
    requires !(e in reg && h in reg[e])
    ensures HandleEvent(AddEventHandler(reg, e, h), e, arg) == HandleEvent(reg, e, arg) + [Call(h, arg)]
    ensures forall e' :: e' != e ==> HandleEvent(AddEventHandler(reg, e, h), e', arg) == HandleEvent(reg, e', arg)
  {
    var r := AddEventHandler(reg, e, h);
    var before := HandleEvent(reg, e, arg);
    assert |HandleEvent(r, e, arg)| == |before| + 1;
    forall i | 0 <= i < |before| + 1
      ensures HandleEvent(r, e, arg)[i] == (before + [Call(h, arg)])[i]
    {
      if i < |before| {
        assert r[e][i] == reg[e][i];
      }
    }
  }

  /** After every handler of an event is removed, `handleEvent` for it calls nothing. */
  lemma HandleAfterRemoveAll<H, A>(reg: Registry<H>, e: string, arg: A)
    ensures HandleEvent(RemoveEventHandler(reg, e, None), e, arg) == []
    ensures forall e' :: e' != e ==> HandleEvent(RemoveEventHandler(reg, e, None), e', arg) == HandleEvent(reg, e', arg)
  {
  }

  /** Adding a handler twice registers it once. */
  lemma AddIdempotent<H>(reg: Registry<H>, e: string, h: H)
    ensures AddEventHandler(AddEventHandler(reg, e, h), e, h) == AddEventHandler(reg, e, h)
  {
  }

  /**
    Removing a handler just added restores the registry, so the registry keeps no trace of
    a registration that was undone.
   */
  lemma AddThenRemove<H>(reg: Registry<H>, e: string, h: H)
    requires e in reg ==> |reg[e]| > 0
    requires !(e in reg && h in reg[e])
    ensures RemoveEventHandler(AddEventHandler(reg, e, h), e, Some(h)) == reg
  {
    if e in reg {
      AddThenRemoveListed(reg, e, h);
    } else {
      AddThenRemoveUnlisted(reg, e, h);
    }
  }

  /** `AddThenRemove` for an event that already has handlers. */
  lemma AddThenRemoveListed<H>(reg: Registry<H>, e: string, h: H)
    requires e in reg && |reg[e]| > 0 && h !in reg[e]
    ensures RemoveEventHandler(AddEventHandler(reg, e, h), e, Some(h)) == reg
  {
    var list := reg[e] + [h];
    assert AddEventHandler(reg, e, h) == reg[e := list];
    CutAppended(reg[e], h);
    RemoveFound(reg[e := list], e, h);
    assert reg[e := list][e := reg[e]] == reg;
  }

  /** `AddThenRemove` for an event with no handlers yet. */
  lemma AddThenRemoveUnlisted<H>(reg: Registry<H>, e: string, h: H)
    requires e !in reg
    ensures RemoveEventHandler(AddEventHandler(reg, e, h), e, Some(h)) == reg
  {
    var none: seq<H> := [];
    assert none + [h] == [h];
    assert AddEventHandler(reg, e, h) == reg[e := [h]];
    CutAppended([], h);
    RemoveFound(reg[e := [h]], e, h);
    assert reg[e := [h]] - {e} == reg;
  }

  /** Cutting a handler out of a list it was just appended to gives the list back. */
  lemma CutAppended<H>(before: seq<H>, h: H)
    requires h !in before
    ensures IndexOf(before + [h], h) == |before|
    ensures (before + [h])[..|before|] + (before + [h])[|before| + 1..] == before
  {
    IndexOfAppend(before, h);
    assert (before + [h])[..|before|] == before;
  }

  /** Removing a registered handler cuts it out of its event's list, dropping a list left empty. */
  lemma RemoveFound<H>(reg: Registry<H>, e: string, h: H)
    requires e in reg && IndexOf(reg[e], h) < |reg[e]|
    ensures var i := IndexOf(reg[e], h);
            var rest := reg[e][..i] + reg[e][i + 1..];
            RemoveEventHandler(reg, e, Some(h)) == if |rest| == 0 then reg - {e} else reg[e := rest]
  {
  }

  lemma IndexOfAppend<H>(s: seq<H>, h: H)
    requires h !in s
    ensures IndexOf(s + [h], h) == |s|
  {
    var i := IndexOf(s + [h], h);
    assert (s + [h])[|s|] == h;
    assert forall j :: 0 <= j < |s| ==> (s + [h])[j] == s[j];
  }

  /** Removing one handler drops exactly that handler and keeps the others in order. */
  lemma RemoveDropsExactly<H>(reg: Registry<H>, e: string, h: H)
    requires e in reg && NoDuplicates(reg[e]) && h in reg[e]
    ensures var r := RemoveEventHandler(reg, e, Some(h));
            var kept := if e in r then r[e] else [];
            h !in kept && |kept| == |reg[e]| - 1
            && (forall x :: x in reg[e] && x != h ==> x in kept)
            && (forall x :: x in kept ==> x in reg[e])
  {
    var list := reg[e];
    var i := IndexOf(list, h);
    var rest := list[..i] + list[i + 1..];
    RemoveFound(reg, e, h);
    CutKeepsDistinct(list, i);
    forall x | x in list && x != h ensures x in rest {
      var k :| 0 <= k < |list| && list[k] == x;
      if k < i { assert rest[k] == x; } else { assert rest[k - 1] == x; }
    }
  }
}
