/**
  Membership fan-out: after a record of a type is shared with (or taken from) a set of
  users, each user's personal index must learn about it. The acting user's index is
  written directly; every other user gets an entry in its pending queue, since the
  acting user may not write another user's index.
 */
module Membership {
  import opened Values
  import opened Permission

  /** What a write does at its path. */
  datatype Op = SetTrue | SetFalse | Delete

  /** One write into the `users` tree, on behalf of user `uid`. */
  datatype UserWrite = UserWrite(uid: string, path: seq<string>, op: Op)

  /** The fan-out's decision: refused for want of an id, or the writes to issue. */
  datatype FanOut = Refused(reason: Value) | Writes(writes: seq<UserWrite>)

  /** `uid` is the acting user. */
  predicate Acting(user: Option<User>, uid: string) {
    user.Some? && uid == user.value.id
  }

  /** `users/<uid>/<type>/<id>` for the acting user, `users/<uid>/dataQueue/<type>/<id>` for anyone else. */
  function TargetPath(user: Option<User>, typeName: string, uid: string, id: string): (path: seq<string>)
    ensures |path| >= 4 && path[0] == "users" && path[1] == uid && path[|path| - 1] == id
    ensures Acting(user, uid) <==> path == ["users", uid, typeName, id]
    ensures !Acting(user, uid) <==> path == ["users", uid, "dataQueue", typeName, id]
  {
    if Acting(user, uid) then ["users", uid, typeName, id] else ["users", uid, "dataQueue", typeName, id]
  }

  /** The write `addToUsers` issues for one user: true at the target path. */
  function AddWrite(user: Option<User>, typeName: string, uid: string, id: string): UserWrite {
    UserWrite(uid, TargetPath(user, typeName, uid, id), SetTrue)
  }

  /** The write `removeFromUsers` issues for one user: the acting user's entry is deleted, anyone else's queue gets false. */
  function RemoveWrite(user: Option<User>, typeName: string, uid: string, id: string): UserWrite {
    UserWrite(uid, TargetPath(user, typeName, uid, id), if Acting(user, uid) then Delete else SetFalse)
  }

  /** The users the fan-out addresses: every non-empty key, in iteration order. */
  function Addressed(uids: seq<string>): (r: seq<string>)
    ensures forall u :: u in r <==> u in uids && u != ""
    ensures |r| <= |uids|
  {
    if |uids| == 0 then []
    else if uids[0] == "" then Addressed(uids[1..])
    else [uids[0]] + Addressed(uids[1..])
  }

  /**
    `addToUsers(id, userIDs)`: refused without a truthy id; otherwise one `true` write per
    non-empty user key (the keys' flags are not consulted), in the keys' order.
   */
  function AddToUsers(user: Option<User>, typeName: string, id: Option<string>, uids: seq<string>): (r: FanOut)
    ensures !TruthyString(id) <==> r == Refused(Str("No id to add to users"))
    ensures r.Writes? ==> |r.writes| == |Addressed(uids)|
    ensures r.Writes? ==> forall i :: 0 <= i < |r.writes| ==>
              r.writes[i].uid == Addressed(uids)[i] && r.writes[i].op == SetTrue
              && r.writes[i].path == TargetPath(user, typeName, r.writes[i].uid, id.value)
  {
    if !TruthyString(id) then Refused(Str("No id to add to users"))
    else
      var us := Addressed(uids);
      Writes(seq(|us|, i requires 0 <= i < |us| => AddWrite(user, typeName, us[i], id.value)))
  }

  /**
    `removeFromUsers(id, userIDs)`: refused without a truthy id; otherwise, per non-empty user
    key, the acting user's index entry is deleted and every other user's queue entry is set false.
   */
  function RemoveFromUsers(user: Option<User>, typeName: string, id: Option<string>, uids: seq<string>): (r: FanOut)
    ensures !TruthyString(id) <==> r == Refused(Str("No id to remove from users"))
    ensures r.Writes? ==> |r.writes| == |Addressed(uids)|
    ensures r.Writes? ==> forall i :: 0 <= i < |r.writes| ==>
              r.writes[i].uid == Addressed(uids)[i]
              && r.writes[i].path == TargetPath(user, typeName, r.writes[i].uid, id.value)
              && (r.writes[i].op == Delete <==> Acting(user, r.writes[i].uid))
              && (r.writes[i].op == SetFalse <==> !Acting(user, r.writes[i].uid))
  {
    if !TruthyString(id) then Refused(Str("No id to remove from users"))
    else
      var us := Addressed(uids);
      Writes(seq(|us|, i requires 0 <= i < |us| => RemoveWrite(user, typeName, us[i], id.value)))
  }

  /**
    The promise the fan-out returns: a refusal rejects with its reason; otherwise it resolves
    once every write has succeeded and rejects with the first failure. `settled` lists the
    writes' outcomes in the order they settle, one per write.
   */
  function Completion(f: FanOut, settled: seq<Outcome>): (r: Outcome)
    requires f.Writes? ==> |settled| == |f.writes|
    ensures f.Refused? ==> r == Rejected(f.reason)
    ensures f.Writes? ==> (r.Resolved? <==> forall i :: 0 <= i < |settled| ==> settled[i].Resolved?)
    ensures f.Writes? && r.Rejected? ==> exists i :: 0 <= i < |settled| && settled[i] == r
  {
    if f.Refused? then Rejected(f.reason) else JoinAll(settled)
  }

  ghost predicate DistinctKeys(s: seq<string>) {
    forall i, j :: 0 <= i < j < |s| ==> s[i] != s[j]
  }

  /** Every addressed user appears exactly once among the writes when the keys are distinct. */
  lemma {:induction false} AddressedDistinct(uids: seq<string>)
    requires DistinctKeys(uids)
    ensures DistinctKeys(Addressed(uids))
    decreases |uids|
  {
    if |uids| > 0 {
      assert DistinctKeys(uids[1..]);
      AddressedDistinct(uids[1..]);
      var rest := Addressed(uids[1..]);
      assert uids[0] !in uids[1..];
      assert uids[0] !in rest;
      if uids[0] != "" {
        var r := [uids[0]] + rest;
        assert Addressed(uids) == r;
        forall i, j | 0 <= i < j < |r| ensures r[i] != r[j] {
          if i == 0 { assert r[j] == rest[j - 1]; assert r[j] in rest; }
          else { assert r[i] == rest[i - 1] && r[j] == rest[j - 1]; }
        }
      }
    }
  }

  /**
    Writes for different users never touch the same path, so the order in which the store
    applies them does not matter.
   */
  lemma DistinctUsersDistinctPaths(user: Option<User>, typeName: string, id: string, u1: string, u2: string)
    requires u1 != u2
    ensures TargetPath(user, typeName, u1, id) != TargetPath(user, typeName, u2, id)
    ensures AddWrite(user, typeName, u1, id).path != RemoveWrite(user, typeName, u2, id).path
  {
    assert TargetPath(user, typeName, u1, id)[1] == u1;
    assert TargetPath(user, typeName, u2, id)[1] == u2;
  }

  /** Adding and then removing the same users addresses the same paths, and the removal is what stays. */
  lemma AddThenRemoveSamePaths(user: Option<User>, typeName: string, id: string, uids: seq<string>)
    requires id != ""
    ensures var a := AddToUsers(user, typeName, Some(id), uids);
            var r := RemoveFromUsers(user, typeName, Some(id), uids);
            a.Writes? && r.Writes? && |a.writes| == |r.writes|
            && forall i :: 0 <= i < |a.writes| ==>
                 a.writes[i].path == r.writes[i].path && r.writes[i].op != SetTrue
  {
  }
}
