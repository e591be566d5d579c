/**
  The queue drain run before a user's mirror of a type initialises: every entry of the
  user's pending queue for the type moves into the personal index (a true entry sets the
  index entry, a false one deletes it), and an entry leaves the queue only once its own
  move has succeeded.
 */
module Queue {
  import opened Values
  import opened Permission
  import opened Membership

  /** One queue entry: a record id and the membership flag left for the user. */
  datatype Entry = Entry(id: string, flag: Value)

  /** The drain's result: the personal index after the moves, the entries left queued, and the joined promise. */
  datatype Drained = Drained(index: map<string, Value>, remaining: seq<Entry>, outcome: Outcome)

  /** A queue is keyed by record id, so no id occurs twice. */
  ghost predicate DistinctIds(q: seq<Entry>) {
    forall i, j :: 0 <= i < j < |q| ==> q[i].id != q[j].id
  }

  function Ids(q: seq<Entry>): (ids: set<string>)
    ensures forall k :: k in ids <==> exists i :: 0 <= i < |q| && q[i].id == k
  {
    set i | 0 <= i < |q| :: q[i].id
  }

  /** One entry's move into the index: a truthy flag sets the entry to true, any other deletes it. */
  function Move(index: map<string, Value>, e: Entry): (r: map<string, Value>)
    ensures Truthy(e.flag) ==> e.id in r && r[e.id] == Bool(true)
    ensures !Truthy(e.flag) ==> e.id !in r
    ensures forall k :: k != e.id ==> Get(r, k) == Get(index, k)
  {
    if Truthy(e.flag) then index[e.id := Bool(true)] else index - {e.id}
  }

  /**
    The moves, entry by entry; `results[i]` is the outcome of entry i's write. Successful moves
    change the index, failed ones leave it and keep their entry queued.
   */
  function Drain(index: map<string, Value>, queue: seq<Entry>, results: seq<Outcome>): (r: (map<string, Value>, seq<Entry>))
    requires |results| == |queue| && DistinctIds(queue)
    ensures forall i :: 0 <= i < |queue| && results[i].Resolved? && Truthy(queue[i].flag) ==>
              queue[i].id in r.0 && r.0[queue[i].id] == Bool(true)
    ensures forall i :: 0 <= i < |queue| && results[i].Resolved? && !Truthy(queue[i].flag) ==>
              queue[i].id !in r.0
    ensures forall i :: 0 <= i < |queue| && results[i].Rejected? ==> Get(r.0, queue[i].id) == Get(index, queue[i].id)
    ensures forall k :: k !in Ids(queue) ==> Get(r.0, k) == Get(index, k)
    ensures forall e :: e in r.1 <==> exists i :: 0 <= i < |queue| && results[i].Rejected? && queue[i] == e
    decreases |queue|
  {
    if |queue| == 0 then (index, [])
    else
      var index1 := if results[0].Resolved? then Move(index, queue[0]) else index;
      assert DistinctIds(queue[1..]);
      var rest := Drain(index1, queue[1..], results[1..]);
      assert forall i :: 1 <= i < |queue| ==> queue[1..][i - 1] == queue[i] && results[1..][i - 1] == results[i];
      assert queue[0].id !in Ids(queue[1..]);
      (rest.0, if results[0].Rejected? then [queue[0]] + rest.1 else rest.1)
  }

  /**
    `processUserDataQueue`: the drain, and its promise, which resolves only if every move
    succeeded and otherwise rejects with the first failure (in queue order here).
   */
  function ProcessUserDataQueue(index: map<string, Value>, queue: seq<Entry>, results: seq<Outcome>): (d: Drained)
    requires |results| == |queue| && DistinctIds(queue)
    ensures d.outcome.Resolved? <==> d.remaining == []
    ensures d.outcome.Resolved? ==> forall i :: 0 <= i < |queue| ==>
              (Truthy(queue[i].flag) ==> Get(d.index, queue[i].id) == Some(Bool(true)))
              && (!Truthy(queue[i].flag) ==> queue[i].id !in d.index)
    ensures forall k :: k !in Ids(queue) ==> Get(d.index, k) == Get(index, k)
  {
    var (index', remaining) := Drain(index, queue, results);
    var outcome := JoinAll(results);
    assert remaining == [] <==> forall i :: 0 <= i < |results| ==> results[i].Resolved? by {
      if remaining != [] {
        assert remaining[0] in remaining;
      }
      if exists i :: 0 <= i < |results| && results[i].Rejected? {
        var i :| 0 <= i < |results| && results[i].Rejected?;
        assert queue[i] in remaining;
      }
    }
    Drained(index', remaining, outcome)
  }

  /**
    A record shared with another user and then taken away again leaves that user's queue with
    a false entry at the same path, and draining it leaves the user's index without the record.
   */
  lemma AddThenRemoveCancels(user: Option<User>, typeName: string, id: string, uid: string, index: map<string, Value>)
    requires uid != "" && id != "" && !Acting(user, uid)
    ensures AddWrite(user, typeName, uid, id).path == RemoveWrite(user, typeName, uid, id).path
              == ["users", uid, "dataQueue", typeName, id]
    ensures RemoveWrite(user, typeName, uid, id).op == SetFalse
    ensures var d := ProcessUserDataQueue(index, [Entry(id, Bool(false))], [Resolved]);
            id !in d.index && d.remaining == [] && d.outcome == Resolved
  {
  }

  /** A record shared with another user appears in that user's index once the queue drains. */
  lemma SharedRecordArrives(user: Option<User>, typeName: string, id: string, uid: string, index: map<string, Value>)
    requires uid != "" && id != "" && !Acting(user, uid)
    ensures AddWrite(user, typeName, uid, id) == UserWrite(uid, ["users", uid, "dataQueue", typeName, id], SetTrue)
    ensures var d := ProcessUserDataQueue(index, [Entry(id, Bool(true))], [Resolved]);
            Get(d.index, id) == Some(Bool(true)) && d.remaining == []
  {
  }
}
