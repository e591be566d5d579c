/**
  The browser-side values the mirror and its view glue pass around: a JSON-like
  value, JavaScript truthiness, property lookup, and the small failure-carrying
  wrappers the operations return instead of throwing or rejecting a promise.
  `undefined` is never a `Value`: an absent property is `None`.
 */
module Values {

  datatype Option<+T> = None | Some(value: T)

  /** A JSON-like value. Numbers are integers here (see README, "Left out"). */
  datatype Value =
    | Null
    | Bool(b: bool)
    | Num(n: int)
    | Str(s: string)
    | Arr(items: seq<Value>)
    | Obj(fields: map<string, Value>)

  /** JavaScript truthiness: null, false, 0 and "" are falsy; arrays and objects are truthy. */
  predicate Truthy(v: Value) {
    match v
    case Null => false
    case Bool(b) => b
    case Num(n) => n != 0
    case Str(s) => s != ""
    case Arr(_) => true
    case Obj(_) => true
  }

  /** Truthiness of a possibly undefined value: undefined is falsy. */
  predicate IsTruthy(o: Option<Value>) {
    o.Some? && Truthy(o.value)
  }

  /** Truthiness of a possibly undefined string. */
  predicate TruthyString(o: Option<string>) {
    o.Some? && o.value != ""
  }

  /** `angular.isObject`: a non-null value of type object (arrays included). */
  predicate IsObject(o: Option<Value>) {
    o.Some? && (o.value.Obj? || o.value.Arr?)
  }

  /** Property lookup `o[k]`; only objects carry named properties in this model. */
  function Prop(o: Option<Value>, k: string): (r: Option<Value>)
    ensures r.Some? ==> o.Some? && o.value.Obj? && k in o.value.fields
  {
    if o.Some? && o.value.Obj? && k in o.value.fields then Some(o.value.fields[k]) else None
  }

  /** Lookup in a plain map standing for a JavaScript object. */
  function Get(m: map<string, Value>, k: string): Option<Value> {
    if k in m then Some(m[k]) else None
  }

  /** The outcome of an asynchronous step: resolved, or rejected with a reason. */
  datatype Outcome = Resolved | Rejected(reason: Value)

  /**
    `$q.all` over a list of settled sub-steps, listed in the order they settle:
    it resolves once every one resolved, and rejects with the reason of the first
    rejection otherwise.
   */
  function JoinAll(settled: seq<Outcome>): (r: Outcome)
    ensures r.Resolved? <==> forall i :: 0 <= i < |settled| ==> settled[i].Resolved?
    ensures r.Rejected? ==> exists i :: 0 <= i < |settled| && settled[i] == r
  {
    if |settled| == 0 then Resolved
    else if settled[0].Rejected? then settled[0]
    else
      var rest := JoinAll(settled[1..]);
      assert forall i :: 1 <= i < |settled| ==> settled[i] == settled[1..][i - 1];
      rest
  }
}
