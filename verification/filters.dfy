/**
  The table filter builder: a filter description (type, field, value, second value,
  operand) becomes either a pattern object for the text filter, a per-row test for the
  number and select filters, or nothing. Rows are objects, looked up by field name.
 */
module Filters {
  import opened Values

  /** A filter as the table holds it; `kind` is its `type`, `model` the row field it tests. */
  datatype Filter = Filter(kind: Option<string>, model: string, value: Option<Value>, value2: Option<Value>, operand: Option<string>)

  /** What `filterArgs` returns: null, a `{field: value}` pattern, or one of the two row tests. */
  datatype Args = NoArgs | Pattern(field: string, value: Value) | NumberTest(f: Filter) | SelectTest(f: Filter)

  /**
    A row test's answer. `Thrown` is a TypeError raised while testing; `Coerced` marks a
    comparison that depends on JavaScript's implicit conversions, which this model leaves open.
   */
  datatype Answer = Yes | No | Thrown | Coerced

  function FromBool(b: bool): (a: Answer)
    ensures a.Yes? <==> b
    ensures a.Yes? || a.No?
  {
    if b then Yes else No
  }

  /** A value set, or exactly the number 0. */
  predicate PresentOrZero(v: Option<Value>) {
    IsTruthy(v) || v == Some(Num(0))
  }

  /** `filterArgs(filter)`. */
  function FilterArgs(f: Filter): (r: Args)
    ensures f.kind == Some("text") ==> (r.Pattern? <==> IsTruthy(f.value))
    ensures f.kind == Some("text") && IsTruthy(f.value) ==> r == Pattern(f.model, f.value.value)
    ensures f.kind == Some("number") ==> (r.NumberTest? <==> PresentOrZero(f.value))
    ensures f.kind == Some("select") ==> r == SelectTest(f)
    ensures f.kind !in {Some("text"), Some("number"), Some("select")} ==> r == NoArgs
    ensures r.NumberTest? ==> r.f == f && f.value.Some?
    ensures r.NoArgs? || r.Pattern? || r.f == f
  {
    if f.kind == Some("text") then
      if IsTruthy(f.value) then Pattern(f.model, f.value.value) else NoArgs
    else if f.kind == Some("number") then
      if PresentOrZero(f.value) then NumberTest(f) else NoArgs
    else if f.kind == Some("select") then SelectTest(f)
    else NoArgs
  }

  // ---------------------------------------------------------------------------
  // Comparisons

  /** The values whose strict equality does not depend on object identity. */
  predicate Scalar(v: Value) {
    v.Null? || v.Bool? || v.Num? || v.Str?
  }

  /**
    `===` on values. Arrays and objects compare by identity in the browser; values here carry
    none, so two of them are never strictly equal in this model.
   */
  predicate StrictEq(a: Value, b: Value) {
    Scalar(a) && a == b
  }

  /** `a <= b` when both are numbers; anything else goes through JavaScript's conversions. */
  function AtMost(a: Value, b: Value): (r: Answer)
    ensures a.Num? && b.Num? ==> r == FromBool(a.n <= b.n)
    ensures !(a.Num? && b.Num?) ==> r == Coerced
  {
    if a.Num? && b.Num? then FromBool(a.n <= b.n) else Coerced
  }

  /** JavaScript `x && y` on answers: a false left side decides without the right one. */
  function AndThen(x: Answer, y: Answer): (r: Answer)
    ensures x == No ==> r == No
    ensures x == Yes ==> r == y
  {
    if x == Yes then y else x
  }

  // ---------------------------------------------------------------------------
  // The number test

  /** The row's field, with a missing or falsy field read as 0. */
  function FieldOrZero(row: map<string, Value>, field: string): (v: Value)
    ensures Truthy(v) <==> IsTruthy(Get(row, field))
  {
    if IsTruthy(Get(row, field)) then row[field] else Num(0)
  }

  /**
    The number test on one row. A missing or zero field never matches; `<` tests at-most,
    `>` at-least, `><` the closed range up to `value2` when that is set or 0 (and equality
    when it is not), and `=` or any other operand strict equality.
   */
  function NumberMatch(f: Filter, row: map<string, Value>): (r: Answer)
    requires f.value.Some?
    ensures !IsTruthy(Get(row, f.model)) ==> r == No
    ensures forall a, b :: Get(row, f.model) == Some(Num(a)) && a != 0 && f.value == Some(Num(b)) ==>
              (f.operand == Some("<") ==> r == FromBool(a <= b))
              && (f.operand == Some(">") ==> r == FromBool(a >= b))
              && (f.operand !in {Some("<"), Some(">"), Some("><")} ==> r == FromBool(a == b))
    ensures forall a, b, c ::
              (Get(row, f.model) == Some(Num(a)) && a != 0 && f.value == Some(Num(b))
               && f.operand == Some("><") && f.value2 == Some(Num(c))) ==> r == FromBool(b <= a <= c)
    ensures r != Thrown
  {
    var modelValue := FieldOrZero(row, f.model);
    var filterValue := f.value.value;
    if !Truthy(modelValue) then No
    else if f.operand == Some("<") then AtMost(modelValue, filterValue)
    else if f.operand == Some(">") then AtMost(filterValue, modelValue)
    else if f.operand == Some("><") then
      if PresentOrZero(f.value2) then AndThen(AtMost(filterValue, modelValue), AtMost(modelValue, f.value2.value))
      else FromBool(StrictEq(modelValue, filterValue))
    else FromBool(StrictEq(modelValue, filterValue))
  }

  /** The same filter with another operand. */
  function WithOperand(f: Filter, op: string): (g: Filter)
    ensures g.operand == Some(op) && g.value == f.value && g.model == f.model && g.value2 == f.value2
  {
    f.(operand := Some(op))
  }

  /**
    On numbers the range operand is the conjunction of the two bound operands: at least
    `value`, and at most `value2`.
   */
  lemma RangeIsBothBounds(f: Filter, row: map<string, Value>, b: int, c: int)
    requires f.value == Some(Num(b)) && f.value2 == Some(Num(c))
    requires Get(row, f.model).Some? && Get(row, f.model).value.Num?
    ensures NumberMatch(WithOperand(f, "><"), row) == Yes
            <==> NumberMatch(WithOperand(f, ">"), row) == Yes
                 && NumberMatch(WithOperand(f.(value := Some(Num(c))), "<"), row) == Yes
  {
  }

  /** `=` and an unrecognised operand test the same thing, and so does `><` without a second value. */
  lemma EqualityOperandsAgree(f: Filter, row: map<string, Value>, op: string)
    requires f.value.Some? && op !in {"<", ">", "><"}
    ensures NumberMatch(WithOperand(f, op), row) == NumberMatch(WithOperand(f, "="), row)
    ensures !PresentOrZero(f.value2) ==> NumberMatch(WithOperand(f, "><"), row) == NumberMatch(WithOperand(f, "="), row)
  {
  }

  // ---------------------------------------------------------------------------
  // The select test

  /** `items.indexOf(v)`: the first strictly equal position, or -1. */
  function IndexOfValue(items: seq<Value>, v: Value): (i: int)
    ensures -1 <= i < |items|
    ensures i >= 0 ==> StrictEq(items[i], v) && forall j :: 0 <= j < i ==> !StrictEq(items[j], v)
    ensures i == -1 <==> forall j :: 0 <= j < |items| ==> !StrictEq(items[j], v)
  {
    if |items| == 0 then -1
    else if StrictEq(items[0], v) then 0
    else
      var k := IndexOfValue(items[1..], v);
      assert forall j :: 1 <= j < |items| ==> items[1..][j - 1] == items[j];
      if k == -1 then -1 else k + 1
  }

  predicate SubstringAt(s: string, t: string, i: int) {
    0 <= i && i + |t| <= |s| && s[i..i + |t|] == t
  }

  /** `s.indexOf(t)`: the first position where `t` occurs in `s`, or -1. */
  function IndexOfString(s: string, t: string): (i: int)
    ensures -1 <= i <= |s|
    ensures i >= 0 ==> SubstringAt(s, t, i) && forall j :: 0 <= j < i ==> !SubstringAt(s, t, j)
    ensures i == -1 <==> forall j :: 0 <= j <= |s| ==> !SubstringAt(s, t, j)
    decreases |s|
  {
    if |t| > |s| then -1
    else if s[..|t|] == t then 0
    else
      var k := IndexOfString(s[1..], t);
      SubstringShift(s, t);
      if k == -1 then -1 else k + 1
  }

  /** Dropping the first character shifts every occurrence one place to the left. */
  lemma SubstringShift(s: string, t: string)
    requires |s| > 0
    ensures forall j :: 1 <= j <= |s| ==> (SubstringAt(s, t, j) <==> SubstringAt(s[1..], t, j - 1))
  {
    forall j | 1 <= j <= |s|
      ensures SubstringAt(s, t, j) <==> SubstringAt(s[1..], t, j - 1)
    {
      if j + |t| <= |s| {
        assert s[1..][j - 1..j - 1 + |t|] == s[j..j + |t|];
      }
    }
  }

  /** What `angular.forEach` visits in the selection: array items, object values, or a string's characters. */
  function Selected(v: Option<Value>): (r: set<Value>)
    ensures v.Some? && v.value.Arr? ==> forall x :: x in r <==> x in v.value.items
    ensures v.Some? && v.value.Str? ==> forall x :: x in r <==> exists i :: 0 <= i < |v.value.s| && x == Str([v.value.s[i]])
    ensures v.None? || v.value.Null? || v.value.Bool? || v.value.Num? ==> r == {}
  {
    if v.None? then {}
    else match v.value
      case Arr(items) => set x | x in items
      case Obj(fields) => fields.Values
      case Str(s) => set i | 0 <= i < |s| :: Str([s[i]])
      case _ => {}
  }

  /**
    The select test on one row. A falsy field never matches. An array field matches when one
    of the selected values occurs in it. Any other field is looked up in the selection with
    `indexOf`, which throws unless the selection is an array or a string; in a string the
    lookup is a substring search.
   */
  function SelectMatch(f: Filter, row: map<string, Value>): (r: Answer)
    ensures !IsTruthy(Get(row, f.model)) ==> r == No
    ensures IsTruthy(Get(row, f.model)) && Get(row, f.model).value.Arr? ==>
              (r == Yes <==> exists c :: c in Selected(f.value) && IndexOfValue(Get(row, f.model).value.items, c) != -1)
    ensures IsTruthy(Get(row, f.model)) && !Get(row, f.model).value.Arr? && !(f.value.Some? && (f.value.value.Arr? || f.value.value.Str?)) ==>
              r == Thrown
  {
    var modelValue := Get(row, f.model);
    if !IsTruthy(modelValue) then No
    else if modelValue.value.Arr? then
      FromBool(exists c :: c in Selected(f.value) && IndexOfValue(modelValue.value.items, c) != -1)
    else if f.value.Some? && f.value.value.Arr? then
      FromBool(IndexOfValue(f.value.value.items, modelValue.value) != -1)
    else if f.value.Some? && f.value.value.Str? then
      if modelValue.value.Str? then FromBool(IndexOfString(f.value.value.s, modelValue.value.s) != -1)
      else Coerced
    else Thrown
  }

  /** A scalar field matches an array selection exactly when it is one of the selected values. */
  lemma ScalarFieldInSelection(f: Filter, row: map<string, Value>)
    requires IsTruthy(Get(row, f.model)) && Scalar(Get(row, f.model).value)
    requires f.value.Some? && f.value.value.Arr?
    ensures SelectMatch(f, row) == Yes <==> Get(row, f.model).value in f.value.value.items
  {
    var items := f.value.value.items;
    var mv := Get(row, f.model).value;
    if mv in items {
      var j :| 0 <= j < |items| && items[j] == mv;
      assert StrictEq(items[j], mv);
    }
  }

  /**
    An array field matches an array selection of scalars exactly when the two share a value;
    the test is symmetric in which side lists which values.
   */
  lemma ArrayFieldSharesValue(f: Filter, row: map<string, Value>)
    requires IsTruthy(Get(row, f.model)) && Get(row, f.model).value.Arr?
    requires f.value.Some? && f.value.value.Arr?
    requires forall x :: x in f.value.value.items ==> Scalar(x)
    ensures SelectMatch(f, row) == Yes
            <==> exists x :: x in f.value.value.items && x in Get(row, f.model).value.items
  {
    var items := Get(row, f.model).value.items;
    var sel := f.value.value.items;
    if exists x :: x in sel && x in items {
      var x :| x in sel && x in items;
      var j :| 0 <= j < |items| && items[j] == x;
      assert StrictEq(items[j], x);
      assert x in Selected(f.value);
    }
    if SelectMatch(f, row) == Yes {
      var c :| c in Selected(f.value) && IndexOfValue(items, c) != -1;
      assert c in sel && c in items;
    }
  }

  /** A string field matches a string selection exactly when it occurs in it. */
  lemma StringFieldInStringSelection(f: Filter, row: map<string, Value>, t: string)
    requires Get(row, f.model) == Some(Str(t)) && t != ""
    requires f.value.Some? && f.value.value.Str?
    ensures SelectMatch(f, row) == Yes <==> exists j :: 0 <= j <= |f.value.value.s| && SubstringAt(f.value.value.s, t, j)
  {
  }
}
