/**
  The stock view's "Generate Purchase Order" action: products below their low-stock level
  are flagged, those with suppliers become order lines, the supplier names are collected
  once each, and the order lines are grouped under the name of their first supplier.
 */
module Stock {
  import opened Values

  datatype Supplier = Supplier(name: string)

  /**
    A product record. Missing numbers are None; `suppliers` is None when the product has no
    (truthy) supplier list and the list otherwise, possibly empty.
   */
  datatype Product = Product(
    id: string,
    name: string,
    upc: string,
    stock: Option<int>,
    lowStock: Option<int>,
    minOrder: Option<int>,
    suppliers: Option<seq<Supplier>>,
    stockAlert: Option<int>)

  /** One line of the generated order. */
  datatype Order = Order(name: string, id: string, upc: string, minOrder: Option<int>, supplier: seq<Supplier>)

  /** `stock < lowStock`; a comparison with a missing number is false. */
  predicate Low(p: Product) {
    p.stock.Some? && p.lowStock.Some? && p.stock.value < p.lowStock.value
  }

  /** Every low product's alert is set to its minimum order; the rest are left as they are. */
  function MarkAlerts(products: seq<Product>): (r: seq<Product>)
    ensures |r| == |products|
    ensures forall i :: 0 <= i < |products| && Low(products[i]) ==>
              r[i] == products[i].(stockAlert := products[i].minOrder)
    ensures forall i :: 0 <= i < |products| && !Low(products[i]) ==> r[i] == products[i]
  {
    seq(|products|, i requires 0 <= i < |products| =>
      if Low(products[i]) then products[i].(stockAlert := products[i].minOrder) else products[i])
  }

  /** The order line for a product that has a supplier list. */
  function OrderOf(p: Product): (o: Order)
    requires p.suppliers.Some?
    ensures o.id == p.id && o.supplier == p.suppliers.value
  {
    Order(p.name, p.id, p.upc, p.minOrder, p.suppliers.value)
  }

  /** Should the product be ordered: it is low and has a supplier list, even an empty one. */
  predicate Ordered(p: Product) {
    Low(p) && p.suppliers.Some?
  }

  /** The generated order: one line per low product that has suppliers, in product order. */
  function GeneratedOrder(products: seq<Product>): (r: seq<Order>)
    ensures |r| <= |products|
    ensures forall i :: 0 <= i < |products| && Ordered(products[i]) ==> OrderOf(products[i]) in r
    ensures forall o :: o in r ==> exists i :: 0 <= i < |products| && Ordered(products[i]) && o == OrderOf(products[i])
  {
    if |products| == 0 then []
    else
      var rest := GeneratedOrder(products[1..]);
      assert forall i :: 1 <= i < |products| ==> products[i] == products[1..][i - 1];
      (if Ordered(products[0]) then [OrderOf(products[0])] else []) + rest
  }

  /** Lines keep the products' order: the order for two lists of products is the two orders in turn. */
  lemma {:induction false} GeneratedOrderAppend(a: seq<Product>, b: seq<Product>)
    ensures GeneratedOrder(a + b) == GeneratedOrder(a) + GeneratedOrder(b)
    decreases |a|
  {
    if |a| > 0 {
      assert (a + b)[0] == a[0];
      assert (a + b)[1..] == a[1..] + b;
      GeneratedOrderAppend(a[1..], b);
    } else {
      assert a + b == b;
    }
  }

  // ---------------------------------------------------------------------------
  // The supplier list

  /** Some line of the order has a supplier named `x`. */
  ghost predicate Supplied(orders: seq<Order>, x: string) {
    exists i, k :: 0 <= i < |orders| && 0 <= k < |orders[i].supplier| && orders[i].supplier[k].name == x
  }

  /** The names of a supplier list, in order. */
  function SupplierNames(sup: seq<Supplier>): (r: seq<string>)
    ensures |r| == |sup|
    ensures forall k :: 0 <= k < |sup| ==> r[k] == sup[k].name
  {
    seq(|sup|, k requires 0 <= k < |sup| => sup[k].name)
  }

  /** Every supplier name of the order lines, line by line, in list order. */
  function Names(orders: seq<Order>): (r: seq<string>)
    ensures |orders| > 0 ==> r == SupplierNames(orders[0].supplier) + Names(orders[1..])
  {
    if |orders| == 0 then [] else SupplierNames(orders[0].supplier) + Names(orders[1..])
  }

  /** The names listed are exactly the suppliers of the lines. */
  lemma {:induction false} NamesMembers(orders: seq<Order>)
    ensures forall x :: x in Names(orders) <==> Supplied(orders, x)
    decreases |orders|
  {
    if |orders| > 0 {
      NamesMembers(orders[1..]);
      var here := SupplierNames(orders[0].supplier);
      forall x | x in Names(orders) ensures Supplied(orders, x) {
        if x in here {
          var k :| 0 <= k < |here| && here[k] == x;
          assert orders[0].supplier[k].name == x;
        } else {
          assert Supplied(orders[1..], x);
          var i, k :| 0 <= i < |orders[1..]| && 0 <= k < |orders[1..][i].supplier| && orders[1..][i].supplier[k].name == x;
          assert orders[i + 1].supplier[k].name == x;
        }
      }
      forall x | Supplied(orders, x) ensures x in Names(orders) {
        var i, k :| 0 <= i < |orders| && 0 <= k < |orders[i].supplier| && orders[i].supplier[k].name == x;
        if i == 0 {
          assert here[k] == x;
        } else {
          assert orders[1..][i - 1].supplier[k].name == x;
          assert Supplied(orders[1..], x);
        }
      }
    }
  }

  /** The position of the first occurrence of `x` in `s`. */
  function FirstIndex(s: seq<string>, x: string): (i: nat)
    requires x in s
    ensures i < |s| && s[i] == x
    ensures forall k :: 0 <= k < i ==> s[k] != x
  {
    if s[0] == x then 0 else 1 + FirstIndex(s[1..], x)
  }

  ghost predicate Distinct(s: seq<string>) {
    forall i, j :: 0 <= i < j < |s| ==> s[i] != s[j]
  }

  /** Each element of `s` once, keeping the last place's element only when it is new. */
  function Dedupe(s: seq<string>): (r: seq<string>)
    ensures Distinct(r)
    ensures forall x :: x in r <==> x in s
  {
    if |s| == 0 then []
    else
      var d := Dedupe(s[..|s| - 1]);
      var x := s[|s| - 1];
      assert forall y :: y in s <==> y in s[..|s| - 1] || y == x;
      if x in d then d else d + [x]
  }

  /** The kept elements appear in the order of their first occurrences. */
  lemma {:induction false} DedupeFirstSeen(s: seq<string>)
    ensures forall i, j :: 0 <= i < j < |Dedupe(s)| ==> FirstIndex(s, Dedupe(s)[i]) < FirstIndex(s, Dedupe(s)[j])
    decreases |s|
  {
    if |s| > 0 {
      var init := s[..|s| - 1];
      var x := s[|s| - 1];
      var d := Dedupe(init);
      DedupeFirstSeen(init);
      FirstIndexInPrefix(s);
      assert forall k :: 0 <= k < |d| ==> d[k] in init;
      if x !in d {
        var r := d + [x];
        assert x !in init;
        assert FirstIndex(s, x) == |s| - 1;
        forall i, j | 0 <= i < j < |r| ensures FirstIndex(s, r[i]) < FirstIndex(s, r[j]) {
          assert r[i] == d[i] && r[i] in init;
          if j < |d| {
            assert r[j] == d[j] && r[j] in init;
          }
        }
      }
    }
  }

  /** An element of all but the last place first appears where it first appears there. */
  lemma FirstIndexInPrefix(s: seq<string>)
    requires |s| > 0
    ensures forall y :: y in s[..|s| - 1] ==> FirstIndex(s, y) == FirstIndex(s[..|s| - 1], y)
  {
    forall y | y in s[..|s| - 1] ensures FirstIndex(s, y) == FirstIndex(s[..|s| - 1], y) {
      FirstIndexDropLast(s, y);
    }
  }

  /** `FirstIndexInPrefix` for one element, by induction on the sequence. */
  lemma {:induction false} FirstIndexDropLast(s: seq<string>, y: string)
    requires |s| > 0 && y in s[..|s| - 1]
    ensures FirstIndex(s, y) == FirstIndex(s[..|s| - 1], y)
    decreases |s|
  {
    var init := s[..|s| - 1];
    assert init[0] == s[0];
    if s[0] != y {
      var tail := s[1..];
      assert init[1..] == tail[..|tail| - 1];
      assert y in init[1..];
      FirstIndexDropLast(tail, y);
    }
  }

  /** The supplier list: the supplier names of the order, once each. */
  function SupplierList(orders: seq<Order>): (r: seq<string>)
    ensures Distinct(r)
    ensures forall x :: x in r <==> x in Names(orders)
  {
    Dedupe(Names(orders))
  }

  /**
    Every supplier name of the order appears in the supplier list exactly once and nothing
    else does, in the order the names are first seen.
   */
  lemma SupplierListExact(orders: seq<Order>)
    ensures Distinct(SupplierList(orders))
    ensures forall x :: x in SupplierList(orders) <==> Supplied(orders, x)
    ensures forall i, j :: 0 <= i < j < |SupplierList(orders)| ==>
              FirstIndex(Names(orders), SupplierList(orders)[i]) < FirstIndex(Names(orders), SupplierList(orders)[j])
  {
    NamesMembers(orders);
    DedupeFirstSeen(Names(orders));
  }

  /** A line's first supplier is on the supplier list. */
  lemma FirstSupplierListed(orders: seq<Order>, i: int)
    requires 0 <= i < |orders| && |orders[i].supplier| > 0
    ensures orders[i].supplier[0].name in SupplierList(orders)
  {
    NamesMembers(orders);
    assert Supplied(orders, orders[i].supplier[0].name);
  }

  // ---------------------------------------------------------------------------
  // Grouping by first supplier

  /** The action's result: a TypeError, the previous result left in place, or the buckets by supplier name. */
  datatype GroupResult = Crashed | Unchanged | Grouped(buckets: map<string, seq<Order>>)

  /** The order lines whose first supplier is `n`, in order. */
  function Bucket(orders: seq<Order>, n: string): (r: seq<Order>)
    ensures forall o :: o in r ==> o in orders && |o.supplier| > 0 && o.supplier[0].name == n
    ensures forall i :: 0 <= i < |orders| && |orders[i].supplier| > 0 && orders[i].supplier[0].name == n ==> orders[i] in r
  {
    if |orders| == 0 then []
    else
      var last := orders[|orders| - 1];
      var init := orders[..|orders| - 1];
      var r := Bucket(init, n);
      assert forall i :: 0 <= i < |orders| - 1 ==> orders[i] == init[i];
      if |last.supplier| > 0 && last.supplier[0].name == n then r + [last] else r
  }

  /**
    The grouping the action evidently intends: with no supplier names there is nothing to
    group and the previous result stays; otherwise every name gets a bucket holding the
    lines whose first supplier carries that name. Lines with an empty supplier list are
    in no bucket.
   */
  /** Each listed name mapped to its lines. */
  function BucketMap(orders: seq<Order>, list: seq<string>): (r: map<string, seq<Order>>)
    ensures forall n :: n in r <==> n in list
  {
    map n | n in list :: Bucket(orders, n)
  }

  function IntendedGrouping(orders: seq<Order>): (r: GroupResult)
    ensures r != Crashed
    ensures r == Unchanged <==> SupplierList(orders) == []
    ensures r.Grouped? ==> forall n :: n in r.buckets <==> n in SupplierList(orders)
  {
    var list := SupplierList(orders);
    if |list| == 0 then Unchanged
    else Grouped(BucketMap(orders, list))
  }

  /** The loop state of the grouping as written: the buckets so far, and whether any line was pushed. */
  datatype Pass = Pass(buckets: map<string, seq<Order>>, pushed: bool)

  /** A name's bucket, or the empty bucket when the name has none yet. */
  function BucketOr(b: map<string, seq<Order>>, n: string): seq<Order> {
    if n in b then b[n] else []
  }

  /** The bucket for `n` is made if missing (`supplierResults[n] = []`). */
  function MakeBucket(b: map<string, seq<Order>>, n: string): (r: map<string, seq<Order>>)
    ensures n in r && r.Keys == b.Keys + {n}
    ensures forall m :: BucketOr(r, m) == BucketOr(b, m)
  {
    if n in b then b else b[n := []]
  }

  /** One comparison of the inner loop, for a line with a supplier: pushed onto `n`'s bucket on a match. */
  function Visit(o: Order, n: string, p: Pass): (r: Pass)
    requires |o.supplier| > 0 && n in p.buckets
    ensures r.buckets.Keys == p.buckets.Keys
    ensures forall m :: BucketOr(r.buckets, m) == BucketOr(p.buckets, m) + (if m == n && n == o.supplier[0].name then [o] else [])
    ensures r.pushed <==> p.pushed || n == o.supplier[0].name
  {
    if o.supplier[0].name == n then Pass(p.buckets[n := p.buckets[n] + [o]], true) else p
  }

  /**
    The inner loop as written, for line `o`, from the `j`-th name on: the name's bucket is
    made if missing, then the name of the line's first supplier is read and compared, and
    the line is pushed on a match. With an empty supplier list the read throws: None.
   */
  function InnerAsWritten(o: Order, list: seq<string>, j: nat, p: Pass): (r: Option<Pass>)
    requires j <= |list|
    decreases |list| - j
  {
    if j == |list| then Some(p)
    else
      var made := Pass(MakeBucket(p.buckets, list[j]), p.pushed);
      if |o.supplier| == 0 then None
      else InnerAsWritten(o, list, j + 1, Visit(o, list[j], made))
  }

  /** The outer loop as written: the inner loop for every line from the `i`-th on, stopping at a throw. */
  function OuterAsWritten(orders: seq<Order>, list: seq<string>, i: nat, p: Pass): (r: Option<Pass>)
    requires i <= |orders|
    decreases |orders| - i
  {
    if i == |orders| then Some(p)
    else
      match InnerAsWritten(orders[i], list, 0, p)
      case None => None
      case Some(q) => OuterAsWritten(orders, list, i + 1, q)
  }

  /**
    The grouping as written: both loops over the lines and the supplier names. A throw is
    `Crashed`; the result is published only by a push, so with nothing pushed the previous
    result stays. It throws exactly when there is a supplier name and some line's supplier
    list is empty; otherwise it is the intended grouping.
   */
  function GroupAsWritten(orders: seq<Order>): (r: GroupResult)
    ensures r == Crashed <==> SupplierList(orders) != [] && exists i :: 0 <= i < |orders| && orders[i].supplier == []
    ensures r != Crashed ==> r == IntendedGrouping(orders)
  {
    LoopsAsWritten(orders);
    match OuterAsWritten(orders, SupplierList(orders), 0, Pass(map[], false))
    case None => Crashed
    case Some(p) => if p.pushed then Grouped(p.buckets) else Unchanged
  }

  /** The inner loop reaches its end for a line with a supplier, and throws at once for one without. */
  lemma {:induction false} InnerThrowsIffEmpty(o: Order, list: seq<string>, j: nat, p: Pass)
    requires j <= |list|
    ensures InnerAsWritten(o, list, j, p).None? <==> j < |list| && |o.supplier| == 0
    decreases |list| - j
  {
    if j < |list| && |o.supplier| > 0 {
      InnerThrowsIffEmpty(o, list, j + 1, Visit(o, list[j], Pass(MakeBucket(p.buckets, list[j]), p.pushed)));
    }
  }

  /** The outer loop throws exactly when there is a name and a line from the `i`-th on has no supplier. */
  lemma {:induction false} OuterThrowsIffEmpty(orders: seq<Order>, list: seq<string>, i: nat, p: Pass)
    requires i <= |orders|
    ensures OuterAsWritten(orders, list, i, p).None?
            <==> |list| > 0 && exists k :: i <= k < |orders| && orders[k].supplier == []
    decreases |orders| - i
  {
    if i < |orders| {
      InnerThrowsIffEmpty(orders[i], list, 0, p);
      var q := InnerAsWritten(orders[i], list, 0, p);
      if q.Some? {
        OuterThrowsIffEmpty(orders, list, i + 1, q.value);
      }
    }
  }

  /**
    What one inner loop over names `j..` does to name `n`'s bucket, for a line with a
    supplier: `n` has a bucket if it had one or is among those names, and the line is
    appended to it when `n` is among them and is the line's first supplier.
   */
  lemma {:induction false} InnerEffect(o: Order, list: seq<string>, j: nat, p: Pass, n: string)
    requires j <= |list| && Distinct(list) && |o.supplier| > 0
    ensures var r := InnerAsWritten(o, list, j, p);
            && r.Some?
            && (n in r.value.buckets <==> n in p.buckets || n in list[j..])
            && BucketOr(r.value.buckets, n)
               == BucketOr(p.buckets, n) + (if n in list[j..] && n == o.supplier[0].name then [o] else [])
    decreases |list| - j
  {
    if j < |list| {
      var p' := Visit(o, list[j], Pass(MakeBucket(p.buckets, list[j]), p.pushed));
      InnerEffect(o, list, j + 1, p', n);
      SliceHead(list, j);
    }
  }

  /** The inner loop over names `j..` pushes iff the line's first supplier is among them. */
  lemma {:induction false} InnerPushes(o: Order, list: seq<string>, j: nat, p: Pass)
    requires j <= |list| && Distinct(list) && |o.supplier| > 0
    ensures var r := InnerAsWritten(o, list, j, p);
            r.Some? && (r.value.pushed <==> p.pushed || o.supplier[0].name in list[j..])
    decreases |list| - j
  {
    if j < |list| {
      var p' := Visit(o, list[j], Pass(MakeBucket(p.buckets, list[j]), p.pushed));
      InnerPushes(o, list, j + 1, p');
      SliceHead(list, j);
    }
  }

  /** A distinct list's slice from `j` is its `j`-th element followed by the rest, which omits that element. */
  lemma SliceHead(list: seq<string>, j: nat)
    requires j < |list| && Distinct(list)
    ensures forall m :: m in list[j..] <==> m == list[j] || m in list[j + 1..]
    ensures list[j] !in list[j + 1..]
  {
    assert list[j..] == [list[j]] + list[j + 1..];
    forall k | j + 1 <= k < |list| ensures list[k] != list[j] { }
  }

  /** The buckets and push flag after the first `i` lines, when no line so far lacks a supplier. */
  ghost predicate FiledAsWritten(orders: seq<Order>, list: seq<string>, i: int, p: Pass)
    requires 0 <= i <= |orders|
  {
    && (forall n :: n in p.buckets ==> n in list)
    && (i > 0 ==> forall n :: n in list ==> n in p.buckets)
    && (forall n :: n in list ==> BucketOr(p.buckets, n) == Bucket(orders[..i], n))
    && (p.pushed <==> i > 0)
  }

  /** Every line's first supplier is among the names. */
  ghost predicate FirstNamesListed(orders: seq<Order>, list: seq<string>) {
    forall k :: 0 <= k < |orders| && |orders[k].supplier| > 0 ==> orders[k].supplier[0].name in list
  }

  /** One outer iteration, seen from name `n`: its bucket after line `i` holds its lines up to `i`. */
  lemma OuterStepAt(orders: seq<Order>, list: seq<string>, i: int, p: Pass, n: string)
    requires 0 <= i < |orders| && |orders[i].supplier| > 0 && Distinct(list)
    requires orders[i].supplier[0].name in list
    requires (i > 0 ==> n in list ==> n in p.buckets) && (n in p.buckets ==> n in list)
    requires n in list ==> BucketOr(p.buckets, n) == Bucket(orders[..i], n)
    ensures var q := InnerAsWritten(orders[i], list, 0, p);
            && q.Some?
            && (n in q.value.buckets <==> n in list)
            && (n in list ==> BucketOr(q.value.buckets, n) == Bucket(orders[..i + 1], n))
  {
    assert list[0..] == list;
    InnerEffect(orders[i], list, 0, p, n);
    if n in list {
      BucketStep(orders, i, n);
    }
  }

  /** The names are distinct, every line has a supplier, and every line's first supplier is named. */
  ghost predicate Clean(orders: seq<Order>, list: seq<string>) {
    && Distinct(list)
    && (forall k :: 0 <= k < |orders| ==> |orders[k].supplier| > 0)
    && FirstNamesListed(orders, list)
  }

  /** One outer iteration keeps `FiledAsWritten`. */
  lemma OuterStep(orders: seq<Order>, list: seq<string>, i: int, p: Pass)
    requires 0 <= i < |orders| && Clean(orders, list)
    requires FiledAsWritten(orders, list, i, p)
    ensures InnerAsWritten(orders[i], list, 0, p).Some?
    ensures FiledAsWritten(orders, list, i + 1, InnerAsWritten(orders[i], list, 0, p).value)
  {
    assert list[0..] == list;
    InnerPushes(orders[i], list, 0, p);
    var q := InnerAsWritten(orders[i], list, 0, p).value;
    forall n
      ensures (n in q.buckets <==> n in list)
      ensures n in list ==> BucketOr(q.buckets, n) == Bucket(orders[..i + 1], n)
    {
      OuterStepAt(orders, list, i, p, n);
    }
  }

  /** The outer loop from the `i`-th line, when no line lacks a supplier, ends in the filed state. */
  lemma {:induction false} OuterFiles(orders: seq<Order>, list: seq<string>, i: int, p: Pass)
    requires 0 <= i <= |orders| && Clean(orders, list)
    requires FiledAsWritten(orders, list, i, p)
    ensures OuterAsWritten(orders, list, i, p).Some?
    ensures FiledAsWritten(orders, list, |orders|, OuterAsWritten(orders, list, i, p).value)
    decreases |orders| - i
  {
    if i < |orders| {
      OuterStep(orders, list, i, p);
      OuterFiles(orders, list, i + 1, InnerAsWritten(orders[i], list, 0, p).value);
    }
  }

  /** Buckets keyed by exactly the names, each holding its name's lines, are the grouping's map. */
  lemma MapOfBuckets(orders: seq<Order>, list: seq<string>, b: map<string, seq<Order>>)
    requires forall n :: n in b <==> n in list
    requires forall n :: n in b ==> b[n] == Bucket(orders, n)
    ensures b == BucketMap(orders, list)
  {
    var g := BucketMap(orders, list);
    assert b.Keys == g.Keys;
  }

  /** The filed state after every line, with at least one line, holds exactly each name's lines. */
  lemma FiledMap(orders: seq<Order>, list: seq<string>, p: Pass)
    requires |orders| > 0 && FiledAsWritten(orders, list, |orders|, p)
    ensures p.pushed && p.buckets == BucketMap(orders, list)
  {
    assert orders[..|orders|] == orders;
    forall n | n in p.buckets ensures p.buckets[n] == Bucket(orders, n) {
      assert BucketOr(p.buckets, n) == p.buckets[n];
    }
    MapOfBuckets(orders, list, p.buckets);
  }

  /** With no lines there is no supplier name. */
  lemma NoLinesNoNames(orders: seq<Order>)
    ensures |orders| == 0 ==> SupplierList(orders) == []
  {
    if |orders| == 0 {
      assert Names(orders) == [];
    }
  }

  /** The filed state after every line is the intended grouping. */
  lemma FiledIsIntended(orders: seq<Order>, p: Pass)
    requires SupplierList(orders) != []
    requires FiledAsWritten(orders, SupplierList(orders), |orders|, p)
    ensures p.pushed && Grouped(p.buckets) == IntendedGrouping(orders)
  {
    NoLinesNoNames(orders);
    FiledMap(orders, SupplierList(orders), p);
  }

  /** Without empty supplier lists, the names of the supplier list make a clean run. */
  lemma CleanWithoutEmptyLists(orders: seq<Order>)
    requires forall k :: 0 <= k < |orders| ==> |orders[k].supplier| > 0
    ensures Clean(orders, SupplierList(orders))
  {
    FirstNamesOnList(orders);
  }

  /** Every line's first supplier is on the supplier list. */
  lemma FirstNamesOnList(orders: seq<Order>)
    ensures FirstNamesListed(orders, SupplierList(orders))
  {
    forall k | 0 <= k < |orders| && |orders[k].supplier| > 0 ensures orders[k].supplier[0].name in SupplierList(orders) {
      FirstSupplierListed(orders, k);
    }
  }

  /** Without empty supplier lists and with some name, the loops build the intended grouping. */
  lemma LoopsGroup(orders: seq<Order>)
    requires SupplierList(orders) != []
    requires forall k :: 0 <= k < |orders| ==> |orders[k].supplier| > 0
    ensures var r := OuterAsWritten(orders, SupplierList(orders), 0, Pass(map[], false));
            r.Some? && r.value.pushed && Grouped(r.value.buckets) == IntendedGrouping(orders)
  {
    var list := SupplierList(orders);
    var p0 := Pass(map[], false);
    assert orders[..0] == [];
    assert FiledAsWritten(orders, list, 0, p0);
    CleanWithoutEmptyLists(orders);
    OuterFiles(orders, list, 0, p0);
    FiledIsIntended(orders, OuterAsWritten(orders, list, 0, p0).value);
  }

  /** The two loops as written throw, or leave the previous result, or build the intended grouping. */
  lemma LoopsAsWritten(orders: seq<Order>)
    ensures var list := SupplierList(orders);
            var r := OuterAsWritten(orders, list, 0, Pass(map[], false));
            && (r.None? <==> list != [] && exists i :: 0 <= i < |orders| && orders[i].supplier == [])
            && (r.Some? && !r.value.pushed ==> IntendedGrouping(orders) == Unchanged)
            && (r.Some? && r.value.pushed ==> IntendedGrouping(orders) == Grouped(r.value.buckets))
  {
    var list := SupplierList(orders);
    OuterThrowsIffEmpty(orders, list, 0, Pass(map[], false));
    if list == [] {
      OuterKeepsNoNames(orders, 0, Pass(map[], false));
    } else if forall k :: 0 <= k < |orders| ==> |orders[k].supplier| > 0 {
      LoopsGroup(orders);
    }
  }

  /** With no supplier names the loops change nothing. */
  lemma {:induction false} OuterKeepsNoNames(orders: seq<Order>, i: nat, p: Pass)
    requires i <= |orders|
    ensures OuterAsWritten(orders, [], i, p) == Some(p)
    decreases |orders| - i
  {
    if i < |orders| {
      OuterKeepsNoNames(orders, i + 1, p);
    }
  }

  /** Each line with a supplier lands in exactly one bucket: its first supplier's. */
  lemma EachLineInOneBucket(orders: seq<Order>, i: int)
    requires 0 <= i < |orders| && |orders[i].supplier| > 0
    ensures var g := IntendedGrouping(orders);
            g.Grouped? && orders[i].supplier[0].name in g.buckets && orders[i] in g.buckets[orders[i].supplier[0].name]
            && forall n :: n in g.buckets && orders[i] in g.buckets[n] ==> n == orders[i].supplier[0].name
  {
    FirstSupplierListed(orders, i);
  }

  /** `Bucket` grows one line at a time. */
  lemma BucketStep(orders: seq<Order>, i: int, n: string)
    requires 0 <= i < |orders|
    ensures Bucket(orders[..i + 1], n)
            == Bucket(orders[..i], n) + (if |orders[i].supplier| > 0 && orders[i].supplier[0].name == n then [orders[i]] else [])
  {
    assert orders[..i + 1][..i] == orders[..i];
  }

  /** The buckets after the first `i` lines: one per name of `list`, each holding its lines so far. */
  ghost predicate BucketsSoFar(orders: seq<Order>, list: seq<string>, i: int, buckets: map<string, seq<Order>>)
    requires 0 <= i <= |orders|
  {
    && (forall n :: n in buckets <==> n in list)
    && (forall n :: n in buckets ==> buckets[n] == Bucket(orders[..i], n))
  }

  /** One line filed: appended to its first supplier's bucket, or skipped when it has no supplier. */
  function File(buckets: map<string, seq<Order>>, o: Order): (r: map<string, seq<Order>>)
    requires |o.supplier| > 0 ==> o.supplier[0].name in buckets
    ensures r.Keys == buckets.Keys
    ensures forall n :: n in r ==> r[n] == buckets[n] + (if |o.supplier| > 0 && o.supplier[0].name == n then [o] else [])
  {
    if |o.supplier| > 0 then buckets[o.supplier[0].name := buckets[o.supplier[0].name] + [o]] else buckets
  }

  /** Filing line `i`, seen from name `n`: its bucket then holds its lines up to `i`. */
  lemma FileAt(orders: seq<Order>, i: int, buckets: map<string, seq<Order>>, n: string)
    requires 0 <= i < |orders| && n in buckets
    requires |orders[i].supplier| > 0 ==> orders[i].supplier[0].name in buckets
    requires buckets[n] == Bucket(orders[..i], n)
    ensures File(buckets, orders[i])[n] == Bucket(orders[..i + 1], n)
  {
    BucketStep(orders, i, n);
  }

  /** Filing one more line keeps the buckets as the lines so far dictate; its first supplier has a bucket. */
  lemma FileStep(orders: seq<Order>, list: seq<string>, i: int, buckets: map<string, seq<Order>>)
    requires 0 <= i < |orders| && FirstNamesListed(orders, list) && BucketsSoFar(orders, list, i, buckets)
    ensures |orders[i].supplier| > 0 ==> orders[i].supplier[0].name in buckets
    ensures BucketsSoFar(orders, list, i + 1, File(buckets, orders[i]))
  {
    var next := File(buckets, orders[i]);
    forall n | n in next ensures next[n] == Bucket(orders[..i + 1], n) {
      FileAt(orders, i, buckets, n);
    }
  }

  /** An empty bucket for every listed name. */
  function EmptyBuckets(list: seq<string>): (r: map<string, seq<Order>>)
    ensures forall n :: n in r <==> n in list
    ensures forall n :: n in r ==> r[n] == []
  {
    map n | n in list :: []
  }

  /**
    The grouping computed line by line, with empty supplier lists skipped: the buckets are
    made for every supplier name first, then each line is appended to its first supplier's.
   */
  method GroupByFirstSupplier(orders: seq<Order>) returns (r: GroupResult)
    ensures r == IntendedGrouping(orders)
  {
    var list := SupplierList(orders);
    if |list| == 0 {
      return Unchanged;
    }
    FirstNamesOnList(orders);
    var buckets := EmptyBuckets(list);
    BucketsStart(orders, list);
    var i := 0;
    while i < |orders|
      invariant 0 <= i <= |orders|
      invariant BucketsSoFar(orders, list, i, buckets)
    {
      FileStep(orders, list, i, buckets);
      buckets := File(buckets, orders[i]);
      i := i + 1;
    }
    BucketsDone(orders, buckets);
    r := Grouped(buckets);
  }

  /** Before any line is filed, every listed name has an empty bucket. */
  lemma BucketsStart(orders: seq<Order>, list: seq<string>)
    ensures BucketsSoFar(orders, list, 0, EmptyBuckets(list))
  {
    assert orders[..0] == [];
  }

  /** Once every line is filed, the buckets for a non-empty supplier list are the intended grouping. */
  lemma BucketsDone(orders: seq<Order>, buckets: map<string, seq<Order>>)
    requires SupplierList(orders) != []
    requires BucketsSoFar(orders, SupplierList(orders), |orders|, buckets)
    ensures Grouped(buckets) == IntendedGrouping(orders)
  {
    assert orders[..|orders|] == orders;
    MapOfBuckets(orders, SupplierList(orders), buckets);
  }

  // ---------------------------------------------------------------------------
  // The whole action

  /** Everything the action produces: the flagged products, the order, the supplier list and the grouping. */
  datatype PurchaseOrder = PurchaseOrder(products: seq<Product>, order: seq<Order>, suppliers: seq<string>, grouping: GroupResult)

  /**
    The action as written. It throws exactly when one ordered product has an empty supplier
    list and another has a supplier; everything but the grouping is as in the intended
    action, and without a throw the grouping is too.
   */
  function GeneratePurchaseOrderAsWritten(products: seq<Product>): (r: PurchaseOrder)
    ensures r.grouping == Crashed <==> EmptyListOrdered(products) && SupplierOrdered(products)
    ensures r == GeneratePurchaseOrder(products).(grouping := r.grouping)
    ensures r.grouping != Crashed ==> r == GeneratePurchaseOrder(products)
  {
    var order := GeneratedOrder(products);
    OrderEmptyLineIff(products);
    OrderSuppliedLineIff(products);
    NamesNonEmptyIff(order);
    PurchaseOrder(MarkAlerts(products), order, SupplierList(order), GroupAsWritten(order))
  }

  /** Some line has an empty supplier list. */
  predicate HasEmptyLine(order: seq<Order>) {
    exists k :: 0 <= k < |order| && order[k].supplier == []
  }

  /** Some line has a supplier. */
  predicate HasSuppliedLine(order: seq<Order>) {
    exists k :: 0 <= k < |order| && order[k].supplier != []
  }

  /** Some ordered product has an empty supplier list. */
  predicate EmptyListOrdered(products: seq<Product>) {
    exists i :: 0 <= i < |products| && Ordered(products[i]) && products[i].suppliers.value == []
  }

  /** Some ordered product has a supplier. */
  predicate SupplierOrdered(products: seq<Product>) {
    exists i :: 0 <= i < |products| && Ordered(products[i]) && products[i].suppliers.value != []
  }

  /** The order has a line without a supplier iff an ordered product has an empty supplier list. */
  lemma OrderEmptyLineIff(products: seq<Product>)
    ensures HasEmptyLine(GeneratedOrder(products)) <==> EmptyListOrdered(products)
  {
    if EmptyListOrdered(products) {
      EmptyProductGivesEmptyLine(products);
    }
    if HasEmptyLine(GeneratedOrder(products)) {
      EmptyLineFromProduct(products);
    }
  }

  lemma EmptyProductGivesEmptyLine(products: seq<Product>)
    requires EmptyListOrdered(products)
    ensures HasEmptyLine(GeneratedOrder(products))
  {
    var order := GeneratedOrder(products);
    var i :| 0 <= i < |products| && Ordered(products[i]) && products[i].suppliers.value == [];
    assert OrderOf(products[i]) in order;
    var k :| 0 <= k < |order| && order[k] == OrderOf(products[i]);
    assert order[k].supplier == [];
  }

  lemma EmptyLineFromProduct(products: seq<Product>)
    requires HasEmptyLine(GeneratedOrder(products))
    ensures EmptyListOrdered(products)
  {
    var order := GeneratedOrder(products);
    var k :| 0 <= k < |order| && order[k].supplier == [];
    assert order[k] in order;
    var i :| 0 <= i < |products| && Ordered(products[i]) && order[k] == OrderOf(products[i]);
    assert products[i].suppliers.value == [];
  }

  /** The order has a line with a supplier iff an ordered product has a non-empty supplier list. */
  lemma OrderSuppliedLineIff(products: seq<Product>)
    ensures HasSuppliedLine(GeneratedOrder(products)) <==> SupplierOrdered(products)
  {
    if SupplierOrdered(products) {
      SuppliedProductGivesLine(products);
    }
    if HasSuppliedLine(GeneratedOrder(products)) {
      SuppliedLineFromProduct(products);
    }
  }

  lemma SuppliedProductGivesLine(products: seq<Product>)
    requires SupplierOrdered(products)
    ensures HasSuppliedLine(GeneratedOrder(products))
  {
    var order := GeneratedOrder(products);
    var i :| 0 <= i < |products| && Ordered(products[i]) && products[i].suppliers.value != [];
    assert OrderOf(products[i]) in order;
    var k :| 0 <= k < |order| && order[k] == OrderOf(products[i]);
    assert order[k].supplier != [];
  }

  lemma SuppliedLineFromProduct(products: seq<Product>)
    requires HasSuppliedLine(GeneratedOrder(products))
    ensures SupplierOrdered(products)
  {
    var order := GeneratedOrder(products);
    var k :| 0 <= k < |order| && order[k].supplier != [];
    assert order[k] in order;
    var i :| 0 <= i < |products| && Ordered(products[i]) && order[k] == OrderOf(products[i]);
    assert products[i].suppliers.value != [];
  }

  /** The order names a supplier iff one of its lines has a supplier. */
  lemma {:induction false} NamesNonEmptyIff(order: seq<Order>)
    ensures SupplierList(order) != [] <==> HasSuppliedLine(order)
    decreases |order|
  {
    if Names(order) != [] {
      assert Names(order)[0] in SupplierList(order);
    }
    if |order| > 0 {
      NamesNonEmptyIff(order[1..]);
      assert forall k :: 1 <= k < |order| ==> order[k] == order[1..][k - 1];
      if HasSuppliedLine(order[1..]) {
        var k :| 0 <= k < |order[1..]| && order[1..][k].supplier != [];
        assert order[k + 1].supplier != [];
      }
    }
  }

  /** The action with empty supplier lists skipped when grouping. */
  function GeneratePurchaseOrder(products: seq<Product>): (r: PurchaseOrder)
    ensures r.order == GeneratedOrder(products)
    ensures r.grouping != Crashed
    ensures forall i :: 0 <= i < |products| && Ordered(products[i]) && products[i].suppliers.value != [] ==>
              r.grouping.Grouped? && products[i].suppliers.value[0].name in r.grouping.buckets
              && OrderOf(products[i]) in r.grouping.buckets[products[i].suppliers.value[0].name]
  {
    var order := GeneratedOrder(products);
    forall i | 0 <= i < |products| && Ordered(products[i]) && products[i].suppliers.value != []
      ensures var g := IntendedGrouping(order);
              g.Grouped? && products[i].suppliers.value[0].name in g.buckets
              && OrderOf(products[i]) in g.buckets[products[i].suppliers.value[0].name]
    {
      var k :| 0 <= k < |order| && order[k] == OrderOf(products[i]);
      EachLineInOneBucket(order, k);
    }
    PurchaseOrder(MarkAlerts(products), order, SupplierList(order), IntendedGrouping(order))
  }

  /**
    A low product whose supplier list is empty, next to one with a supplier, makes the
    action as written throw, where the intended grouping files the second product under
    its supplier.
   */
  lemma EmptySupplierListCrashes()
    ensures var ps := [Product("p1", "bolt", "1", Some(1), Some(5), Some(10), Some([Supplier("acme")]), None),
                       Product("p2", "nut", "2", Some(0), Some(5), Some(20), Some([]), None)];
            GeneratePurchaseOrderAsWritten(ps).grouping == Crashed
            && GeneratePurchaseOrder(ps).grouping.Grouped?
            && "acme" in GeneratePurchaseOrder(ps).grouping.buckets
  {
    var ps := [Product("p1", "bolt", "1", Some(1), Some(5), Some(10), Some([Supplier("acme")]), None),
               Product("p2", "nut", "2", Some(0), Some(5), Some(20), Some([]), None)];
    var order := GeneratedOrder(ps);
    assert Ordered(ps[0]) && Ordered(ps[1]);
    assert OrderOf(ps[0]) in order && OrderOf(ps[1]) in order;
    var k :| 0 <= k < |order| && order[k] == OrderOf(ps[1]);
    assert order[k].supplier == [];
    var j :| 0 <= j < |order| && order[j] == OrderOf(ps[0]);
    FirstSupplierListed(order, j);
  }

  /** When every ordered product has at least one supplier, the action as written and the intended one agree. */
  lemma AgreeWithoutEmptyLists(products: seq<Product>)
    requires forall i :: 0 <= i < |products| && Ordered(products[i]) ==> products[i].suppliers.value != []
    ensures GeneratePurchaseOrderAsWritten(products) == GeneratePurchaseOrder(products)
  {
    var order := GeneratedOrder(products);
    forall i | 0 <= i < |order| ensures order[i].supplier != [] {
      assert order[i] in order;
    }
  }
}
