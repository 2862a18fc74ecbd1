/** The group-by the client's charts and budget checks run over transaction
    lists: a `reduce` into a plain JS object used as a dictionary, with
    `acc[k] = (acc[k] || zero) + x` as the step. A JS object keeps its own
    string keys in insertion order, so the dictionary is an association
    list that starts empty. That holds for keys that are not property
    names inherited from `Object.prototype` (`toString`, `constructor`,
    `__proto__`, ...): for those, `acc[k]` starts as the inherited value
    rather than missing. The model covers only keys that are not inherited
    names. Category ids, and the month and day keys of the trend charts,
    are never inherited names. */
module GroupBy {
  import opened Wrappers

  /** A dictionary object: entries in insertion order. */
  type Dict<V> = seq<(string, V)>

  /** `Object.keys`. */
  function Keys<V>(d: Dict<V>): (r: seq<string>)
    ensures |r| == |d|
    ensures forall i :: 0 <= i < |d| ==> r[i] == d[i].0
  {
    if |d| == 0 then [] else [d[0].0] + Keys(d[1..])
  }

  /** `Object.values`. */
  function Values<V>(d: Dict<V>): (r: seq<V>)
    ensures |r| == |d|
    ensures forall i :: 0 <= i < |d| ==> r[i] == d[i].1
  {
    if |d| == 0 then [] else [d[0].1] + Values(d[1..])
  }

  predicate Distinct(ks: seq<string>) {
    forall i, j :: 0 <= i < j < |ks| ==> ks[i] != ks[j]
  }

  /** `d[k]`, with `undefined` as `None`. */
  function Get<V>(d: Dict<V>, k: string): (r: Option<V>)
    ensures r.Some? <==> k in Keys(d)
  {
    if |d| == 0 then None
    else if d[0].0 == k then Some(d[0].1)
    else Get(d[1..], k)
  }

  /** `d[k] = v`: an existing key keeps its place, a new key goes last. */
  function Put<V>(d: Dict<V>, k: string, v: V): (r: Dict<V>)
    ensures Keys(r) == if k in Keys(d) then Keys(d) else Keys(d) + [k]
    ensures Get(r, k) == Some(v)
    ensures forall k' :: k' != k ==> Get(r, k') == Get(d, k')
  {
    if |d| == 0 then [(k, v)]
    else if d[0].0 == k then [(k, v)] + d[1..]
    else [d[0]] + Put(d[1..], k, v)
  }

  /** One reduce step: `acc[k] = (acc[k] || zero) + x`. */
  function Add<V>(d: Dict<V>, k: string, x: V, zero: V, plus: (V, V) -> V): Dict<V> {
    Put(d, k, plus(Get(d, k).GetOr(zero), x))
  }

  /** The whole reduce, starting from `{}`: each item added to the bucket
      of its key, in list order. */
  function Group<T, V>(items: seq<T>, key: T -> string, val: T -> V, zero: V, plus: (V, V) -> V): (r: Dict<V>)
    ensures Distinct(Keys(r))
    decreases |items|
  {
    if |items| == 0 then []
    else
      var g := Group(items[..|items| - 1], key, val, zero, plus);
      var last := items[|items| - 1];
      var r := Add(g, key(last), val(last), zero, plus);
      assert Keys(r) == Keys(g) || (key(last) !in Keys(g) && Keys(r) == Keys(g) + [key(last)]);
      r
  }

  // ---------------------------------------------------------------------
  // Reference definitions

  /** Left fold of `plus` over the values of the items whose key is `k`. */
  function FoldKey<T, V>(items: seq<T>, key: T -> string, val: T -> V, zero: V, plus: (V, V) -> V, k: string): V
    decreases |items|
  {
    if |items| == 0 then zero
    else
      var acc := FoldKey(items[..|items| - 1], key, val, zero, plus, k);
      if key(items[|items| - 1]) == k then plus(acc, val(items[|items| - 1])) else acc
  }

  /** Left fold of `plus` over the values of all items. */
  function FoldAll<T, V>(items: seq<T>, val: T -> V, zero: V, plus: (V, V) -> V): V
    decreases |items|
  {
    if |items| == 0 then zero
    else plus(FoldAll(items[..|items| - 1], val, zero, plus), val(items[|items| - 1]))
  }

  /** `plus` over a list of values. */
  function FoldSeq<V>(xs: seq<V>, zero: V, plus: (V, V) -> V): V {
    if |xs| == 0 then zero else plus(xs[0], FoldSeq(xs[1..], zero, plus))
  }

  /** `zero` and `plus` form a commutative monoid, so sums may be regrouped. */
  ghost predicate CommutativeMonoid<V(!new)>(zero: V, plus: (V, V) -> V) {
    && (forall a :: plus(zero, a) == a)
    && (forall a, b :: plus(a, b) == plus(b, a))
    && (forall a, b, c :: plus(plus(a, b), c) == plus(a, plus(b, c)))
  }

  // ---------------------------------------------------------------------
  // The group-by against the references

  /** The key of every item, in list order. */
  function ItemKeys<T>(items: seq<T>, key: T -> string): (r: seq<string>)
    ensures |r| == |items|
    ensures forall i :: 0 <= i < |items| ==> r[i] == key(items[i])
    decreases |items|
  {
    if |items| == 0 then [] else ItemKeys(items[..|items| - 1], key) + [key(items[|items| - 1])]
  }

  /** The buckets are exactly the keys of the items: every item lands in
      the bucket of its own key and no bucket is empty. */
  lemma {:induction false} GroupKeys<T, V>(items: seq<T>, key: T -> string, val: T -> V, zero: V, plus: (V, V) -> V, k: string)
    ensures k in Keys(Group(items, key, val, zero, plus)) <==> k in ItemKeys(items, key)
    decreases |items|
  {
    if |items| > 0 {
      var init := items[..|items| - 1];
      var last := items[|items| - 1];
      var g := Group(init, key, val, zero, plus);
      assert Group(items, key, val, zero, plus) == Add(g, key(last), val(last), zero, plus);
      assert k in Keys(Group(items, key, val, zero, plus)) <==> k in Keys(g) || k == key(last);
      GroupKeys(init, key, val, zero, plus, k);
      assert ItemKeys(items, key) == ItemKeys(init, key) + [key(last)];
    }
  }

  lemma {:induction false} FoldKeyAbsent<T, V>(items: seq<T>, key: T -> string, val: T -> V, zero: V, plus: (V, V) -> V, k: string)
    requires k !in ItemKeys(items, key)
    ensures FoldKey(items, key, val, zero, plus, k) == zero
    decreases |items|
  {
    if |items| > 0 {
      var init := items[..|items| - 1];
      assert ItemKeys(items, key) == ItemKeys(init, key) + [key(items[|items| - 1])];
      FoldKeyAbsent(init, key, val, zero, plus, k);
    }
  }

  /** Each bucket holds the fold of exactly the items with its key. */
  lemma {:induction false} GroupGet<T, V>(items: seq<T>, key: T -> string, val: T -> V, zero: V, plus: (V, V) -> V, k: string)
    ensures var g := Group(items, key, val, zero, plus);
            Get(g, k) == if k in Keys(g) then Some(FoldKey(items, key, val, zero, plus, k)) else None
    decreases |items|
  {
    if |items| > 0 {
      var init := items[..|items| - 1];
      var g := Group(init, key, val, zero, plus);
      GroupGet(init, key, val, zero, plus, k);
      if key(items[|items| - 1]) == k && k !in Keys(g) {
        GroupKeys(init, key, val, zero, plus, k);
        FoldKeyAbsent(init, key, val, zero, plus, k);
      }
    }
  }

  /** Adding to a bucket adds to the sum of all buckets. */
  lemma {:induction false} AddSum<V(!new)>(d: Dict<V>, k: string, x: V, zero: V, plus: (V, V) -> V)
    requires CommutativeMonoid(zero, plus)
    ensures FoldSeq(Values(Add(d, k, x, zero, plus)), zero, plus) == plus(FoldSeq(Values(d), zero, plus), x)
    decreases |d|
  {
    var r := Add(d, k, x, zero, plus);
    if |d| == 0 {
      assert Values(r) == [plus(zero, x)];
      assert FoldSeq(Values(r), zero, plus) == plus(plus(zero, x), zero);
      assert plus(plus(zero, x), zero) == plus(zero, plus(zero, x));
    } else if d[0].0 == k {
      var v := d[0].1;
      var s1 := FoldSeq(Values(d[1..]), zero, plus);
      assert r == [(k, plus(v, x))] + d[1..];
      assert Values(r) == [plus(v, x)] + Values(d[1..]);
      assert Values(r)[1..] == Values(d[1..]);
      assert FoldSeq(Values(r), zero, plus) == plus(plus(v, x), s1);
      assert Values(d)[1..] == Values(d[1..]);
      assert FoldSeq(Values(d), zero, plus) == plus(v, s1);
      calc {
        plus(plus(v, x), s1);
        plus(v, plus(x, s1));
        { assert plus(x, s1) == plus(s1, x); }
        plus(v, plus(s1, x));
        plus(plus(v, s1), x);
      }
    } else {
      var rest := Add(d[1..], k, x, zero, plus);
      assert Get(d, k) == Get(d[1..], k);
      assert r == [d[0]] + rest;
      AddSum(d[1..], k, x, zero, plus);
      var v := d[0].1;
      var s1 := FoldSeq(Values(d[1..]), zero, plus);
      assert Values(r)[1..] == Values(rest);
      assert FoldSeq(Values(r), zero, plus) == plus(v, plus(s1, x));
      assert Values(d)[1..] == Values(d[1..]);
      assert FoldSeq(Values(d), zero, plus) == plus(v, s1);
    }
  }

  /** The buckets together hold every item once: their sum is the sum of
      all the items' values. */
  lemma {:induction false} GroupSum<T, V(!new)>(items: seq<T>, key: T -> string, val: T -> V, zero: V, plus: (V, V) -> V)
    requires CommutativeMonoid(zero, plus)
    ensures FoldSeq(Values(Group(items, key, val, zero, plus)), zero, plus) == FoldAll(items, val, zero, plus)
    decreases |items|
  {
    if |items| > 0 {
      var init := items[..|items| - 1];
      GroupSum(init, key, val, zero, plus);
      var last := items[|items| - 1];
      AddSum(Group(init, key, val, zero, plus), key(last), val(last), zero, plus);
    }
  }

  // ---------------------------------------------------------------------
  // Amounts

  function AddReal(a: real, b: real): real { a + b }

  lemma RealsMonoid()
    ensures CommutativeMonoid(0.0, AddReal)
  {
  }

  /** An income/expense pair, the bucket value of the trend charts. */
  datatype Flow = Flow(income: real, expense: real)

  const NO_FLOW := Flow(0.0, 0.0)

  function AddFlow(a: Flow, b: Flow): Flow {
    Flow(a.income + b.income, a.expense + b.expense)
  }

  lemma FlowsMonoid()
    ensures CommutativeMonoid(NO_FLOW, AddFlow)
  {
  }

  /** With distinct keys, looking up the i-th key finds the i-th value. */
  lemma {:induction false} GetAt<V>(d: Dict<V>, i: nat)
    requires Distinct(Keys(d)) && i < |d|
    ensures Get(d, d[i].0) == Some(d[i].1)
    decreases i
  {
    if i > 0 {
      assert Keys(d)[0] != Keys(d)[i];
      assert Keys(d[1..]) == Keys(d)[1..];
      GetAt(d[1..], i - 1);
    }
  }

  /** `labels.map(k => d[k].income)` and `.expense(s)`: the two series of a
      trend chart. */
  function Incomes(vs: seq<Flow>): (r: seq<real>)
    ensures |r| == |vs| && forall i :: 0 <= i < |vs| ==> r[i] == vs[i].income
  {
    if |vs| == 0 then [] else [vs[0].income] + Incomes(vs[1..])
  }

  function Expenses(vs: seq<Flow>): (r: seq<real>)
    ensures |r| == |vs| && forall i :: 0 <= i < |vs| ==> r[i] == vs[i].expense
  {
    if |vs| == 0 then [] else [vs[0].expense] + Expenses(vs[1..])
  }

  /** Each series sums to its side of the summed pairs. */
  lemma {:induction false} SeriesSums(vs: seq<Flow>)
    ensures FoldSeq(Incomes(vs), 0.0, AddReal) == FoldSeq(vs, NO_FLOW, AddFlow).income
    ensures FoldSeq(Expenses(vs), 0.0, AddReal) == FoldSeq(vs, NO_FLOW, AddFlow).expense
    decreases |vs|
  {
    if |vs| > 0 {
      SeriesSums(vs[1..]);
      assert Incomes(vs)[1..] == Incomes(vs[1..]);
      assert Expenses(vs)[1..] == Expenses(vs[1..]);
    }
  }
}
