/** The bucket values and keys the client's group-bys use on transactions,
    and how their folds relate to the plain sums of `Views`. */
module Amounts {
  import opened Views
  import opened GroupBy

  function Amount(t: TxView): real { t.amount }

  function AbsAmount(t: TxView): real { Abs(t.amount) }

  /** A key computed from the transaction's date (`format(date, …)`). */
  function DateKey(f: int -> string): TxView -> string {
    (t: TxView) => f(t.date)
  }

  lemma {:induction false} FoldAmount(ts: seq<TxView>)
    ensures FoldAll(ts, Amount, 0.0, AddReal) == Total(ts, Any)
    decreases |ts|
  {
    if |ts| > 0 { FoldAmount(ts[..|ts| - 1]); }
  }

  lemma {:induction false} FoldAbsAmount(ts: seq<TxView>)
    ensures FoldAll(ts, AbsAmount, 0.0, AddReal) == AbsTotal(ts, Any)
    decreases |ts|
  {
    if |ts| > 0 { FoldAbsAmount(ts[..|ts| - 1]); }
  }

  /** Summing the buckets of a group-by of amounts gives the plain sum. */
  lemma GroupedAmounts(ts: seq<TxView>, key: TxView -> string)
    ensures FoldSeq(Values(Group(ts, key, Amount, 0.0, AddReal)), 0.0, AddReal) == Total(ts, Any)
  {
    RealsMonoid();
    GroupSum(ts, key, Amount, 0.0, AddReal);
    FoldAmount(ts);
  }

  lemma GroupedAbsAmounts(ts: seq<TxView>, key: TxView -> string)
    ensures FoldSeq(Values(Group(ts, key, AbsAmount, 0.0, AddReal)), 0.0, AddReal) == AbsTotal(ts, Any)
  {
    RealsMonoid();
    GroupSum(ts, key, AbsAmount, 0.0, AddReal);
    FoldAbsAmount(ts);
  }

  /** A bucket of a group-by is the fold over the items with its key. */
  lemma Bucket<V>(items: seq<TxView>, key: TxView -> string, val: TxView -> V, zero: V, plus: (V, V) -> V, i: nat)
    requires i < |Group(items, key, val, zero, plus)|
    ensures var d := Group(items, key, val, zero, plus);
            d[i].1 == FoldKey(items, key, val, zero, plus, d[i].0)
  {
    var d := Group(items, key, val, zero, plus);
    GetAt(d, i);
    GroupGet(items, key, val, zero, plus, d[i].0);
    assert d[i].0 == Keys(d)[i];
  }

  /** Every key of a filtered list comes from a selected transaction. */
  lemma SelectedKeyOrigin(ts: seq<TxView>, p: Pick, key: TxView -> string, k: string)
    requires k in ItemKeys(Select(ts, p), key)
    ensures exists t :: t in ts && p.Selects(t) && key(t) == k
  {
    var sel := Select(ts, p);
    var j :| 0 <= j < |sel| && ItemKeys(sel, key)[j] == k;
    var t := sel[j];
    assert key(t) == k;
  }

  /** Every selected transaction contributes its key to the filtered list. */
  lemma SelectedKeyListed(ts: seq<TxView>, p: Pick, key: TxView -> string, t: TxView)
    requires t in ts && p.Selects(t)
    ensures key(t) in ItemKeys(Select(ts, p), key)
  {
    var sel := Select(ts, p);
    var j :| 0 <= j < |sel| && sel[j] == t;
    assert ItemKeys(sel, key)[j] == key(t);
  }

  /** The keys of a group-by over a filtered list are the keys of the
      selected transactions. */
  lemma SelectedKeys<V>(ts: seq<TxView>, p: Pick, key: TxView -> string, val: TxView -> V, zero: V, plus: (V, V) -> V, k: string)
    ensures k in Keys(Group(Select(ts, p), key, val, zero, plus))
        <==> exists t :: t in ts && p.Selects(t) && key(t) == k
  {
    GroupKeys(Select(ts, p), key, val, zero, plus, k);
    if k in ItemKeys(Select(ts, p), key) {
      SelectedKeyOrigin(ts, p, key, k);
    }
    if exists t :: t in ts && p.Selects(t) && key(t) == k {
      var t :| t in ts && p.Selects(t) && key(t) == k;
      SelectedKeyListed(ts, p, key, t);
    }
  }
}
