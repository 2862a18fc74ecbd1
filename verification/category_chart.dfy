/** The pie chart of the reports page: the transactions of one type,
    summed per category name. */
module CategoryChart {
  import opened Views
  import opened GroupBy
  import opened Amounts

  datatype Chart = Chart(labels: seq<string>, data: seq<real>)

  /** `categoryTotals`: the reduce keyed by `category?.name || 'Uncategorized'`
      over the transactions whose type is `kind`. A category name is free
      text, so it can be an inherited `Object.prototype` name, and the
      reduce is modelled only for names that are not. */
  function CategoryTotals(ts: seq<TxView>, kind: string): Dict<real> {
    Group(Select(ts, KindIs(kind)), CategoryLabel, Amount, 0.0, AddReal)
  }

  /** `Object.keys` and `Object.values` of the totals: aligned, distinct,
      non-empty labels. */
  function Build(ts: seq<TxView>, kind: string): (c: Chart)
    ensures |c.labels| == |c.data|
    ensures Distinct(c.labels)
    ensures forall i :: 0 <= i < |c.labels| ==> c.labels[i] != ""
  {
    var d := CategoryTotals(ts, kind);
    BucketLabelsNonEmpty(ts, kind);
    Chart(Keys(d), Values(d))
  }

  lemma BucketLabelsNonEmpty(ts: seq<TxView>, kind: string)
    ensures forall i :: 0 <= i < |CategoryTotals(ts, kind)| ==> CategoryTotals(ts, kind)[i].0 != ""
  {
    var d := CategoryTotals(ts, kind);
    forall i | 0 <= i < |d| ensures d[i].0 != "" {
      SelectedKeys(ts, KindIs(kind), CategoryLabel, Amount, 0.0, AddReal, d[i].0);
      assert Keys(d)[i] == d[i].0;
    }
  }

  /** A label appears iff some transaction of that type carries it. */
  lemma Labels(ts: seq<TxView>, kind: string, name: string)
    ensures name in Build(ts, kind).labels <==> exists t :: t in ts && t.kind == kind && CategoryLabel(t) == name
  {
    var p := KindIs(kind);
    assert Build(ts, kind).labels == Keys(Group(Select(ts, p), CategoryLabel, Amount, 0.0, AddReal));
    SelectedKeys(ts, p, CategoryLabel, Amount, 0.0, AddReal, name);
    if name in Build(ts, kind).labels {
      var t :| t in ts && p.Selects(t) && CategoryLabel(t) == name;
      assert t.kind == kind;
    }
    if exists t :: t in ts && t.kind == kind && CategoryLabel(t) == name {
      var t :| t in ts && t.kind == kind && CategoryLabel(t) == name;
      assert p.Selects(t);
    }
  }

  /** Each slice is the sum of the amounts of that type under its label. */
  lemma Slice(ts: seq<TxView>, kind: string, i: nat)
    requires i < |Build(ts, kind).labels|
    ensures Build(ts, kind).data[i]
         == FoldKey(Select(ts, KindIs(kind)), CategoryLabel, Amount, 0.0, AddReal, Build(ts, kind).labels[i])
  {
    Bucket(Select(ts, KindIs(kind)), CategoryLabel, Amount, 0.0, AddReal, i);
  }

  /** The slices add up to the sum of the amounts of that type. */
  lemma SlicesSum(ts: seq<TxView>, kind: string)
    ensures FoldSeq(Build(ts, kind).data, 0.0, AddReal) == Total(ts, KindIs(kind))
  {
    GroupedAmounts(Select(ts, KindIs(kind)), CategoryLabel);
    SelectTotal(ts, KindIs(kind));
  }
}
