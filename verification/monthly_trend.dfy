/** The monthly trend line chart of the reports page: income and expenses
    summed per month. `monthKey` is `format(startOfMonth(parseISO(date)),
    'MMM yyyy')`, a parameter of the model. */
module MonthlyTrend {
  import opened Views
  import opened GroupBy
  import opened Amounts

  datatype Trend = Trend(labels: seq<string>, income: seq<real>, expenses: seq<real>)

  /** What one transaction adds to its month: `income` to the income side,
      every other type (raw amount) to the expense side. */
  function TrendFlow(t: TxView): Flow {
    if t.kind == INCOME then Flow(t.amount, 0.0) else Flow(0.0, t.amount)
  }

  function MonthlyData(ts: seq<TxView>, monthKey: int -> string): Dict<Flow> {
    Group(ts, DateKey(monthKey), TrendFlow, NO_FLOW, AddFlow)
  }

  function Build(ts: seq<TxView>, monthKey: int -> string): (c: Trend)
    ensures |c.labels| == |c.income| == |c.expenses|
    ensures Distinct(c.labels)
  {
    var d := MonthlyData(ts, monthKey);
    Trend(Keys(d), Incomes(Values(d)), Expenses(Values(d)))
  }

  /** There is one month label per distinct month of the transactions. */
  lemma Labels(ts: seq<TxView>, monthKey: int -> string, m: string)
    ensures m in Build(ts, monthKey).labels <==> exists i :: 0 <= i < |ts| && monthKey(ts[i].date) == m
  {
    GroupKeys(ts, DateKey(monthKey), TrendFlow, NO_FLOW, AddFlow, m);
    var ks := ItemKeys(ts, DateKey(monthKey));
    assert forall i :: 0 <= i < |ts| ==> ks[i] == monthKey(ts[i].date);
  }

  /** Each month's pair is the fold over the transactions of that month. */
  lemma Point(ts: seq<TxView>, monthKey: int -> string, i: nat)
    requires i < |Build(ts, monthKey).labels|
    ensures var c := Build(ts, monthKey);
            Flow(c.income[i], c.expenses[i]) == FoldKey(ts, DateKey(monthKey), TrendFlow, NO_FLOW, AddFlow, c.labels[i])
  {
    Bucket(ts, DateKey(monthKey), TrendFlow, NO_FLOW, AddFlow, i);
  }

  lemma {:induction false} FoldTrendFlow(ts: seq<TxView>)
    ensures FoldAll(ts, TrendFlow, NO_FLOW, AddFlow) == Flow(Total(ts, IncomeOnly), Total(ts, NotIncome))
    decreases |ts|
  {
    if |ts| > 0 { FoldTrendFlow(ts[..|ts| - 1]); }
  }

  /** Summed over the months, the income series is the total income and
      the expense series the total of all other types. */
  lemma SeriesTotals(ts: seq<TxView>, monthKey: int -> string)
    ensures FoldSeq(Build(ts, monthKey).income, 0.0, AddReal) == Total(ts, IncomeOnly)
    ensures FoldSeq(Build(ts, monthKey).expenses, 0.0, AddReal) == Total(ts, NotIncome)
  {
    FlowsMonoid();
    GroupSum(ts, DateKey(monthKey), TrendFlow, NO_FLOW, AddFlow);
    FoldTrendFlow(ts);
    SeriesSums(Values(MonthlyData(ts, monthKey)));
  }
}
