/** The dashboard chart: the current month's transactions, income and
    expenses per day. `monthStart`/`monthEnd` bound the current month and
    `dayKey` is `format(date, 'MMM dd')`; all three are parameters. */
module TransactionCharts {
  import opened Views
  import opened GroupBy
  import opened Amounts

  datatype Series = Series(labels: seq<string>, income: seq<real>, expense: seq<real>)

  /** What one transaction adds to its day: raw `income`, and the absolute
      amount of every other type as expense. */
  function DayFlow(t: TxView): Flow {
    if t.kind == INCOME then Flow(t.amount, 0.0) else Flow(0.0, Abs(t.amount))
  }

  function Grouped(ts: seq<TxView>, monthStart: int, monthEnd: int, dayKey: int -> string): Dict<Flow> {
    Group(Select(ts, Dated(monthStart, monthEnd)), DateKey(dayKey), DayFlow, NO_FLOW, AddFlow)
  }

  function Build(ts: seq<TxView>, monthStart: int, monthEnd: int, dayKey: int -> string): (c: Series)
    ensures |c.labels| == |c.income| == |c.expense|
    ensures Distinct(c.labels)
  {
    var d := Grouped(ts, monthStart, monthEnd, dayKey);
    Series(Keys(d), Incomes(Values(d)), Expenses(Values(d)))
  }

  /** A day appears iff some transaction inside the month falls on it. */
  lemma Labels(ts: seq<TxView>, monthStart: int, monthEnd: int, dayKey: int -> string, day: string)
    ensures day in Build(ts, monthStart, monthEnd, dayKey).labels
        <==> exists t :: t in ts && monthStart <= t.date <= monthEnd && dayKey(t.date) == day
  {
    var p := Dated(monthStart, monthEnd);
    assert Build(ts, monthStart, monthEnd, dayKey).labels == Keys(Group(Select(ts, p), DateKey(dayKey), DayFlow, NO_FLOW, AddFlow));
    SelectedKeys(ts, p, DateKey(dayKey), DayFlow, NO_FLOW, AddFlow, day);
    if day in Build(ts, monthStart, monthEnd, dayKey).labels {
      var t :| t in ts && p.Selects(t) && DateKey(dayKey)(t) == day;
      assert monthStart <= t.date <= monthEnd && dayKey(t.date) == day;
    }
    if exists t :: t in ts && monthStart <= t.date <= monthEnd && dayKey(t.date) == day {
      var t :| t in ts && monthStart <= t.date <= monthEnd && dayKey(t.date) == day;
      assert p.Selects(t) && DateKey(dayKey)(t) == day;
    }
  }

  lemma {:induction false} DayExpenseNonNegative(items: seq<TxView>, key: TxView -> string, k: string)
    ensures FoldKey(items, key, DayFlow, NO_FLOW, AddFlow, k).expense >= 0.0
    decreases |items|
  {
    if |items| > 0 { DayExpenseNonNegative(items[..|items| - 1], key, k); }
  }

  /** Every point of the expense series is non-negative. */
  lemma ExpensesNonNegative(ts: seq<TxView>, monthStart: int, monthEnd: int, dayKey: int -> string, i: nat)
    requires i < |Build(ts, monthStart, monthEnd, dayKey).expense|
    ensures Build(ts, monthStart, monthEnd, dayKey).expense[i] >= 0.0
  {
    var sel := Select(ts, Dated(monthStart, monthEnd));
    var d := Grouped(ts, monthStart, monthEnd, dayKey);
    Bucket(sel, DateKey(dayKey), DayFlow, NO_FLOW, AddFlow, i);
    DayExpenseNonNegative(sel, DateKey(dayKey), d[i].0);
  }

  lemma {:induction false} FoldDayFlow(ts: seq<TxView>)
    ensures FoldAll(ts, DayFlow, NO_FLOW, AddFlow) == Flow(Total(ts, IncomeOnly), AbsTotal(ts, NotIncome))
    decreases |ts|
  {
    if |ts| > 0 { FoldDayFlow(ts[..|ts| - 1]); }
  }

  /** Over the days, income sums to the month's income and expense to the
      month's absolute non-income amounts. */
  lemma SeriesTotals(ts: seq<TxView>, monthStart: int, monthEnd: int, dayKey: int -> string)
    ensures var c := Build(ts, monthStart, monthEnd, dayKey);
            var month := Select(ts, Dated(monthStart, monthEnd));
            && FoldSeq(c.income, 0.0, AddReal) == Total(month, IncomeOnly)
            && FoldSeq(c.expense, 0.0, AddReal) == AbsTotal(month, NotIncome)
  {
    var month := Select(ts, Dated(monthStart, monthEnd));
    FlowsMonoid();
    GroupSum(month, DateKey(dayKey), DayFlow, NO_FLOW, AddFlow);
    FoldDayFlow(month);
    SeriesSums(Values(Grouped(ts, monthStart, monthEnd, dayKey)));
  }
}
