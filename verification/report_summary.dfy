/** The income / expenses / net summary of the reports page: a reduce over
    the transaction list that sends `income` to one total and every other
    type to the other. */
module ReportSummary {
  import opened Views

  datatype Summary = Summary(totalIncome: real, totalExpenses: real, netAmount: real)

  const EMPTY := Summary(0.0, 0.0, 0.0)

  /** One reduce step; the net is recomputed after every transaction. */
  function Step(acc: Summary, t: TxView): Summary {
    var income := if t.kind == INCOME then acc.totalIncome + t.amount else acc.totalIncome;
    var expenses := if t.kind == INCOME then acc.totalExpenses else acc.totalExpenses + t.amount;
    Summary(income, expenses, income - expenses)
  }

  function Summarize(ts: seq<TxView>): Summary
    decreases |ts|
  {
    if |ts| == 0 then EMPTY else Step(Summarize(ts[..|ts| - 1]), ts[|ts| - 1])
  }

  /** The summary against the type-tested sums: income is the sum over
      `income` transactions, expenses the sum over all others (raw, so
      stored expenses count negative), the net their difference, and the
      two totals together the sum of all amounts. */
  lemma {:induction false} SummarizeTotals(ts: seq<TxView>)
    ensures Summarize(ts).totalIncome == Total(ts, IncomeOnly)
    ensures Summarize(ts).totalExpenses == Total(ts, NotIncome)
    ensures Summarize(ts).netAmount == Total(ts, IncomeOnly) - Total(ts, NotIncome)
    ensures Summarize(ts).totalIncome + Summarize(ts).totalExpenses == Total(ts, Any)
    decreases |ts|
  {
    if |ts| > 0 {
      SummarizeTotals(ts[..|ts| - 1]);
    }
    TotalSplits(ts);
  }

  /** The summary does not depend on the order of the transactions. */
  lemma SummarizeOrderFree(a: seq<TxView>, b: seq<TxView>)
    requires multiset(a) == multiset(b)
    ensures Summarize(a) == Summarize(b)
  {
    SummarizeTotals(a);
    SummarizeTotals(b);
    TotalPermutation(a, b, IncomeOnly);
    TotalPermutation(a, b, NotIncome);
  }
}
