/** `calculateTotals` of the report table: the reverse split of the
    summary, sending exactly `expense` to the expense total and every other
    type to income. */
module ReportTable {
  import opened Views
  import ReportSummary

  datatype Totals = Totals(totalIncome: real, totalExpenses: real)

  function CalculateTotals(ts: seq<TxView>): Totals
    decreases |ts|
  {
    if |ts| == 0 then Totals(0.0, 0.0)
    else
      var acc := CalculateTotals(ts[..|ts| - 1]);
      var t := ts[|ts| - 1];
      if t.kind == EXPENSE then acc.(totalExpenses := acc.totalExpenses + t.amount)
      else acc.(totalIncome := acc.totalIncome + t.amount)
  }

  /** The net line of the table. */
  function Net(totals: Totals): real {
    totals.totalIncome - totals.totalExpenses
  }

  lemma {:induction false} ExpenseTotal(ts: seq<TxView>)
    ensures CalculateTotals(ts).totalExpenses == Total(ts, ExpenseOnly)
    decreases |ts|
  {
    if |ts| > 0 {
      ExpenseTotal(ts[..|ts| - 1]);
    }
  }

  lemma {:induction false} IncomeTotal(ts: seq<TxView>)
    ensures CalculateTotals(ts).totalIncome == Total(ts, NotExpense)
    decreases |ts|
  {
    if |ts| > 0 {
      IncomeTotal(ts[..|ts| - 1]);
    }
  }

  /** The totals against the type-tested sums, and their net. */
  lemma TotalsMeaning(ts: seq<TxView>)
    ensures CalculateTotals(ts).totalExpenses == Total(ts, ExpenseOnly)
    ensures CalculateTotals(ts).totalIncome == Total(ts, NotExpense)
    ensures CalculateTotals(ts).totalIncome + CalculateTotals(ts).totalExpenses == Total(ts, Any)
    ensures Net(CalculateTotals(ts)) == Total(ts, NotExpense) - Total(ts, ExpenseOnly)
  {
    ExpenseTotal(ts);
    IncomeTotal(ts);
    TotalSplits(ts);
  }

  /** When every transaction is `income` or `expense` (as the schema
      enforces) the table and the summary agree. */
  lemma {:induction false} AgreesWithSummary(ts: seq<TxView>)
    requires forall i :: 0 <= i < |ts| ==> ts[i].kind == INCOME || ts[i].kind == EXPENSE
    ensures CalculateTotals(ts).totalIncome == ReportSummary.Summarize(ts).totalIncome
    ensures CalculateTotals(ts).totalExpenses == ReportSummary.Summarize(ts).totalExpenses
    decreases |ts|
  {
    if |ts| > 0 {
      AgreesWithSummary(ts[..|ts| - 1]);
    }
  }

  /** Any other type splits the two apart: the summary counts it as an
      expense, the table as income. */
  lemma OtherTypeDisagrees(t: TxView)
    requires t.kind != INCOME && t.kind != EXPENSE && t.amount != 0.0
    ensures CalculateTotals([t]).totalIncome == t.amount
    ensures ReportSummary.Summarize([t]).totalIncome == 0.0
    ensures ReportSummary.Summarize([t]).totalExpenses == t.amount
  {
    assert [t][..0] == [];
  }
}
