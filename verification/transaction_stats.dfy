/** The statistics card of the transactions page: all-time and current
    month totals, and the largest transaction. `monthStart` and `monthEnd`
    are the bounds of the current month, computed from the clock. */
module TransactionStats {
  import opened Views

  datatype Largest = Largest(amount: real, description: string, kind: string)

  /** The initial `largestTransaction`. */
  const NO_LARGEST := Largest(0.0, "", "")

  datatype Stats = Stats(
    totalIncome: real,
    totalExpenses: real,
    monthlyIncome: real,
    monthlyExpenses: real,
    largest: Largest)

  const EMPTY := Stats(0.0, 0.0, 0.0, 0.0, NO_LARGEST)

  function Step(acc: Stats, t: TxView, monthStart: int, monthEnd: int): Stats {
    var current := monthStart <= t.date <= monthEnd;
    var acc1 :=
      if t.kind == INCOME then
        acc.(totalIncome := acc.totalIncome + t.amount,
             monthlyIncome := if current then acc.monthlyIncome + t.amount else acc.monthlyIncome)
      else
        acc.(totalExpenses := acc.totalExpenses + t.amount,
             monthlyExpenses := if current then acc.monthlyExpenses + t.amount else acc.monthlyExpenses);
    if t.amount > acc1.largest.amount then acc1.(largest := Largest(t.amount, t.description, t.kind)) else acc1
  }

  /** One step adds the amount to exactly one total, and to the matching
      monthly figure when the date lies in the month. */
  lemma StepTotals(acc: Stats, t: TxView, monthStart: int, monthEnd: int)
    ensures var r := Step(acc, t, monthStart, monthEnd);
            var inMonth := monthStart <= t.date <= monthEnd;
            && r.totalIncome == acc.totalIncome + (if IncomeOnly.Selects(t) then t.amount else 0.0)
            && r.monthlyIncome == acc.monthlyIncome + (if IncomeOnly.Selects(t) && inMonth then t.amount else 0.0)
            && r.totalExpenses == acc.totalExpenses + (if NotIncome.Selects(t) then t.amount else 0.0)
            && r.monthlyExpenses == acc.monthlyExpenses + (if NotIncome.Selects(t) && inMonth then t.amount else 0.0)
  {
  }

  function Compute(ts: seq<TxView>, monthStart: int, monthEnd: int): Stats
    decreases |ts|
  {
    if |ts| == 0 then EMPTY else Step(Compute(ts[..|ts| - 1], monthStart, monthEnd), ts[|ts| - 1], monthStart, monthEnd)
  }

  lemma {:induction false} IncomeTotals(ts: seq<TxView>, monthStart: int, monthEnd: int)
    ensures Compute(ts, monthStart, monthEnd).totalIncome == Total(ts, IncomeOnly)
    ensures Compute(ts, monthStart, monthEnd).monthlyIncome == Total(Select(ts, Dated(monthStart, monthEnd)), IncomeOnly)
    decreases |ts|
  {
    if |ts| > 0 {
      var init := ts[..|ts| - 1];
      var t := ts[|ts| - 1];
      IncomeTotals(init, monthStart, monthEnd);
      StepTotals(Compute(init, monthStart, monthEnd), t, monthStart, monthEnd);
      var w := Select(init, Dated(monthStart, monthEnd));
      if monthStart <= t.date <= monthEnd {
        assert Select(ts, Dated(monthStart, monthEnd)) == w + [t];
        TotalSnoc(w, t, IncomeOnly);
      } else {
        assert Select(ts, Dated(monthStart, monthEnd)) == w;
      }
    }
  }

  lemma {:induction false} ExpenseTotals(ts: seq<TxView>, monthStart: int, monthEnd: int)
    ensures Compute(ts, monthStart, monthEnd).totalExpenses == Total(ts, NotIncome)
    ensures Compute(ts, monthStart, monthEnd).monthlyExpenses == Total(Select(ts, Dated(monthStart, monthEnd)), NotIncome)
    decreases |ts|
  {
    if |ts| > 0 {
      var init := ts[..|ts| - 1];
      var t := ts[|ts| - 1];
      ExpenseTotals(init, monthStart, monthEnd);
      StepTotals(Compute(init, monthStart, monthEnd), t, monthStart, monthEnd);
      var w := Select(init, Dated(monthStart, monthEnd));
      if monthStart <= t.date <= monthEnd {
        assert Select(ts, Dated(monthStart, monthEnd)) == w + [t];
        TotalSnoc(w, t, NotIncome);
      } else {
        assert Select(ts, Dated(monthStart, monthEnd)) == w;
      }
    }
  }

  /** The totals are the type-tested sums, and the monthly totals are the
      part of them dated inside the month: what is left over is exactly the
      sum over the transactions outside it. */
  lemma TotalsMeaning(ts: seq<TxView>, monthStart: int, monthEnd: int)
    ensures var s := Compute(ts, monthStart, monthEnd);
            && s.totalIncome == Total(ts, IncomeOnly)
            && s.totalExpenses == Total(ts, NotIncome)
            && s.totalIncome == s.monthlyIncome + Total(Select(ts, Undated(monthStart, monthEnd)), IncomeOnly)
            && s.totalExpenses == s.monthlyExpenses + Total(Select(ts, Undated(monthStart, monthEnd)), NotIncome)
  {
    IncomeTotals(ts, monthStart, monthEnd);
    ExpenseTotals(ts, monthStart, monthEnd);
    WindowSplit(ts, monthStart, monthEnd, IncomeOnly);
    WindowSplit(ts, monthStart, monthEnd, NotIncome);
  }

  /** The largest amount is max(0, every amount). */
  lemma {:induction false} LargestBounds(ts: seq<TxView>, monthStart: int, monthEnd: int)
    ensures Compute(ts, monthStart, monthEnd).largest.amount >= 0.0
    ensures forall i :: 0 <= i < |ts| ==> ts[i].amount <= Compute(ts, monthStart, monthEnd).largest.amount
    decreases |ts|
  {
    if |ts| > 0 {
      var init := ts[..|ts| - 1];
      LargestBounds(init, monthStart, monthEnd);
      assert forall i :: 0 <= i < |init| ==> ts[i] == init[i];
    }
  }

  /** The largest record is that of the first transaction reaching the
      maximum (a strict `>` keeps the earliest of equal amounts), or the
      empty record when no amount is positive. Returns its index, or -1. */
  lemma {:induction false} LargestIsFirstMaximum(ts: seq<TxView>, monthStart: int, monthEnd: int) returns (i: int)
    ensures -1 <= i < |ts|
    ensures var l := Compute(ts, monthStart, monthEnd).largest;
            && (i == -1 ==> l == NO_LARGEST && forall j :: 0 <= j < |ts| ==> ts[j].amount <= 0.0)
            && (i >= 0 ==> && l == Largest(ts[i].amount, ts[i].description, ts[i].kind)
                           && ts[i].amount > 0.0
                           && forall j :: 0 <= j < i ==> ts[j].amount < ts[i].amount)
    decreases |ts|
  {
    if |ts| == 0 {
      i := -1;
    } else {
      var init := ts[..|ts| - 1];
      var t := ts[|ts| - 1];
      var k := LargestIsFirstMaximum(init, monthStart, monthEnd);
      LargestBounds(init, monthStart, monthEnd);
      var prev := Compute(init, monthStart, monthEnd).largest;
      assert forall j :: 0 <= j < |init| ==> ts[j] == init[j];
      if t.amount > prev.amount {
        i := |ts| - 1;
      } else {
        i := k;
      }
    }
  }
}
