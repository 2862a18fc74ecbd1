/** The periodic budget check of the client (`checkBudget`): the month's
    expense total against the monthly limit, and the per-category expense
    totals against the category limits, each classified as exceeded,
    warning, or nothing. The toasts themselves and their de-duplication by
    toast id are presentation. */
module BudgetAlert {
  import opened Wrappers
  import opened Views
  import opened GroupBy
  import opened Amounts
  import Ledger
  import Invariants

  datatype Level = Exceeded | Warning

  /** The two-tier rule, for the month and for each category: nothing when
      the limit is 0 (falsy), exceeded above the limit, warning above 90% of
      it. */
  function Classify(spent: real, limit: real): (r: Option<Level>)
    ensures r == Some(Exceeded) <==> limit != 0.0 && spent > limit
    ensures r == Some(Warning) <==> limit != 0.0 && spent <= limit && 10.0 * spent > 9.0 * limit
    ensures r == None <==> limit == 0.0 || (spent <= limit && 10.0 * spent <= 9.0 * limit)
  {
    if limit != 0.0 && spent > limit then Some(Exceeded)
    else if limit != 0.0 && spent > limit * 0.9 then Some(Warning)
    else None
  }

  function Rank(l: Option<Level>): nat {
    match l
    case None => 0
    case Some(Warning) => 1
    case Some(Exceeded) => 2
  }

  /** Spending exactly 90% of a positive limit raises nothing. */
  lemma NinetyPercentIsQuiet(limit: real)
    requires limit > 0.0
    ensures Classify(limit * 0.9, limit) == None
    ensures Classify(limit, limit) == Some(Warning)
  {
  }

  /** Against a positive limit, spending more never lowers the level. */
  lemma ClassifyMonotone(s1: real, s2: real, limit: real)
    requires limit > 0.0 && s1 <= s2
    ensures Rank(Classify(s1, limit)) <= Rank(Classify(s2, limit))
  {
  }

  /** `monthlyExpenses`: the raw `Number(t.amount)` of the expenses, summed
      with `reduce` after `filter`; no absolute value is taken. */
  function MonthlyExpenses(ts: seq<TxView>): real {
    FoldAll(Select(ts, ExpenseOnly), Amount, 0.0, AddReal)
  }

  lemma MonthlyExpensesTotal(ts: seq<TxView>)
    ensures MonthlyExpenses(ts) == Total(ts, ExpenseOnly)
  {
    FoldAmount(Select(ts, ExpenseOnly));
    SelectTotal(ts, ExpenseOnly);
  }

  /** One entry of `categoryExpenses`: the running spend and the name of
      the category as the latest transaction carries it. */
  datatype Spend = Spend(spent: real, name: string)

  const NO_SPEND: Spend := Spend(0.0, "")

  /** `t.category._id`. */
  function CategoryId(t: TxView): string {
    match t.category
    case Some(c) => c.id
    case None => ""
  }

  function SpendOf(t: TxView): Spend {
    match t.category
    case Some(c) => Spend(t.amount, c.name)
    case None => Spend(t.amount, "")
  }

  /** `{ spent: (prev?.spent || 0) + amount, name }`. */
  function AddSpend(acc: Spend, x: Spend): Spend {
    Spend(acc.spent + x.spent, x.name)
  }

  /** `categoryExpenses`, over the expenses that have a category. */
  function CategoryExpenses(ts: seq<TxView>): Dict<Spend> {
    Group(Select(ts, ExpenseWithCategory), CategoryId, SpendOf, NO_SPEND, AddSpend)
  }

  lemma {:induction false} SpendIsAmountFold(items: seq<TxView>, k: string)
    ensures FoldKey(items, CategoryId, SpendOf, NO_SPEND, AddSpend, k).spent
         == FoldKey(items, CategoryId, Amount, 0.0, AddReal, k)
    decreases |items|
  {
    if |items| > 0 { SpendIsAmountFold(items[..|items| - 1], k); }
  }

  /** The categories with recorded spend are those some expense carries. */
  lemma CategorySpendKeys(ts: seq<TxView>, c: string)
    ensures c in Keys(CategoryExpenses(ts))
        <==> exists t :: t in ts && t.kind == EXPENSE && t.category.Some? && t.category.value.id == c
  {
    var p := ExpenseWithCategory;
    assert CategoryExpenses(ts) == Group(Select(ts, p), CategoryId, SpendOf, NO_SPEND, AddSpend);
    SelectedKeys(ts, p, CategoryId, SpendOf, NO_SPEND, AddSpend, c);
    if c in Keys(CategoryExpenses(ts)) {
      var t :| t in ts && p.Selects(t) && CategoryId(t) == c;
      KeyedExpense(t, c);
    }
    if exists t :: t in ts && t.kind == EXPENSE && t.category.Some? && t.category.value.id == c {
      var t :| t in ts && t.kind == EXPENSE && t.category.Some? && t.category.value.id == c;
      KeyedExpense(t, c);
    }
  }

  lemma KeyedExpense(t: TxView, c: string)
    ensures ExpenseWithCategory.Selects(t) && CategoryId(t) == c
        <==> t.kind == EXPENSE && t.category.Some? && t.category.value.id == c
  {
  }

  /** A category has an entry iff some expense carries it, and its spend is
      the sum of the raw amounts of those expenses. */
  lemma CategorySpend(ts: seq<TxView>, c: string)
    ensures Get(CategoryExpenses(ts), c).Some?
        <==> exists t :: t in ts && t.kind == EXPENSE && t.category.Some? && t.category.value.id == c
    ensures Get(CategoryExpenses(ts), c).Some? ==>
      Get(CategoryExpenses(ts), c).value.spent
        == FoldKey(Select(ts, ExpenseWithCategory), CategoryId, Amount, 0.0, AddReal, c)
  {
    var p := ExpenseWithCategory;
    var sel := Select(ts, p);
    var g := Group(sel, CategoryId, SpendOf, NO_SPEND, AddSpend);
    assert CategoryExpenses(ts) == g;
    GroupGet(sel, CategoryId, SpendOf, NO_SPEND, AddSpend, c);
    SpendIsAmountFold(sel, c);
    CategorySpendKeys(ts, c);
  }

  /** What `checkBudget` reports: at most one monthly alert, and at most one
      alert per configured category limit, in the order of the limits. */
  datatype Alerts = Alerts(monthly: Option<Level>, categories: seq<Option<Level>>)

  /** The level for one `{ categoryId, limit }`: nothing unless the
      category has recorded spend and the limit is non-zero. */
  function LimitLevel(spend: Dict<Spend>, cl: Ledger.CategoryLimit): (r: Option<Level>)
    ensures Get(spend, cl.categoryId).None? ==> r == None
    ensures cl.limit == 0.0 ==> r == None
    ensures Get(spend, cl.categoryId).Some? ==> r == Classify(Get(spend, cl.categoryId).value.spent, cl.limit)
  {
    match Get(spend, cl.categoryId)
    case None => None
    case Some(e) => if cl.limit != 0.0 then Classify(e.spent, cl.limit) else None
  }

  function LimitLevels(spend: Dict<Spend>, limits: seq<Ledger.CategoryLimit>): (r: seq<Option<Level>>)
    ensures |r| == |limits|
    ensures forall i :: 0 <= i < |limits| ==> r[i] == LimitLevel(spend, limits[i])
    decreases |limits|
  {
    if |limits| == 0 then [] else LimitLevels(spend, limits[..|limits| - 1]) + [LimitLevel(spend, limits[|limits| - 1])]
  }

  /** `checkBudget` on the fetched transactions and settings. */
  function Check(ts: seq<TxView>, setting: Ledger.BudgetSetting): (r: Alerts)
    ensures r.monthly == Classify(Total(ts, ExpenseOnly), setting.monthlyLimit)
    ensures |r.categories| == |setting.categoryLimits|
    ensures forall i :: 0 <= i < |r.categories| ==>
      r.categories[i] == LimitLevel(CategoryExpenses(ts), setting.categoryLimits[i])
  {
    MonthlyExpensesTotal(ts);
    Alerts(
      Classify(MonthlyExpenses(ts), setting.monthlyLimit),
      if |setting.categoryLimits| > 0 then LimitLevels(CategoryExpenses(ts), setting.categoryLimits) else [])
  }

  // ---------------------------------------------------------------------
  // Against the stored signs

  /** Every expense in the list has a non-positive amount. */
  predicate ExpensesNonPositive(ts: seq<TxView>) {
    forall i :: 0 <= i < |ts| ==> ts[i].kind == EXPENSE ==> ts[i].amount <= 0.0
  }

  lemma {:induction false} ExpenseTotalNonPositive(ts: seq<TxView>)
    requires ExpensesNonPositive(ts)
    ensures Total(ts, ExpenseOnly) <= 0.0
    decreases |ts|
  {
    if |ts| > 0 {
      var init := ts[..|ts| - 1];
      assert forall i :: 0 <= i < |init| ==> init[i] == ts[i];
      ExpenseTotalNonPositive(init);
    }
  }

  lemma {:induction false} CategoryFoldNonPositive(items: seq<TxView>, k: string)
    requires ExpensesNonPositive(items)
    requires forall i :: 0 <= i < |items| ==> items[i].kind == EXPENSE
    ensures FoldKey(items, CategoryId, Amount, 0.0, AddReal, k) <= 0.0
    decreases |items|
  {
    if |items| > 0 {
      var init := items[..|items| - 1];
      assert forall i :: 0 <= i < |init| ==> init[i] == items[i];
      CategoryFoldNonPositive(init, k);
    }
  }

  /** The transactions the backend lists are views of stored records, and
      the backend stores expenses with a non-positive amount; so every
      listed expense is non-positive. */
  lemma ListedExpensesNonPositive(s: Ledger.Store, ts: seq<TxView>)
    requires Invariants.SignsMatch(s)
    requires forall v :: v in ts ==> v.id in s.transactions && v == Ledger.Populate(s, v.id)
    ensures ExpensesNonPositive(ts)
  {
    forall i | 0 <= i < |ts| && ts[i].kind == EXPENSE ensures ts[i].amount <= 0.0 {
      assert ts[i] in ts;
      assert s.transactions[ts[i].id].kind == Ledger.Expense;
    }
  }

  /** Because expenses reach the client with their stored negative sign and
      `checkBudget` sums them without `Math.abs`, a positive limit is never
      reported, neither for the month nor for any category. */
  lemma PositiveLimitsNeverAlert(s: Ledger.Store, ts: seq<TxView>, setting: Ledger.BudgetSetting)
    requires Invariants.SignsMatch(s)
    requires forall v :: v in ts ==> v.id in s.transactions && v == Ledger.Populate(s, v.id)
    ensures setting.monthlyLimit > 0.0 ==> Check(ts, setting).monthly == None
    ensures forall i :: 0 <= i < |setting.categoryLimits| && setting.categoryLimits[i].limit > 0.0 ==>
      Check(ts, setting).categories[i] == None
  {
    ListedExpensesNonPositive(s, ts);
    ExpenseTotalNonPositive(ts);
    var sel := Select(ts, ExpenseWithCategory);
    forall i | 0 <= i < |sel| ensures sel[i].kind == EXPENSE && sel[i].amount <= 0.0 {
      assert sel[i] in ts;
      var j :| 0 <= j < |ts| && ts[j] == sel[i];
    }
    forall i | 0 <= i < |setting.categoryLimits| && setting.categoryLimits[i].limit > 0.0
      ensures Check(ts, setting).categories[i] == None
    {
      var c := setting.categoryLimits[i].categoryId;
      CategorySpend(ts, c);
      CategoryFoldNonPositive(sel, c);
    }
  }
}
