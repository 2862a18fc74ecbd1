/** The budget progress panel: the month's expense spending (absolute
    amounts), its split by category, the progress percentage and colour of
    each bar, and the notices raised against the user's monthly limit and
    alert threshold. */
module BudgetProgress {
  import opened Wrappers
  import opened Views
  import opened GroupBy
  import opened Amounts
  import Js

  /** `totalSpending`: `Math.abs(t.amount)` summed over the expenses. */
  function TotalSpending(ts: seq<TxView>): real {
    FoldAll(Select(ts, ExpenseOnly), AbsAmount, 0.0, AddReal)
  }

  lemma TotalSpendingMeaning(ts: seq<TxView>)
    ensures TotalSpending(ts) == AbsTotal(ts, ExpenseOnly)
    ensures TotalSpending(ts) >= 0.0
  {
    FoldAbsAmount(Select(ts, ExpenseOnly));
    SelectAbsTotal(ts, ExpenseOnly);
  }

  /** `t.category?._id`. */
  function CategoryKey(t: TxView): string {
    match t.category
    case Some(c) => c.id
    case None => ""
  }

  /** `byCategory`: the reduce over the expenses that adds `Math.abs` of
      the amount to the entry of a truthy category id and skips the rest. */
  function ByCategory(ts: seq<TxView>): Dict<real> {
    Group(Select(ts, ExpenseWithCategoryId), CategoryKey, AbsAmount, 0.0, AddReal)
  }

  lemma {:induction false} AbsTotalNarrower(ts: seq<TxView>)
    ensures AbsTotal(ts, ExpenseWithCategoryId) <= AbsTotal(ts, ExpenseOnly)
    decreases |ts|
  {
    if |ts| > 0 { AbsTotalNarrower(ts[..|ts| - 1]); }
  }

  /** The categories' spending adds up to the spending of the expenses that
      have a category, which is at most the total spending. */
  lemma ByCategorySum(ts: seq<TxView>)
    ensures FoldSeq(Values(ByCategory(ts)), 0.0, AddReal) == AbsTotal(ts, ExpenseWithCategoryId)
    ensures FoldSeq(Values(ByCategory(ts)), 0.0, AddReal) <= TotalSpending(ts)
  {
    GroupedAbsAmounts(Select(ts, ExpenseWithCategoryId), CategoryKey);
    SelectAbsTotal(ts, ExpenseWithCategoryId);
    AbsTotalNarrower(ts);
    TotalSpendingMeaning(ts);
  }

  /** A category has an entry iff some expense carries that non-empty id. */
  lemma ByCategoryKeys(ts: seq<TxView>, c: string)
    ensures c in Keys(ByCategory(ts))
        <==> exists t :: t in ts && t.kind == EXPENSE && t.category.Some? && t.category.value.id == c && c != ""
  {
    var p := ExpenseWithCategoryId;
    assert ByCategory(ts) == Group(Select(ts, p), CategoryKey, AbsAmount, 0.0, AddReal);
    SelectedKeys(ts, p, CategoryKey, AbsAmount, 0.0, AddReal, c);
    if c in Keys(ByCategory(ts)) {
      var t :| t in ts && p.Selects(t) && CategoryKey(t) == c;
      KeyedExpense(t, c);
    }
    if exists t :: t in ts && t.kind == EXPENSE && t.category.Some? && t.category.value.id == c && c != "" {
      var t :| t in ts && t.kind == EXPENSE && t.category.Some? && t.category.value.id == c && c != "";
      KeyedExpense(t, c);
    }
  }

  lemma KeyedExpense(t: TxView, c: string)
    ensures ExpenseWithCategoryId.Selects(t) && CategoryKey(t) == c
        <==> t.kind == EXPENSE && t.category.Some? && t.category.value.id == c && c != ""
  {
  }

  // ---------------------------------------------------------------------
  // Progress bars

  /** `calculateProgress(spent, limit)`: 0 for a falsy limit (missing, 0 or
      NaN), otherwise the percentage of the limit spent, capped at 100. */
  function CalculateProgress(spent: real, limit: Option<Js.Number>): (r: real)
    ensures r <= 100.0
    ensures limit.None? || !Js.Truthy(limit.value) ==> r == 0.0
    ensures limit.Some? && limit.value.Infinity? ==> r == 0.0
  {
    match limit
    case None => 0.0
    case Some(n) =>
      match n
      case Finite(v) => if v == 0.0 then 0.0 else Min(spent / v * 100.0, 100.0)
      case NaN => 0.0
      case Infinity(_) => 0.0
  }

  function Min(a: real, b: real): (r: real)
    ensures r <= a && r <= b && (r == a || r == b)
  {
    if a < b then a else b
  }

  /** Against a positive limit the bar is full exactly when the limit has
      been reached, and otherwise shows the share spent. */
  lemma ProgressOfPositiveLimit(spent: real, limit: real)
    requires limit > 0.0
    ensures CalculateProgress(spent, Some(Js.Finite(limit))) == 100.0 <==> spent >= limit
    ensures spent < limit ==> CalculateProgress(spent, Some(Js.Finite(limit))) * limit == spent * 100.0
    ensures spent >= 0.0 ==> CalculateProgress(spent, Some(Js.Finite(limit))) >= 0.0
  {
    var q := spent / limit;
    assert q * limit == spent;
    assert (q - 1.0) * limit == spent - limit;
    if spent >= limit {
      if q < 1.0 {
        PositiveProduct(1.0 - q, limit);
      }
    } else {
      if q >= 1.0 {
        NonNegativeProduct(q - 1.0, limit);
      }
    }
  }

  lemma PositiveProduct(a: real, b: real)
    requires a > 0.0 && b > 0.0
    ensures a * b > 0.0
  {
  }

  lemma NonNegativeProduct(a: real, b: real)
    requires a >= 0.0 && b > 0.0
    ensures a * b >= 0.0
  {
  }

  /** With `p * limit == spent * 100` and a positive limit, comparing the
      percentage with `x` is comparing the spending with `x%` of the limit. */
  lemma ScaledCompare(p: real, spent: real, limit: real, x: real)
    requires limit > 0.0 && p * limit == spent * 100.0
    ensures p >= x <==> spent * 100.0 >= x * limit
    ensures p > x <==> spent * 100.0 > x * limit
  {
    assert (p - x) * limit == spent * 100.0 - x * limit;
    if p > x {
      assert (p - x) * limit > 0.0;
    } else if p < x {
      assert (x - p) * limit > 0.0;
    }
  }

  datatype Color = Red | Yellow | Green

  /** `getProgressColor`. */
  function ProgressColor(progress: real): (c: Color)
    ensures c == Red <==> progress >= 90.0
    ensures c == Yellow <==> 75.0 <= progress < 90.0
    ensures c == Green <==> progress < 75.0
  {
    if progress >= 90.0 then Red
    else if progress >= 75.0 then Yellow
    else Green
  }

  function Severity(c: Color): nat {
    match c
    case Green => 0
    case Yellow => 1
    case Red => 2
  }

  /** A higher percentage never shows a milder colour. */
  lemma ColorMonotone(p: real, q: real)
    requires p <= q
    ensures Severity(ProgressColor(p)) <= Severity(ProgressColor(q))
  {
  }

  /** A bar against a positive limit turns red exactly when 90% of the
      limit has been spent, and yellow from 75%. */
  lemma BarColor(spent: real, limit: real)
    requires limit > 0.0
    ensures ProgressColor(CalculateProgress(spent, Some(Js.Finite(limit)))) == Red <==> 10.0 * spent >= 9.0 * limit
    ensures ProgressColor(CalculateProgress(spent, Some(Js.Finite(limit)))) == Green <==> 4.0 * spent < 3.0 * limit
  {
    ProgressOfPositiveLimit(spent, limit);
    var p := CalculateProgress(spent, Some(Js.Finite(limit)));
    if spent < limit {
      ScaledCompare(p, spent, limit, 90.0);
      ScaledCompare(p, spent, limit, 75.0);
    }
  }

  /** The bar of one category limit: the spending recorded under the
      limit's key, or 0 when there is none. */
  function CategoryProgress(byCategory: Dict<real>, key: string, amount: Option<Js.Number>): (r: real)
    ensures r <= 100.0
    ensures key !in Keys(byCategory) && amount.Some? && amount.value.Finite? && amount.value.value > 0.0 ==> r == 0.0
  {
    CalculateProgress(Get(byCategory, key).GetOr(0.0), amount)
  }

  /** What `categorySpending[catLimit.category]` looks up when
      `catLimit.category` is an object, as the `category._id` and
      `category.name` reads beside it imply: the property key an object
      converts to. */
  const OBJECT_KEY: string := "[object Object]"

  /** As written, the lookup key is never a category id (those are 24
      characters long), so every bar against a positive limit is empty. */
  lemma ObjectKeyBarsEmpty(ts: seq<TxView>, amount: real)
    requires amount > 0.0
    requires forall t :: t in ts && t.category.Some? ==> |t.category.value.id| == 24
    ensures CategoryProgress(ByCategory(ts), OBJECT_KEY, Some(Js.Finite(amount))) == 0.0
  {
    assert |OBJECT_KEY| == 15;
    ByCategoryKeys(ts, OBJECT_KEY);
  }

  // ---------------------------------------------------------------------
  // Notices

  /** `(monthlySpending / limit) * 100` in JavaScript numbers: a zero
      limit gives ±Infinity, or NaN for zero spending; a missing limit
      gives NaN. */
  function Percentage(spent: real, limit: Option<real>): (p: Js.Number)
    ensures limit.None? ==> p == Js.NaN
    ensures limit.Some? && limit.value != 0.0 ==> p.Finite? && p.value * limit.value == spent * 100.0
  {
    match limit
    case None => Js.NaN
    case Some(v) =>
      if v != 0.0 then Js.Finite(spent / v * 100.0)
      else if spent > 0.0 then Js.Infinity(true)
      else if spent < 0.0 then Js.Infinity(false)
      else Js.NaN
  }

  /** `p >= x`, `p > x` and `p < x` for a JavaScript number `p`: false
      whenever `p` is NaN. */
  predicate AtLeast(p: Js.Number, x: real) {
    match p
    case Finite(v) => v >= x
    case NaN => false
    case Infinity(pos) => pos
  }

  predicate Above(p: Js.Number, x: real) {
    match p
    case Finite(v) => v > x
    case NaN => false
    case Infinity(pos) => pos
  }

  predicate Below(p: Js.Number, x: real) {
    match p
    case Finite(v) => v < x
    case NaN => false
    case Infinity(pos) => !pos
  }

  datatype Notices = Notices(half: bool, threshold: bool, critical: bool, exceeded: bool)

  const NO_NOTICES: Notices := Notices(false, false, false, false)

  /** The four independent checks run when alerts are enabled. */
  function Notify(enabled: bool, p: Js.Number, threshold: real): (n: Notices)
    ensures !enabled ==> n == NO_NOTICES
    ensures p.NaN? ==> n == NO_NOTICES
    ensures enabled && p.Finite? ==>
      && (n.half <==> 50.0 <= p.value < threshold)
      && (n.threshold <==> p.value >= threshold)
      && (n.critical <==> p.value >= 90.0)
      && (n.exceeded <==> p.value > 100.0)
  {
    if !enabled then NO_NOTICES
    else Notices(
      AtLeast(p, 50.0) && Below(p, threshold),
      AtLeast(p, threshold),
      AtLeast(p, 90.0),
      Above(p, 100.0))
  }

  /** With a positive limit, the critical and exceeded notices fire exactly
      at 90% and above 100% of the limit; the threshold notice implies the
      half notice is silent. */
  lemma NoticesOfPositiveLimit(enabled: bool, spent: real, limit: real, threshold: real)
    requires enabled && limit > 0.0
    ensures var n := Notify(enabled, Percentage(spent, Some(limit)), threshold);
            && (n.critical <==> 10.0 * spent >= 9.0 * limit)
            && (n.exceeded <==> spent > limit)
            && !(n.half && n.threshold)
  {
    var p := Percentage(spent, Some(limit));
    ScaledCompare(p.value, spent, limit, 90.0);
    ScaledCompare(p.value, spent, limit, 100.0);
  }

  /** A zero limit with positive spending reads as an infinite percentage:
      every notice but the half notice fires. */
  lemma ZeroLimitNotices(spent: real, threshold: real)
    requires spent > 0.0
    ensures Notify(true, Percentage(spent, Some(0.0)), threshold) == Notices(false, true, true, true)
  {
  }

  /** The banner under the bars: alerts enabled and spending at least
      `limit * threshold / 100`. */
  function Banner(enabled: bool, spent: real, limit: Option<real>, threshold: real): bool {
    enabled && limit.Some? && spent >= limit.value * (threshold / 100.0)
  }

  /** For a positive limit the banner shows exactly when the threshold
      notice fires. */
  lemma BannerMatchesThresholdNotice(spent: real, limit: real, threshold: real)
    requires limit > 0.0
    ensures Banner(true, spent, Some(limit), threshold) == Notify(true, Percentage(spent, Some(limit)), threshold).threshold
  {
    var p := Percentage(spent, Some(limit));
    ScaledCompare(p.value, spent, limit, threshold);
    assert limit * (threshold / 100.0) * 100.0 == threshold * limit;
  }
}
