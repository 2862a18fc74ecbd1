/** The transaction record as the client sees it: the JSON the backend list
    returns, with `category` and `account` populated to `{_id, name}` (or null
    when the referenced record no longer exists). Also the display fallbacks
    and the amount sums that the report components share. */
module Views {
  import opened Wrappers

  /** A populated reference: `{ _id, name }`. */
  datatype Ref = Ref(id: string, name: string)

  /** One transaction as delivered to the client. `kind` is the JSON `type`
      string, so "any other type" branches of the client code stay visible. */
  datatype TxView = TxView(
    id: string,
    amount: real,
    kind: string,
    description: string,
    date: int,
    category: Option<Ref>,
    account: Option<Ref>)

  const INCOME: string := "income"
  const EXPENSE: string := "expense"
  const UNCATEGORIZED: string := "Uncategorized"
  const UNKNOWN_ACCOUNT: string := "Unknown Account"

  function Abs(x: real): (r: real)
    ensures r >= 0.0 && (r == x || r == -x)
  {
    if x < 0.0 then -x else x
  }

  /** `t.category?.name || 'Uncategorized'`: a missing category or an empty
      name falls back to the placeholder; any other name is shown as is. */
  function CategoryLabel(t: TxView): (r: string)
    ensures t.category.None? ==> r == UNCATEGORIZED
    ensures t.category.Some? && t.category.value.name != "" ==> r == t.category.value.name
    ensures r != ""
  {
    match t.category
    case Some(c) => if c.name != "" then c.name else UNCATEGORIZED
    case None => UNCATEGORIZED
  }

  /** `t.account?.name || 'Unknown Account'`. */
  function AccountLabel(t: TxView): (r: string)
    ensures t.account.None? ==> r == UNKNOWN_ACCOUNT
    ensures t.account.Some? && t.account.value.name != "" ==> r == t.account.value.name
    ensures r != ""
  {
    match t.account
    case Some(a) => if a.name != "" then a.name else UNKNOWN_ACCOUNT
    case None => UNKNOWN_ACCOUNT
  }

  /** The tests the client folds and filters apply to a transaction: its
      type, whether it has a category, and whether its date falls in the
      window `[lo, hi]`. */
  datatype Pick =
    | IncomeOnly | NotIncome | ExpenseOnly | NotExpense | Any
    | KindIs(k: string)
    | ExpenseWithCategory      // `t.type === 'expense' && t.category`
    | ExpenseWithCategoryId    // `t.type === 'expense'`, then `t.category?._id`
    | Dated(lo: int, hi: int)
    | Undated(lo: int, hi: int)
  {
    predicate Selects(t: TxView) {
      match this
      case IncomeOnly => t.kind == INCOME
      case NotIncome => t.kind != INCOME
      case ExpenseOnly => t.kind == EXPENSE
      case NotExpense => t.kind != EXPENSE
      case Any => true
      case KindIs(k) => t.kind == k
      case ExpenseWithCategory => t.kind == EXPENSE && t.category.Some?
      case ExpenseWithCategoryId => t.kind == EXPENSE && t.category.Some? && t.category.value.id != ""
      case Dated(lo, hi) => lo <= t.date <= hi
      case Undated(lo, hi) => !(lo <= t.date <= hi)
    }
  }

  /** `ts.filter(p)`: the selected transactions, in order. */
  function Select(ts: seq<TxView>, p: Pick): (r: seq<TxView>)
    ensures |r| <= |ts|
    ensures forall i :: 0 <= i < |r| ==> p.Selects(r[i]) && r[i] in ts
    ensures forall t :: t in ts && p.Selects(t) ==> t in r
    decreases |ts|
  {
    if |ts| == 0 then []
    else
      var init := Select(ts[..|ts| - 1], p);
      assert forall t :: t in ts ==> t in ts[..|ts| - 1] || t == ts[|ts| - 1];
      if p.Selects(ts[|ts| - 1]) then init + [ts[|ts| - 1]] else init
  }

  /** A single transaction is kept exactly when `p` selects it. */
  lemma SelectOne(t: TxView, p: Pick)
    ensures Select([t], p) == if p.Selects(t) then [t] else []
  {
    assert [t][..0] == [];
  }

  /** The filter works transaction by transaction: filtering a
      concatenation concatenates the filtered parts, so the selection keeps
      the input's order and multiplicity. */
  lemma {:induction false} SelectDistributes(a: seq<TxView>, b: seq<TxView>, p: Pick)
    ensures Select(a + b, p) == Select(a, p) + Select(b, p)
    decreases |b|
  {
    if |b| == 0 {
      assert a + b == a;
    } else {
      var b' := b[..|b| - 1];
      assert (a + b)[..|a + b| - 1] == a + b';
      assert (a + b)[|a + b| - 1] == b[|b| - 1];
      SelectDistributes(a, b', p);
    }
  }

  /** Sum of the raw amounts of the transactions `p` selects, as a left fold
      (the shape of `Array.reduce`). */
  function Total(ts: seq<TxView>, p: Pick): real
    decreases |ts|
  {
    if |ts| == 0 then 0.0
    else Total(ts[..|ts| - 1], p) + (if p.Selects(ts[|ts| - 1]) then ts[|ts| - 1].amount else 0.0)
  }

  /** Sum of the absolute amounts of the transactions `p` selects. */
  function AbsTotal(ts: seq<TxView>, p: Pick): (r: real)
    ensures r >= 0.0
    decreases |ts|
  {
    if |ts| == 0 then 0.0
    else AbsTotal(ts[..|ts| - 1], p) + (if p.Selects(ts[|ts| - 1]) then Abs(ts[|ts| - 1].amount) else 0.0)
  }

  lemma {:induction false} TotalAppend(a: seq<TxView>, b: seq<TxView>, p: Pick)
    ensures Total(a + b, p) == Total(a, p) + Total(b, p)
    decreases |b|
  {
    if |b| == 0 {
      assert a + b == a;
    } else {
      var b' := b[..|b| - 1];
      assert (a + b)[..|a + b| - 1] == a + b';
      TotalAppend(a, b', p);
    }
  }

  /** Every transaction lands on exactly one side of a type test, so the two
      sides add up to the sum of all amounts. */
  lemma {:induction false} TotalSplits(ts: seq<TxView>)
    ensures Total(ts, IncomeOnly) + Total(ts, NotIncome) == Total(ts, Any)
    ensures Total(ts, ExpenseOnly) + Total(ts, NotExpense) == Total(ts, Any)
    decreases |ts|
  {
    if |ts| > 0 { TotalSplits(ts[..|ts| - 1]); }
  }

  lemma TotalRemoveAt(ts: seq<TxView>, j: nat, p: Pick)
    requires j < |ts|
    ensures Total(ts, p) == Total(ts[..j] + ts[j + 1..], p) + (if p.Selects(ts[j]) then ts[j].amount else 0.0)
  {
    assert ts == ts[..j] + [ts[j]] + ts[j + 1..];
    TotalAppend(ts[..j] + [ts[j]], ts[j + 1..], p);
    TotalAppend(ts[..j], [ts[j]], p);
    TotalAppend(ts[..j], ts[j + 1..], p);
    assert [ts[j]][..0] == [];
  }

  /** The sums do not depend on the order of the transactions. */
  lemma {:induction false} TotalPermutation(a: seq<TxView>, b: seq<TxView>, p: Pick)
    requires multiset(a) == multiset(b)
    ensures Total(a, p) == Total(b, p)
    decreases |a|
  {
    if |a| > 0 {
      var x := a[|a| - 1];
      assert x in multiset(b) by { assert a == a[..|a| - 1] + [x]; }
      var j :| 0 <= j < |b| && b[j] == x;
      DropMatching(a, b, j);
      TotalPermutation(a[..|a| - 1], b[..j] + b[j + 1..], p);
      TotalRemoveAt(b, j, p);
    } else {
      assert |b| == |multiset(b)| == 0;
    }
  }

  /** Dropping the last element of `a` and a matching element of its
      permutation `b` leaves two permutations of each other. */
  lemma DropMatching(a: seq<TxView>, b: seq<TxView>, j: nat)
    requires multiset(a) == multiset(b) && |a| > 0
    requires j < |b| && b[j] == a[|a| - 1]
    ensures multiset(a[..|a| - 1]) == multiset(b[..j] + b[j + 1..])
  {
    var x := b[j];
    assert a == a[..|a| - 1] + [x];
    assert b == b[..j] + [x] + b[j + 1..];
    assert multiset(b) == multiset(b[..j]) + multiset{x} + multiset(b[j + 1..]);
    assert multiset(b[..j] + b[j + 1..]) == multiset(b[..j]) + multiset(b[j + 1..]);
    assert multiset(a) == multiset(a[..|a| - 1]) + multiset{x};
    assert multiset(a[..|a| - 1]) == multiset(a) - multiset{x};
    assert multiset(b[..j] + b[j + 1..]) == multiset(b) - multiset{x};
  }

  /** Summing a filtered list is summing with the filter as the test. */
  lemma {:induction false} SelectTotal(ts: seq<TxView>, p: Pick)
    ensures Total(Select(ts, p), Any) == Total(ts, p)
    decreases |ts|
  {
    if |ts| > 0 {
      var init := ts[..|ts| - 1];
      var last := ts[|ts| - 1];
      var si := Select(init, p);
      SelectTotal(init, p);
      if p.Selects(last) {
        var r := si + [last];
        assert Select(ts, p) == r;
        assert r[..|r| - 1] == si;
        assert Total(r, Any) == Total(si, Any) + last.amount;
      } else {
        assert Select(ts, p) == si;
      }
    }
  }

  lemma {:induction false} SelectAbsTotal(ts: seq<TxView>, p: Pick)
    ensures AbsTotal(Select(ts, p), Any) == AbsTotal(ts, p)
    decreases |ts|
  {
    if |ts| > 0 {
      var init := ts[..|ts| - 1];
      var last := ts[|ts| - 1];
      var si := Select(init, p);
      SelectAbsTotal(init, p);
      if p.Selects(last) {
        var r := si + [last];
        assert Select(ts, p) == r;
        assert r[..|r| - 1] == si;
        assert AbsTotal(r, Any) == AbsTotal(si, Any) + Abs(last.amount);
      } else {
        assert Select(ts, p) == si;
      }
    }
  }

  /** Every transaction is either inside the window or outside it, so the
      two sides split every sum. */
  lemma {:induction false} WindowSplit(ts: seq<TxView>, lo: int, hi: int, q: Pick)
    ensures Total(ts, q) == Total(Select(ts, Dated(lo, hi)), q) + Total(Select(ts, Undated(lo, hi)), q)
    decreases |ts|
  {
    if |ts| > 0 {
      var init := ts[..|ts| - 1];
      var last := ts[|ts| - 1];
      WindowSplit(init, lo, hi, q);
      var inside := Select(init, Dated(lo, hi));
      var outside := Select(init, Undated(lo, hi));
      if lo <= last.date <= hi {
        assert Select(ts, Undated(lo, hi)) == outside;
        assert Select(ts, Dated(lo, hi)) == inside + [last];
        TotalSnoc(inside, last, q);
      } else {
        assert Select(ts, Dated(lo, hi)) == inside;
        assert Select(ts, Undated(lo, hi)) == outside + [last];
        TotalSnoc(outside, last, q);
      }
    }
  }

  /** Appending one transaction adds its amount when it is selected. */
  lemma TotalSnoc(ts: seq<TxView>, x: TxView, p: Pick)
    ensures Total(ts + [x], p) == Total(ts, p) + (if p.Selects(x) then x.amount else 0.0)
  {
    assert (ts + [x])[..|ts|] == ts;
  }
}
