/** The budget-settings handlers: one settings document per user, created
    on first read and upserted on write. */
module BudgetController {
  import opened Wrappers
  import opened Ledger
  import opened Invariants

  /** The document a first read creates: no monthly limit, no category
      limits (also the schema defaults an upsert fills in). */
  const DEFAULT_SETTING := BudgetSetting(0.0, [])

  /** `getBudgetSettings`: the caller's document, created with the defaults
      when there is none. It always succeeds. */
  function Get(s: Store, caller: Id): (r: Reply<BudgetSetting>)
    ensures r.Done?
    ensures caller in s.budgets ==> r.store == s && r.body == s.budgets[caller]
    ensures caller !in s.budgets ==> r.body == DEFAULT_SETTING
    ensures caller in r.store.budgets && r.store.budgets[caller] == r.body
    ensures r.store == s.(budgets := r.store.budgets)
    ensures forall u :: u != caller ==> (u in r.store.budgets <==> u in s.budgets)
    ensures forall u :: u != caller && u in s.budgets ==> r.store.budgets[u] == s.budgets[u]
  {
    if caller in s.budgets then Done(s, s.budgets[caller])
    else Done(s.(budgets := s.budgets[caller := DEFAULT_SETTING]), DEFAULT_SETTING)
  }

  /** `findOneAndUpdate({ user }, { monthlyLimit, categoryLimits },
      { upsert: true })`. A field the client left out is dropped from the
      update: it keeps its stored value, or takes the schema default when
      the document is being inserted. */
  function Update(s: Store, caller: Id, monthlyLimit: Option<real>, categoryLimits: Option<seq<CategoryLimit>>): (r: Reply<BudgetSetting>)
    ensures r.Done?
    ensures var prior := if caller in s.budgets then s.budgets[caller] else DEFAULT_SETTING;
            && r.body.monthlyLimit == monthlyLimit.GetOr(prior.monthlyLimit)
            && r.body.categoryLimits == categoryLimits.GetOr(prior.categoryLimits)
    ensures r.store == s.(budgets := s.budgets[caller := r.body])
  {
    var prior := if caller in s.budgets then s.budgets[caller] else DEFAULT_SETTING;
    var b := BudgetSetting(monthlyLimit.GetOr(prior.monthlyLimit), categoryLimits.GetOr(prior.categoryLimits));
    Done(s.(budgets := s.budgets[caller := b]), b)
  }

  /** Reading twice is the same as reading once: the second read finds the
      document the first one may have created and changes nothing. */
  lemma GetIdempotent(s: Store, caller: Id)
    ensures var r1 := Get(s, caller);
            var r2 := Get(r1.store, caller);
            r2.store == r1.store && r2.body == r1.body
  {
  }

  /** A full write is read back as written, and the read changes nothing. */
  lemma GetAfterUpdate(s: Store, caller: Id, monthlyLimit: real, categoryLimits: seq<CategoryLimit>)
    ensures var s' := Update(s, caller, Some(monthlyLimit), Some(categoryLimits)).store;
            var r := Get(s', caller);
            r.body == BudgetSetting(monthlyLimit, categoryLimits) && r.store == s'
  {
  }

  /** Writing is idempotent: repeating the same update changes nothing more. */
  lemma UpdateIdempotent(s: Store, caller: Id, monthlyLimit: Option<real>, categoryLimits: Option<seq<CategoryLimit>>)
    ensures var r1 := Update(s, caller, monthlyLimit, categoryLimits);
            Update(r1.store, caller, monthlyLimit, categoryLimits) == r1
  {
  }

  /** One user's budget handlers never change another user's settings. */
  lemma HandlersIsolateUsers(s: Store, caller: Id, other: Id, monthlyLimit: Option<real>, categoryLimits: Option<seq<CategoryLimit>>)
    requires other != caller
    ensures var s' := Update(s, caller, monthlyLimit, categoryLimits).store;
            (other in s'.budgets <==> other in s.budgets)
            && (other in s.budgets ==> s'.budgets[other] == s.budgets[other])
  {
  }

  /** Budget handlers leave the ledger and its invariants alone. */
  lemma HandlersKeepLedger(s: Store, base: map<Id, real>, caller: Id, monthlyLimit: Option<real>, categoryLimits: Option<seq<CategoryLimit>>)
    requires Consistent(s, base) && SignsMatch(s) && Resolved(s)
    ensures var s' := Get(s, caller).store; Consistent(s', base) && SignsMatch(s') && Resolved(s')
    ensures var s' := Update(s, caller, monthlyLimit, categoryLimits).store;
            Consistent(s', base) && SignsMatch(s') && Resolved(s')
  {
  }
}
