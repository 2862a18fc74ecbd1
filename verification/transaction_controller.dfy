/** The transaction handlers: create, update and delete a transaction and
    move the referenced account balance by the transaction's signed amount,
    all inside one database session that is aborted on any error. */
module TransactionController {
  import opened Wrappers
  import opened Ledger
  import opened Invariants
  import opened Listing
  import Views

  /** The amount both create and update store and post:
      the magnitude of the entered amount, negated for an expense. */
  function Signed(kind: TxType, amount: real): (r: real)
    ensures Views.Abs(r) == Views.Abs(amount)
    ensures kind == Expense ==> r <= 0.0
    ensures kind == Income ==> r >= 0.0
  {
    if kind == Expense then -Views.Abs(amount) else Views.Abs(amount)
  }

  /** `v` is the populated view of a stored transaction `caller` owns. */
  predicate ListedView(s: Store, caller: Id, v: Views.TxView) {
    v.id in s.transactions && s.transactions[v.id].owner == caller && v == Populate(s, v.id)
  }

  /** `getTransactions`: every transaction the caller owns, each once,
      populated, newest first. The `startDate`/`endDate` query parameters
      the client sends are accepted and ignored, so the list is never
      narrowed by date. */
  method List(s: Store, caller: Id, startDate: Option<int>, endDate: Option<int>) returns (r: seq<Views.TxView>)
    ensures NewestFirst(r)
    ensures forall v :: v in r ==> ListedView(s, caller, v)
    ensures multiset(ViewIds(r)) == multiset(OwnedKeys(s.transactions, TransactionOwner, caller))
  {
    var owned := CollectOwned(s.transactions, TransactionOwner, caller);
    OwnedIndexed(s, caller, owned);
    var views := PopulateAll(s, owned);
    r := SortNewestFirst(views);
    PermutedListed(s, caller, views, r);
    assert multiset(ViewIds(r)) == multiset(ViewIds(views));
  }

  lemma OwnedIndexed(s: Store, caller: Id, owned: seq<(Id, Transaction)>)
    requires forall e :: e in owned ==> e.0 in s.transactions && s.transactions[e.0] == e.1 && e.1.owner == caller
    ensures forall i :: 0 <= i < |owned| ==>
      owned[i].0 in s.transactions && s.transactions[owned[i].0] == owned[i].1 && owned[i].1.owner == caller
  {
    forall i | 0 <= i < |owned|
      ensures owned[i].0 in s.transactions && s.transactions[owned[i].0] == owned[i].1 && owned[i].1.owner == caller
    {
      assert owned[i] in owned;
    }
  }

  /** Reordering the populated views of owned transactions keeps them so. */
  lemma PermutedListed(s: Store, caller: Id, views: seq<Views.TxView>, r: seq<Views.TxView>)
    requires forall i :: 0 <= i < |views| ==> ListedView(s, caller, views[i])
    requires multiset(r) == multiset(views)
    ensures forall v :: v in r ==> ListedView(s, caller, v)
  {
    forall v | v in r ensures ListedView(s, caller, v) {
      assert v in multiset(r);
      var i :| 0 <= i < |views| && views[i] == v;
    }
  }

  /** Populates each listed `(id, transaction)` pair, in order. */
  function PopulateAll(s: Store, owned: seq<(Id, Transaction)>): (r: seq<Views.TxView>)
    requires forall i :: 0 <= i < |owned| ==> owned[i].0 in s.transactions && s.transactions[owned[i].0] == owned[i].1
    ensures |r| == |owned| && ViewIds(r) == KeysOf(owned)
    ensures forall i :: 0 <= i < |r| ==> r[i] == Populate(s, owned[i].0)
    decreases |owned|
  {
    if |owned| == 0 then []
    else
      var init, last := owned[..|owned| - 1], owned[|owned| - 1];
      var rest := PopulateAll(s, init);
      var r := rest + [Populate(s, last.0)];
      assert r[..|r| - 1] == rest;
      assert ViewIds(r) == KeysOf(init) + [last.0];
      forall i | 0 <= i < |r| ensures r[i] == Populate(s, owned[i].0) {
        if i < |rest| { assert r[i] == rest[i] && owned[i] == init[i]; }
      }
      r
  }

  /** The request body of a create (after the validation middleware). */
  datatype TxBody = TxBody(
    amount: real,
    kind: TxType,
    description: string,
    date: Option<int>,
    category: Id,
    account: Id)

  /** The request body of an update: `amount` and `type` are always used,
      the other fields only when supplied. The rest of the body is spread
      into the update, so a supplied `user` replaces the owner. */
  datatype TxPatch = TxPatch(
    amount: real,
    kind: TxType,
    description: Option<string>,
    date: Option<int>,
    category: Option<Id>,
    account: Option<Id>,
    user: Option<Id>)

  /** `createTransaction`. `newId` is the id the database assigns and `now`
      is `Date.now()`. The insert happens first; when the account increment
      then finds no account the session is aborted, so the failure persists
      neither the transaction nor a balance change. The handler does not
      check who owns the account or the category. */
  function Create(s: Store, caller: Id, newId: Id, now: int, body: TxBody): (r: Reply<Transaction>)
    ensures r.Failed? <==> newId in s.transactions || body.account !in s.accounts
    ensures r.Failed? ==> r.failure == BadRequest
    ensures r.Done? ==>
      && r.body.owner == caller
      && r.body.amount == Signed(body.kind, body.amount)
      && r.body.kind == body.kind && r.body.account == body.account && r.body.category == body.category
      && r.body.description == body.description
      && r.body.date == body.date.GetOr(now)
      && r.store.transactions == s.transactions[newId := r.body]
      && r.store.accounts.Keys == s.accounts.Keys
      && r.store.accounts[body.account].balance == s.accounts[body.account].balance + r.body.amount
      && (forall a :: a in s.accounts && a != body.account ==> r.store.accounts[a] == s.accounts[a])
      && r.store.categories == s.categories && r.store.budgets == s.budgets
  {
    if newId in s.transactions then
      Failed(BadRequest)
    else
      var t := Transaction(caller, Signed(body.kind, body.amount), body.kind, body.description,
                           body.date.GetOr(now), body.category, body.account);
      if body.account !in s.accounts then Failed(BadRequest)
      else Done(s.(transactions := s.transactions[newId := t],
                   accounts := Bump(s.accounts, body.account, t.amount)), t)
  }

  /** Create posts to any existing account, whoever owns it: the new
      transaction belongs to the caller while the balance that moves is the
      other user's. */
  lemma CreateIgnoresAccountOwner(s: Store, caller: Id, newId: Id, now: int, body: TxBody)
    requires newId !in s.transactions && body.account in s.accounts
    requires s.accounts[body.account].owner != caller && body.amount != 0.0
    ensures var r := Create(s, caller, newId, now, body);
            && r.Done?
            && r.store.transactions[newId].owner == caller
            && r.store.accounts[body.account].owner != caller
            && r.store.accounts[body.account].balance != s.accounts[body.account].balance
  {
  }

  /** The owner of transaction `id`, if it exists. */
  function TxOwner(s: Store, id: Id): (o: Option<Id>)
    ensures o.Some? <==> id in s.transactions
    ensures o.Some? ==> o.value == s.transactions[id].owner
  {
    if id in s.transactions then Some(s.transactions[id].owner) else None
  }

  /** The account an update posts to: `updateData.account || transaction.account`. */
  function Target(prior: Transaction, patch: TxPatch): Id {
    patch.account.GetOr(prior.account)
  }

  /** `updateTransaction`: after the ownership guard, subtract the prior stored
      amount from the prior account, overwrite the transaction, and add the new
      signed amount to the target account. Neither increment checks that its
      account exists. */
  function Update(s: Store, caller: Id, id: Id, patch: TxPatch): (r: Reply<Transaction>)
    ensures id !in s.transactions ==> r == Failed(NotFound)
    ensures id in s.transactions && s.transactions[id].owner != caller ==> r == Failed(Unauthorized)
    ensures r.Done? <==> id in s.transactions && s.transactions[id].owner == caller
    ensures r.Done? ==>
      var prior := s.transactions[id];
      && r.body.owner == patch.user.GetOr(prior.owner)
      && r.body.amount == Signed(patch.kind, patch.amount) && r.body.kind == patch.kind
      && r.body.account == Target(prior, patch)
      && r.body.category == patch.category.GetOr(prior.category)
      && r.body.description == patch.description.GetOr(prior.description)
      && r.body.date == patch.date.GetOr(prior.date)
      && r.store.transactions == s.transactions[id := r.body]
      && r.store.accounts == Bump(Bump(s.accounts, prior.account, -prior.amount), r.body.account, r.body.amount)
      && r.store.categories == s.categories && r.store.budgets == s.budgets
  {
    match Guard(TxOwner(s, id), caller)
    case Some(f) => Failed(f)
    case None =>
      var prior := s.transactions[id];
      var reverted := Bump(s.accounts, prior.account, -prior.amount);
      var amount := Signed(patch.kind, patch.amount);
      var t := prior.(owner := patch.user.GetOr(prior.owner), amount := amount, kind := patch.kind,
                    description := patch.description.GetOr(prior.description),
                    date := patch.date.GetOr(prior.date),
                    category := patch.category.GetOr(prior.category),
                    account := Target(prior, patch));
      Done(s.(transactions := s.transactions[id := t],
              accounts := Bump(reverted, t.account, amount)), t)
  }

  /** `deleteTransaction`: after the ownership guard, subtract the stored
      amount from the transaction's account and remove the transaction. */
  function Delete(s: Store, caller: Id, id: Id): (r: Reply<()>)
    ensures id !in s.transactions ==> r == Failed(NotFound)
    ensures id in s.transactions && s.transactions[id].owner != caller ==> r == Failed(Unauthorized)
    ensures r.Done? <==> id in s.transactions && s.transactions[id].owner == caller
    ensures r.Done? ==>
      && r.store.transactions == s.transactions - {id}
      && r.store.accounts == Bump(s.accounts, s.transactions[id].account, -s.transactions[id].amount)
      && r.store.categories == s.categories && r.store.budgets == s.budgets
  {
    match Guard(TxOwner(s, id), caller)
    case Some(f) => Failed(f)
    case None =>
      var prior := s.transactions[id];
      Done(s.(accounts := Bump(s.accounts, prior.account, -prior.amount),
              transactions := s.transactions - {id}), ())
  }

  // ---------------------------------------------------------------------
  // The balance invariant

  lemma CreateKeepsConsistent(s: Store, base: map<Id, real>, caller: Id, newId: Id, now: int, body: TxBody)
    requires Consistent(s, base)
    ensures Consistent(After(s, Create(s, caller, newId, now, body)), base)
  {
    var r := Create(s, caller, newId, now, body);
    if r.Done? {
      forall a | a in r.store.accounts
        ensures a in base && r.store.accounts[a].balance - base[a] == Posted(r.store.transactions, a)
      {
        PostedInsert(s.transactions, a, newId, r.body);
      }
    }
  }

  /** The invariant survives every update, whether or not the target account
      exists: a missing target simply receives no posting, and the updated
      transaction then counts towards no existing account. */
  lemma UpdateKeepsConsistent(s: Store, base: map<Id, real>, caller: Id, id: Id, patch: TxPatch)
    requires Consistent(s, base)
    ensures Consistent(After(s, Update(s, caller, id, patch)), base)
  {
    var r := Update(s, caller, id, patch);
    if r.Done? {
      forall a | a in r.store.accounts
        ensures a in base && r.store.accounts[a].balance - base[a] == Posted(r.store.transactions, a)
      {
        PostedReplace(s.transactions, a, id, r.body);
      }
    }
  }

  lemma DeleteKeepsConsistent(s: Store, base: map<Id, real>, caller: Id, id: Id)
    requires Consistent(s, base)
    ensures Consistent(After(s, Delete(s, caller, id)), base)
  {
    var r := Delete(s, caller, id);
    if r.Done? {
      forall a | a in r.store.accounts
        ensures a in base && r.store.accounts[a].balance - base[a] == Posted(r.store.transactions, a)
      {
        PostedRemove(s.transactions, a, id);
      }
    }
  }

  // ---------------------------------------------------------------------
  // Stored signs and account references

  /** Expenses stay stored as non-positive amounts and income as non-negative
      ones across every transaction handler. */
  lemma HandlersKeepSigns(s: Store, caller: Id, newId: Id, now: int, body: TxBody, id: Id, patch: TxPatch)
    requires SignsMatch(s)
    ensures SignsMatch(After(s, Create(s, caller, newId, now, body)))
    ensures SignsMatch(After(s, Update(s, caller, id, patch)))
    ensures SignsMatch(After(s, Delete(s, caller, id)))
  {
  }

  /** Create and delete never leave a transaction pointing at a missing account. */
  lemma CreateDeleteKeepResolved(s: Store, caller: Id, newId: Id, now: int, body: TxBody, id: Id)
    requires Resolved(s)
    ensures Resolved(After(s, Create(s, caller, newId, now, body)))
    ensures Resolved(After(s, Delete(s, caller, id)))
  {
  }

  /** A committed update keeps every transaction's account resolvable exactly
      when its target account exists: unlike create, update never checks it. */
  lemma UpdateResolvedIffTargetExists(s: Store, caller: Id, id: Id, patch: TxPatch)
    requires Resolved(s)
    requires id in s.transactions && s.transactions[id].owner == caller
    ensures Resolved(Update(s, caller, id, patch).store) <==> Target(s.transactions[id], patch) in s.accounts
  {
    var r := Update(s, caller, id, patch);
    assert id in r.store.transactions && r.store.transactions[id].account == Target(s.transactions[id], patch);
  }

  /** With an unchanged account the update moves the balance by the new
      stored amount minus the prior one. */
  lemma UpdateSameAccountNet(s: Store, caller: Id, id: Id, patch: TxPatch)
    requires id in s.transactions && s.transactions[id].owner == caller
    requires s.transactions[id].account in s.accounts
    requires Target(s.transactions[id], patch) == s.transactions[id].account
    ensures
      var a := s.transactions[id].account;
      var r := Update(s, caller, id, patch);
      r.Done? && r.store.accounts[a].balance
        == s.accounts[a].balance + Signed(patch.kind, patch.amount) - s.transactions[id].amount
  {
  }

  /** An update whose target account does not exist still commits: the old
      account is reverted, the new amount is posted nowhere, and the
      transaction is left pointing at the missing account. A create with a
      missing account fails instead. */
  lemma UpdateMissingTargetCommits(s: Store, caller: Id, id: Id, patch: TxPatch, newId: Id, now: int, body: TxBody)
    requires id in s.transactions && s.transactions[id].owner == caller
    requires Target(s.transactions[id], patch) !in s.accounts
    requires body.account !in s.accounts
    ensures
      var prior := s.transactions[id];
      var r := Update(s, caller, id, patch);
      && r.Done?
      && r.store.accounts == Bump(s.accounts, prior.account, -prior.amount)
      && !Resolved(r.store)
    ensures Create(s, caller, newId, now, body) == Failed(BadRequest)
  {
    var prior := s.transactions[id];
    var r := Update(s, caller, id, patch);
    assert id in r.store.transactions && r.store.transactions[id].account !in r.store.accounts;
  }
}
