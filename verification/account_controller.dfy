/** The account handlers: list, create, update and delete an account, with
    the same ownership guard (404 when missing, 401 when owned by another
    user) in front of every update and delete. */
module AccountController {
  import opened Wrappers
  import opened Ledger
  import opened Invariants
  import opened Listing

  /** The schema enum for an account's `type`. */
  const ACCOUNT_KINDS: set<string> := {"bank", "cash", "mobile"}

  /** The fields of a create or update request body; `None` is a field the
      client left out. `user` is a client-supplied owner id: create ignores
      it, but update passes the whole body to the database. */
  datatype AccountBody = AccountBody(name: Option<string>, kind: Option<string>, balance: Option<real>, user: Option<Id>)

  /** `getAccounts`: exactly the accounts the caller owns, each once. */
  method List(s: Store, caller: Id) returns (r: seq<(Id, Account)>)
    ensures forall e :: e in r ==> e.0 in s.accounts && s.accounts[e.0] == e.1 && e.1.owner == caller
    ensures multiset(KeysOf(r)) == multiset(OwnedKeys(s.accounts, AccountOwner, caller))
  {
    r := CollectOwned(s.accounts, AccountOwner, caller);
  }

  /** What the schema demands on `Account.create`: a non-empty name and a
      type from the enum. */
  predicate Admissible(body: AccountBody) {
    && body.name.Some? && body.name.value != ""
    && body.kind.Some? && body.kind.value in ACCOUNT_KINDS
  }

  /** `createAccount`: stores the supplied name, type and balance (balance
      defaulting to 0) with the caller as owner. `newId` is the id the
      database assigns; a schema violation or an id clash is a 400. */
  function Create(s: Store, caller: Id, newId: Id, body: AccountBody): (r: Reply<Account>)
    ensures r.Failed? <==> !Admissible(body) || newId in s.accounts
    ensures r.Failed? ==> r.failure == BadRequest
    ensures r.Done? ==>
      && r.body.owner == caller
      && Some(r.body.name) == body.name && Some(r.body.kind) == body.kind
      && r.body.balance == body.balance.GetOr(0.0)
      && r.store == s.(accounts := s.accounts[newId := r.body])
  {
    if !Admissible(body) || newId in s.accounts then Failed(BadRequest)
    else
      var a := Account(caller, body.name.value, body.kind.value, body.balance.GetOr(0.0));
      Done(s.(accounts := s.accounts[newId := a]), a)
  }

  function AccountOwnerOf(s: Store, id: Id): (o: Option<Id>)
    ensures o.Some? <==> id in s.accounts
    ensures o.Some? ==> o.value == s.accounts[id].owner
  {
    if id in s.accounts then Some(s.accounts[id].owner) else None
  }

  /** `findByIdAndUpdate(id, req.body)` on an account: every supplied field
      overwrites the stored one, `balance` and `user` included; the rest is
      kept. */
  function Merge(a: Account, body: AccountBody): (r: Account)
    ensures r.owner == body.user.GetOr(a.owner)
    ensures r.name == body.name.GetOr(a.name)
    ensures r.kind == body.kind.GetOr(a.kind)
    ensures r.balance == body.balance.GetOr(a.balance)
  {
    Account(body.user.GetOr(a.owner), body.name.GetOr(a.name), body.kind.GetOr(a.kind), body.balance.GetOr(a.balance))
  }

  /** `updateAccount`: the ownership guard, then the field merge; no schema
      validators run on the update. */
  function Update(s: Store, caller: Id, id: Id, body: AccountBody): (r: Reply<Account>)
    ensures id !in s.accounts ==> r == Failed(NotFound)
    ensures id in s.accounts && s.accounts[id].owner != caller ==> r == Failed(Unauthorized)
    ensures r.Done? <==> id in s.accounts && s.accounts[id].owner == caller
    ensures r.Done? ==> r.body == Merge(s.accounts[id], body) && r.store == s.(accounts := s.accounts[id := r.body])
  {
    match Guard(AccountOwnerOf(s, id), caller)
    case Some(f) => Failed(f)
    case None =>
      var a := Merge(s.accounts[id], body);
      Done(s.(accounts := s.accounts[id := a]), a)
  }

  /** `deleteAccount`: the ownership guard, then removal of that account
      alone. Transactions that reference it are not touched. */
  function Delete(s: Store, caller: Id, id: Id): (r: Reply<()>)
    ensures id !in s.accounts ==> r == Failed(NotFound)
    ensures id in s.accounts && s.accounts[id].owner != caller ==> r == Failed(Unauthorized)
    ensures r.Done? <==> id in s.accounts && s.accounts[id].owner == caller
    ensures r.Done? ==> r.store == s.(accounts := s.accounts - {id})
  {
    match Guard(AccountOwnerOf(s, id), caller)
    case Some(f) => Failed(f)
    case None => Done(s.(accounts := s.accounts - {id}), ())
  }

  // ---------------------------------------------------------------------
  // The balance invariant under account handlers

  /** A new account starts consistent with its opening balance as base,
      provided no stored transaction already names its id. */
  lemma CreateKeepsConsistent(s: Store, base: map<Id, real>, caller: Id, newId: Id, body: AccountBody)
    requires Consistent(s, base)
    requires forall k :: k in s.transactions ==> s.transactions[k].account != newId
    ensures var r := Create(s, caller, newId, body);
            r.Done? ==> Consistent(r.store, base[newId := r.body.balance])
  {
    var r := Create(s, caller, newId, body);
    if r.Done? {
      PostedZero(s.transactions, newId);
      var s', base' := r.store, base[newId := r.body.balance];
      assert s'.transactions == s.transactions;
      forall a | a in s'.accounts
        ensures a in base' && s'.accounts[a].balance - base'[a] == Posted(s'.transactions, a)
      {
        if a != newId { assert s'.accounts[a] == s.accounts[a]; }
      }
    }
  }

  lemma {:induction false} PostedZero(txs: map<Id, Transaction>, a: Id)
    requires forall k :: k in txs ==> txs[k].account != a
    ensures Posted(txs, a) == 0.0
    decreases |txs|
  {
    if |txs| > 0 {
      var k := PostedUnfold(txs, a);
      PostedZero(txs - {k}, a);
    }
  }

  /** An account update keeps the balance invariant exactly when it does not
      change the balance: writing `balance` directly breaks it. */
  lemma UpdateConsistentIffBalanceKept(s: Store, base: map<Id, real>, caller: Id, id: Id, body: AccountBody)
    requires Consistent(s, base)
    requires id in s.accounts && s.accounts[id].owner == caller
    ensures Consistent(Update(s, caller, id, body).store, base)
        <==> body.balance.None? || body.balance.value == s.accounts[id].balance
  {
    var r := Update(s, caller, id, body);
    assert r.store.transactions == s.transactions;
    assert id in r.store.accounts && r.store.accounts[id].balance == body.balance.GetOr(s.accounts[id].balance);
  }

  /** Deleting an account keeps the invariant for the accounts that remain,
      but any transaction that referenced it is left dangling. */
  lemma DeleteKeepsConsistentLeavesDangling(s: Store, base: map<Id, real>, caller: Id, id: Id)
    requires Consistent(s, base)
    requires id in s.accounts && s.accounts[id].owner == caller
    ensures Consistent(Delete(s, caller, id).store, base)
    ensures Delete(s, caller, id).store.transactions == s.transactions
    ensures Resolved(Delete(s, caller, id).store)
        <==> Resolved(s) && forall k :: k in s.transactions ==> s.transactions[k].account != id
  {
  }

  /** Because the update body may carry `user`, an owner can hand an account
      to another user, after which the guard locks the former owner out. */
  lemma UpdateCanHandOver(s: Store, caller: Id, id: Id, body: AccountBody)
    requires id in s.accounts && s.accounts[id].owner == caller
    requires body.user.Some? && body.user.value != caller
    ensures var r := Update(s, caller, id, body);
            && r.Done? && r.store.accounts[id].owner == body.user.value
            && Update(r.store, caller, id, body) == Failed(Unauthorized)
            && Delete(r.store, caller, id) == Failed(Unauthorized)
  {
  }
}
