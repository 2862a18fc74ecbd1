/** The store invariants the transaction handlers are meant to keep.

    The central one ties every account's balance to its transactions: with
    `base[a]` the balance the account was created with, the balance minus
    that base equals the sum of the stored (signed) amounts of the
    transactions that reference the account. `base` is bookkeeping of the
    model, not a field of the stored account. */
module Invariants {
  import opened Ledger

  /** What transaction `t` contributes to account `a`. */
  function Share(t: Transaction, a: Id): real {
    if t.account == a then t.amount else 0.0
  }

  /** Some key of a non-empty map: the one the sum below takes apart first. */
  ghost function AnyKey(txs: map<Id, Transaction>): (k: Id)
    requires |txs| > 0
    ensures k in txs
  {
    var k :| k in txs; k
  }

  /** Sum of the stored amounts of the transactions referencing `a`. */
  ghost function Posted(txs: map<Id, Transaction>, a: Id): real
    decreases |txs|
  {
    if |txs| == 0 then 0.0
    else
      var k := AnyKey(txs);
      Share(txs[k], a) + Posted(txs - {k}, a)
  }

  /** One unfolding of the sum, naming the key the definition picked. */
  lemma PostedUnfold(txs: map<Id, Transaction>, a: Id) returns (k: Id)
    requires |txs| > 0
    ensures k in txs && Posted(txs, a) == Share(txs[k], a) + Posted(txs - {k}, a)
  {
    k := AnyKey(txs);
  }

  /** The sum may be taken apart at any key: the choice the definition
      makes does not matter. */
  lemma {:induction false} PostedRemove(txs: map<Id, Transaction>, a: Id, k: Id)
    requires k in txs
    ensures Posted(txs, a) == Share(txs[k], a) + Posted(txs - {k}, a)
    decreases |txs|
  {
    var k' := PostedUnfold(txs, a);
    if k' != k {
      var rest := txs - {k} - {k'};
      var m1 := txs - {k'};
      var m2 := txs - {k};
      assert k in m1 && m1[k] == txs[k] && m1 - {k} == rest;
      assert k' in m2 && m2[k'] == txs[k'] && m2 - {k'} == rest;
      assert |m1| < |txs| && |m2| < |txs|;
      PostedRemove(m1, a, k);
      PostedRemove(m2, a, k');
      var p1 := Posted(m1, a);
      var p2 := Posted(m2, a);
      var pr := Posted(rest, a);
      assert p1 == Share(txs[k], a) + pr;
      assert p2 == Share(txs[k'], a) + pr;
    }
  }

  /** Adding a new transaction adds exactly its share. */
  lemma PostedInsert(txs: map<Id, Transaction>, a: Id, k: Id, t: Transaction)
    requires k !in txs
    ensures Posted(txs[k := t], a) == Posted(txs, a) + Share(t, a)
  {
    PostedRemove(txs[k := t], a, k);
    assert txs[k := t] - {k} == txs;
  }

  /** Replacing a transaction swaps its old share for its new one. */
  lemma PostedReplace(txs: map<Id, Transaction>, a: Id, k: Id, t: Transaction)
    requires k in txs
    ensures Posted(txs[k := t], a) == Posted(txs, a) - Share(txs[k], a) + Share(t, a)
  {
    PostedRemove(txs[k := t], a, k);
    PostedRemove(txs, a, k);
    assert txs[k := t] - {k} == txs - {k};
  }

  /** Balance consistency: every account's balance has moved from its base
      by exactly the sum of its transactions' stored amounts. */
  ghost predicate Consistent(s: Store, base: map<Id, real>) {
    forall a :: a in s.accounts ==> a in base && s.accounts[a].balance - base[a] == Posted(s.transactions, a)
  }

  /** Expenses are stored non-positive and income non-negative. */
  predicate SignsMatch(s: Store) {
    forall k :: k in s.transactions ==>
      (s.transactions[k].kind == Expense ==> s.transactions[k].amount <= 0.0) &&
      (s.transactions[k].kind == Income ==> s.transactions[k].amount >= 0.0)
  }

  /** Referential integrity of accounts: every transaction references an
      existing account. */
  predicate Resolved(s: Store) {
    forall k :: k in s.transactions ==> s.transactions[k].account in s.accounts
  }
}
