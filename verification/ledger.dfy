/** The backend's document store: accounts, transactions, categories and
    budget settings, each record carrying the id of the user who owns it.
    Every controller handler is modelled as a total transition over this
    store that either commits a new store or fails with an HTTP status and
    leaves the store as it was. */
module Ledger {
  import opened Wrappers
  import Views

  /** A MongoDB ObjectId (or user id), kept as its string form. */
  type Id = string

  /** The schema enum `income | expense`. */
  datatype TxType = Income | Expense {
    function Name(): string {
      match this
      case Income => Views.INCOME
      case Expense => Views.EXPENSE
    }
  }

  /** `kind` is the schema's `type` string; creation only accepts
      `bank`, `cash` or `mobile`, but updates run no schema validators. */
  datatype Account = Account(owner: Id, name: string, kind: string, balance: real)

  /** `amount` is the stored, signed amount (negative for expenses). */
  datatype Transaction = Transaction(
    owner: Id,
    amount: real,
    kind: TxType,
    description: string,
    date: int,
    category: Id,
    account: Id)

  datatype Category = Category(owner: Id, name: string, description: Option<string>, subcategories: seq<string>)

  datatype CategoryLimit = CategoryLimit(categoryId: Id, limit: real)

  /** One budget-settings document; the store keys these by owner. */
  datatype BudgetSetting = BudgetSetting(monthlyLimit: real, categoryLimits: seq<CategoryLimit>)

  datatype Store = Store(
    accounts: map<Id, Account>,
    transactions: map<Id, Transaction>,
    categories: map<Id, Category>,
    budgets: map<Id, BudgetSetting>)

  /** The error responses the handlers send. */
  datatype Failure = NotFound | Unauthorized | BadRequest {
    function Status(): int {
      match this
      case NotFound => 404
      case Unauthorized => 401
      case BadRequest => 400
    }
  }

  /** A handler's outcome: the committed store with the response body, or a
      failure. A failure carries no store: nothing the handler did persists. */
  datatype Reply<T> = Done(store: Store, body: T) | Failed(failure: Failure)

  /** The store after a handler ran. */
  function After<T>(s: Store, r: Reply<T>): Store {
    if r.Done? then r.store else s
  }

  /** The ownership guard every update and delete handler runs before
      writing: 404 when the record is missing, 401 when another user owns
      it, otherwise no failure. `owner` is the record's owner if it exists. */
  function Guard(owner: Option<Id>, caller: Id): (r: Option<Failure>)
    ensures r.None? <==> owner == Some(caller)
    ensures r == Some(NotFound) <==> owner.None?
    ensures r == Some(Unauthorized) <==> owner.Some? && owner.value != caller
  {
    match owner
    case None => Some(NotFound)
    case Some(o) => if o == caller then None else Some(Unauthorized)
  }

  /** The `user` field of each kind of record. */
  function AccountOwner(a: Account): Id { a.owner }
  function TransactionOwner(t: Transaction): Id { t.owner }
  function CategoryOwner(c: Category): Id { c.owner }

  /** `Account.findByIdAndUpdate(id, { $inc: { balance: delta } })`: adds
      `delta` to the balance of account `a` when it exists, and does nothing
      (without failing) when it does not. */
  function Bump(accounts: map<Id, Account>, a: Id, delta: real): (r: map<Id, Account>)
    ensures r.Keys == accounts.Keys
    ensures a in accounts ==> r[a] == accounts[a].(balance := accounts[a].balance + delta)
    ensures forall b :: b in accounts && b != a ==> r[b] == accounts[b]
  {
    if a in accounts then accounts[a := accounts[a].(balance := accounts[a].balance + delta)]
    else accounts
  }

  /** The `populate('category', 'name').populate('account', 'name')` view of
      stored transaction `id`: references to records that no longer exist
      become null. */
  function Populate(s: Store, id: Id): (v: Views.TxView)
    requires id in s.transactions
    ensures v.id == id && v.amount == s.transactions[id].amount
    ensures v.kind == s.transactions[id].kind.Name()
    ensures v.category.Some? <==> s.transactions[id].category in s.categories
    ensures v.account.Some? <==> s.transactions[id].account in s.accounts
  {
    var t := s.transactions[id];
    Views.TxView(
      id, t.amount, t.kind.Name(), t.description, t.date,
      if t.category in s.categories then Some(Views.Ref(t.category, s.categories[t.category].name)) else None,
      if t.account in s.accounts then Some(Views.Ref(t.account, s.accounts[t.account].name)) else None)
  }
}
