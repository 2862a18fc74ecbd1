# Wallet app: a Dafny model of its money logic

The wallet app keeps accounts, transactions, categories and budget settings
per user. An Express/Mongoose backend stores them. A React client folds the
transaction list into reports, charts and budget alerts. This project models
two parts of it:

- the backend handlers that move money;
- the pure computations the client runs over what the backend returns.

It then proves properties of that model.

**Backend.** The store is a set of maps from ids to records, and each record
carries its owner's id (`Ledger`). Every controller handler is a total function
from a store to a `Reply`:

- `Done(store', body)` commits a new store;
- `Failed(NotFound | Unauthorized | BadRequest)` (HTTP 404 / 401 / 400)
  leaves the store as it was.

This is the all-or-nothing shape of the Mongo session with its abort. The
central invariant (`Invariants.Consistent`) is that for every account,
`balance − base == Σ stored amounts of the transactions that reference it`.
Here `base` is the balance the account was created with, kept as a separate
argument and not stored on the account. Two further invariants sit beside it:

- `SignsMatch`: expenses are stored with a non-positive amount;
- `Resolved`: every transaction's account exists.

The express-validator chains are predicates over a request record
(`Validators`).

**Client.** A transaction reaches the client as a `Views.TxView`. Its type is
kept as a string, and its category and account are populated references, or
null once the record is gone. The report components are folds over such lists:

- `ReportSummary` and `ReportTable`;
- `TransactionStats`;
- the group-bys behind `CategoryChart`, `MonthlyTrend` and `TransactionCharts`.

Each fold is related to independent reference sums (`Views.Total`,
`Views.AbsTotal`) and to a generic group-by over insertion-ordered
dictionaries (`GroupBy`). The budget components are modelled too:

- the exceeded/warning classification of `BudgetAlert`;
- the progress, colour and notice rules of `BudgetProgress`;
- the `Number(x) || 0` sanitisation of the settings API;
- the list edits of the settings and category forms;
- the CSV assembly of the export.

**Conventions.**

- Money is `real`.
- Dates are integers (timestamps).
- These are parameters of the model:
  - the clock (`now`, `monthStart`, `monthEnd`);
  - the ids the database assigns;
  - date formatting (`monthKey`, `dayKey`, `formatDate`);
  - `isISO8601` and date parsing;
  - JavaScript's string-to-number parsing of non-blank strings;
  - `JSON.stringify` of a single value.

**What the code does that a reader might not expect.** The model keeps all of
these as written:

- **The date range is ignored.** The transaction list ignores its
  `startDate`/`endDate` query, so the client's "monthly" budget figures cover
  all of the caller's transactions (`TransactionController.List`).
- **Expenses reach the client as negative amounts.** `BudgetAlert` sums them
  without `Math.abs`. So against a positive limit it can never raise an
  alert, neither for the month nor for a category
  (`BudgetAlert.PositiveLimitsNeverAlert`). `BudgetProgress` does take
  absolute values.
- **Transaction update does not check that the target account exists.** When
  it is missing, the revert on the old account still commits, while create
  refuses (`TransactionController.UpdateMissingTargetCommits`). The balance
  invariant still holds over the accounts that exist, because the stored
  transaction now points at no account. What breaks is `Resolved`
  (`TransactionController.UpdateResolvedIffTargetExists`).
- **Account update copies the request body wholesale.** A supplied `balance`
  breaks the balance invariant
  (`AccountController.UpdateConsistentIffBalanceKept`). A supplied `user`
  hands the record to another user (`AccountController.UpdateCanHandOver`).
  Category and transaction updates spread the body the same way.
- **Deletes do not cascade.**
  - Deleting an account leaves its transactions in place, pointing at
    nothing.
  - Deleting a category makes its transactions show "Uncategorized".
- **Create never checks whose account it posts to.** The code never checks
  who owns the target account: the create succeeds and moves the other
  user's balance (`TransactionController.CreateIgnoresAccountOwner`).
- **The two budget components sum spending differently.**
  - `BudgetAlert` sums the raw, signed amounts of the expenses whose
    category still resolves (`BudgetAlert.CategorySpend`).
  - `BudgetProgress` sums the absolute amounts of the expenses with a
    category id (`BudgetProgress.ByCategorySum`).
- **Minimum lengths are measured as validator.js measures them.** The
  variation selectors U+FE0E and U+FE0F do not count towards the minimum
  description or category-name length (`Validators.VisibleLength`).

## Model

| member | source | states |
|---|---|---|
| TransactionController.Signed | wallet-app-backend/src/controllers/transactionController.js:32-46 | The stored amount and the balance increment have the magnitude of the entered amount; non-positive for an expense, non-negative for income |
| TransactionController.List | wallet-app-backend/src/controllers/transactionController.js:8-18 | Returns every transaction the caller owns, each exactly once and nothing else, populated, ordered newest first; the date-range arguments do not narrow it |
| TransactionController.PopulateAll | wallet-app-backend/src/controllers/transactionController.js:11-12 | One populated view per owned record, same ids in the same order |
| TransactionController.Create | wallet-app-backend/src/controllers/transactionController.js:23-65 | Fails with 400 exactly when the account does not exist (or the id is taken), persisting neither the transaction nor a balance change; otherwise stores the signed amount with the caller as owner and adds exactly that amount to that account, leaving every other record alone |
| TransactionController.CreateIgnoresAccountOwner | wallet-app-backend/src/controllers/transactionController.js:28-50 | A create against another user's existing account succeeds, is owned by the caller, and moves the other user's balance |
| TransactionController.Update | wallet-app-backend/src/controllers/transactionController.js:70-117 | 404 for a missing id and 401 for another user's transaction, store unchanged; otherwise subtracts the old stored amount from the old account, overwrites the record (supplied fields, `user` included, replace the old ones) and adds the new signed amount to `account || old account` |
| TransactionController.Delete | wallet-app-backend/src/controllers/transactionController.js:122-154 | 404 / 401 with the store unchanged; otherwise subtracts exactly the stored amount from the transaction's account and removes only that transaction |
| TransactionController.CreateKeepsConsistent | wallet-app-backend/src/controllers/transactionController.js:31-56 | Create preserves `balance − base == Σ stored amounts` for every account |
| TransactionController.UpdateKeepsConsistent | wallet-app-backend/src/controllers/transactionController.js:85-109 | Update preserves the balance invariant over the existing accounts, also when the target account is missing |
| TransactionController.DeleteKeepsConsistent | wallet-app-backend/src/controllers/transactionController.js:137-146 | Delete preserves the balance invariant |
| TransactionController.HandlersKeepSigns | wallet-app-backend/src/controllers/transactionController.js:31-98 | Create, update and delete keep every expense stored non-positive and every income non-negative |
| TransactionController.CreateDeleteKeepResolved | wallet-app-backend/src/controllers/transactionController.js:42-54 | Create and delete keep every transaction's account existing |
| TransactionController.UpdateResolvedIffTargetExists | wallet-app-backend/src/controllers/transactionController.js:103-107 | After a permitted update every transaction's account exists if and only if the target account exists |
| TransactionController.UpdateSameAccountNet | wallet-app-backend/src/controllers/transactionController.js:86-107 | When the account is unchanged, its balance moves by new signed amount minus old stored amount |
| TransactionController.UpdateMissingTargetCommits | wallet-app-backend/src/controllers/transactionController.js:103-109 | With a missing target account, update still commits the revert on the old account and leaves a dangling transaction, where create with a missing account fails with 400 |
| AccountController.List | wallet-app-backend/src/controllers/accountController.js:6-13 | Returns exactly the caller's accounts, each once |
| AccountController.Create | wallet-app-backend/src/controllers/accountController.js:18-33 | Stores the supplied name, type and balance (0 when absent) with the caller as owner; a missing name, an unknown type or a taken id is a 400 |
| AccountController.Merge | wallet-app-backend/src/controllers/accountController.js:51-55 | Every supplied field, `balance` and `user` included, overwrites the stored one; the others stay |
| AccountController.Update | wallet-app-backend/src/controllers/accountController.js:38-61 | 404 for a missing account, 401 for another user's, store unchanged; otherwise stores the merge and touches nothing else |
| AccountController.Delete | wallet-app-backend/src/controllers/accountController.js:66-87 | 404 / 401 with the store unchanged; otherwise removes only that account, transactions untouched |
| AccountController.CreateKeepsConsistent | wallet-app-backend/src/controllers/accountController.js:22-27 | A new account starts consistent with its initial balance as base, provided no stored transaction already references the new id |
| AccountController.UpdateConsistentIffBalanceKept | wallet-app-backend/src/controllers/accountController.js:51-55 | A permitted update keeps the balance invariant if and only if it supplies no balance or the current one |
| AccountController.DeleteKeepsConsistentLeavesDangling | wallet-app-backend/src/controllers/accountController.js:80 | Delete keeps the balance invariant and the transactions, which stay resolved only if none referenced the account |
| AccountController.UpdateCanHandOver | wallet-app-backend/src/controllers/accountController.js:47-55 | An update carrying another `user` hands the account over, after which the former owner gets 401 |
| CategoryController.List | wallet-app-backend/src/controllers/categoryController.js:6-13 | Returns exactly the caller's categories, each once |
| CategoryController.Create | wallet-app-backend/src/controllers/categoryController.js:18-33 | Stores name and description with the caller as owner and `subcategories` defaulting to `[]`; a missing or empty name or a taken id is a 400 |
| CategoryController.Merge | wallet-app-backend/src/controllers/categoryController.js:51-55 | Every supplied field, `user` included, overwrites the stored one |
| CategoryController.Update | wallet-app-backend/src/controllers/categoryController.js:38-61 | 404 / 401 with the store unchanged; otherwise stores the merge and nothing else |
| CategoryController.Delete | wallet-app-backend/src/controllers/categoryController.js:66-85 | 404 / 401 with the store unchanged; otherwise removes only that category |
| CategoryController.HandlersKeepLedger | wallet-app-backend/src/controllers/categoryController.js:18-85 | Category handlers keep all three ledger invariants |
| CategoryController.DeletedCategoryShowsUncategorized | wallet-app-backend/src/controllers/categoryController.js:79 | After a category is deleted its transactions remain and are shown as "Uncategorized" |
| CategoryController.RenameShowsInViews | wallet-app-backend/src/controllers/categoryController.js:51-55 | A renamed category shows its new name on its transactions |
| BudgetController.Get | wallet-app-backend/src/controllers/budgetController.js:6-22 | Returns the caller's settings unchanged when they exist; otherwise creates `{monthlyLimit: 0, categoryLimits: []}` for the caller only and returns it |
| BudgetController.Update | wallet-app-backend/src/controllers/budgetController.js:27-41 | Upsert: replaces the supplied fields of the caller's settings, creating them if absent, and changes nothing else |
| BudgetController.GetIdempotent | wallet-app-backend/src/controllers/budgetController.js:8-16 | A second get creates nothing and returns the same record |
| BudgetController.GetAfterUpdate | wallet-app-backend/src/controllers/budgetController.js:31-35 | A get after an update returns the values written |
| BudgetController.UpdateIdempotent | wallet-app-backend/src/controllers/budgetController.js:31-35 | Repeating an update changes nothing more |
| BudgetController.HandlersIsolateUsers | wallet-app-backend/src/controllers/budgetController.js:32 | Another user's settings are neither created, removed nor changed |
| BudgetController.HandlersKeepLedger | wallet-app-backend/src/controllers/budgetController.js:8-35 | Budget handlers keep all three ledger invariants |
| Ledger.Guard | wallet-app-backend/src/controllers/transactionController.js:77-83 | 404 when the record is missing, 401 when another user owns it, pass otherwise |
| Ledger.Bump | wallet-app-backend/src/controllers/transactionController.js:86-90 | `$inc` changes only the named account's balance, and silently does nothing when it is missing |
| Ledger.Populate | wallet-app-backend/src/controllers/transactionController.js:10-12 | The populated view carries the stored amount and type, and a reference exactly when the referenced record exists |
| Listing.CollectOwned | wallet-app-backend/src/controllers/transactionController.js:10 | `find({ user })` yields every owned record exactly once and nothing else |
| Listing.SortNewestFirst | wallet-app-backend/src/controllers/transactionController.js:13 | The result is a permutation of the input ordered by date descending |
| Validators.ValidTransactionIff | wallet-app-backend/src/validators/transactionValidators.js:3-39 | A request passes iff the amount is numeric and at least 0.01, the type is income or expense, the trimmed description has at least 3 characters not counting U+FE0E/U+FE0F, the date is present and ISO 8601, and category and account are object ids |
| Validators.MongoIdShapes | wallet-app-backend/src/validators/transactionValidators.js:24-33 | An object id is 24 characters: either 24 hexadecimal digits, or a `0x`/`0h` prefix (either case) followed by 22 hexadecimal digits, because validator.js checks `isHexadecimal` before the length |
| Validators.DecimalRoundTrip | wallet-app-backend/src/validators/transactionValidators.js:7 | Every decimal written as sign, digits and optional fraction passes `isNumeric` and reads back as its value |
| Validators.ValidAmountPositive | wallet-app-backend/src/validators/transactionValidators.js:34-36 | A validated amount is positive and carries no minus sign |
| Validators.CreateBody | wallet-app-backend/src/controllers/transactionController.js:28-35 | The create body holds the parsed amount, the trimmed description, expense exactly for type "expense", and a date exactly when one was sent |
| Validators.UpdatePatch | wallet-app-backend/src/controllers/transactionController.js:93-104 | The update patch holds the parsed amount and type, and an account exactly when a non-empty one was sent |
| Validators.ValidatedCreate | wallet-app-backend/src/controllers/transactionController.js:28-54 | A validated create fails exactly when the account is missing; when it succeeds the stored amount has the entered magnitude, is negative iff the type is expense, and the description has at least 3 characters |
| Validators.ValidatedUpdate | wallet-app-backend/src/controllers/transactionController.js:93-107 | A validated update by the owner succeeds, retargets to the sent account and stores the entered magnitude |
| Validators.CategoryBodyOf | wallet-app-backend/src/validators/categoryValidators.js:4-12 | The handler receives the trimmed name and, when sent, the trimmed description |
| Validators.ValidatedCategoryCreate | wallet-app-backend/src/validators/categoryValidators.js:3-17 | A validated category create fails only on an id clash and stores a trimmed name of at least 2 characters not counting U+FE0E/U+FE0F |
| Validators.SelectorPaddedNameRejected | wallet-app-backend/src/validators/categoryValidators.js:4-9 | A one-letter name padded with a variation selector is rejected as too short |
| Validators.VisibleLengthAppend | wallet-app-backend/src/validators/transactionValidators.js:18 | The length `isLength` measures adds up over concatenation |
| Validators.VisibleLengthCounts | wallet-app-backend/src/validators/transactionValidators.js:18 | The measured length is the plain length exactly for text without variation selectors, and text holding any variation selector measures shorter |
| Validators.BlankCategoryNameRejected | wallet-app-backend/src/validators/categoryValidators.js:4-7 | A missing or whitespace-only name is rejected |
| Text.TrimEmptyIffBlank | wallet-app-backend/src/validators/categoryValidators.js:5-6 | A string trims to empty exactly when it is all whitespace |
| Text.TrimIdempotent | wallet-app-backend/src/validators/transactionValidators.js:17 | Trimming twice is trimming once |
| Views.CategoryLabel | wallet-app-clientside/src/components/Reports/ReportTable.jsx:86 | A missing category shows as "Uncategorized", a named one as its name; the label is never empty |
| Views.AccountLabel | wallet-app-clientside/src/utils/exportData.js:33 | A missing account shows as "Unknown Account", a named one as its name |
| Views.Select | wallet-app-clientside/src/components/Reports/CategoryChart.jsx:10 | Every kept transaction is selected and comes from the input, and every selected input transaction is kept |
| Views.SelectOne | wallet-app-clientside/src/components/Reports/CategoryChart.jsx:10 | A single transaction is kept exactly when the predicate selects it |
| Views.SelectDistributes | wallet-app-clientside/src/components/Reports/CategoryChart.jsx:10 | Filtering a concatenation concatenates the filtered parts, so the filter keeps the input's order and multiplicity |
| Views.WindowSplit | wallet-app-clientside/src/components/Transactions/TransactionStats.jsx:13-21 | Every sum splits into the part inside the date window and the part outside it |
| GroupBy.Group | wallet-app-clientside/src/components/Reports/CategoryChart.jsx:11-15 | The reduce into an object yields distinct keys |
| GroupBy.GroupKeys | wallet-app-clientside/src/components/Reports/CategoryChart.jsx:11-17 | The keys are exactly the keys of the items: every item lands in its own bucket and no bucket is empty |
| GroupBy.GroupGet | wallet-app-clientside/src/components/Reports/MonthlyTrend.jsx:27-38 | Each bucket holds the fold of exactly the items with its key |
| GroupBy.GroupSum | wallet-app-clientside/src/components/Reports/CategoryChart.jsx:11-18 | For a commutative monoid the buckets add up to the fold over all items |
| ReportSummary.SummarizeTotals | wallet-app-clientside/src/components/Reports/ReportSummary.jsx:5-16 | Income is the sum over type "income", expenses the sum over every other type, net their difference, and the two add up to the sum of all amounts (all zero for an empty list) |
| ReportSummary.SummarizeOrderFree | wallet-app-clientside/src/components/Reports/ReportSummary.jsx:5-16 | The totals do not depend on the order of the transactions |
| ReportTable.TotalsMeaning | wallet-app-clientside/src/components/Reports/ReportTable.jsx:4-18 | Expenses are the sum over type "expense", income the sum over every other type, their sum is the sum of all amounts and the net is their difference |
| ReportTable.AgreesWithSummary | wallet-app-clientside/src/components/Reports/ReportTable.jsx:7-11 | On income and expense transactions only, the table and the summary agree |
| ReportTable.OtherTypeDisagrees | wallet-app-clientside/src/components/Reports/ReportTable.jsx:7-11 | A transaction of any other type counts as income in the table but as an expense in the summary |
| TransactionStats.TotalsMeaning | wallet-app-clientside/src/components/Transactions/TransactionStats.jsx:10-22 | Totals split income against every other type; each total is its monthly part plus the part outside the month |
| TransactionStats.IncomeTotals | wallet-app-clientside/src/components/Transactions/TransactionStats.jsx:16-18 | Total and monthly income are the income sums over all and over the month's transactions |
| TransactionStats.ExpenseTotals | wallet-app-clientside/src/components/Transactions/TransactionStats.jsx:19-22 | Total and monthly expenses are the non-income sums over all and over the month's transactions |
| TransactionStats.LargestBounds | wallet-app-clientside/src/components/Transactions/TransactionStats.jsx:24-30 | The largest amount is non-negative and at least every amount |
| TransactionStats.LargestIsFirstMaximum | wallet-app-clientside/src/components/Transactions/TransactionStats.jsx:24-40 | The largest transaction is the empty record when no amount is positive, otherwise the first transaction with the maximal amount |
| CategoryChart.Build | wallet-app-clientside/src/components/Reports/CategoryChart.jsx:17-18 | Labels and data have equal length; labels are distinct and non-empty |
| CategoryChart.Labels | wallet-app-clientside/src/components/Reports/CategoryChart.jsx:10-12 | A label appears iff a transaction of that type carries that category name (or "Uncategorized"), for names that are not inherited `Object.prototype` properties |
| CategoryChart.Slice | wallet-app-clientside/src/components/Reports/CategoryChart.jsx:11-15 | Each slice is the sum of that type's amounts under its label, for labels that are not inherited `Object.prototype` properties |
| CategoryChart.SlicesSum | wallet-app-clientside/src/components/Reports/CategoryChart.jsx:11-18 | The slices add up to the sum of the amounts of that type, when no label is an inherited `Object.prototype` property |
| MonthlyTrend.Build | wallet-app-clientside/src/components/Reports/MonthlyTrend.jsx:40-42 | Labels, income and expense series have equal length; labels are distinct |
| MonthlyTrend.Labels | wallet-app-clientside/src/components/Reports/MonthlyTrend.jsx:27-28 | There is one label per distinct month of the transactions |
| MonthlyTrend.Point | wallet-app-clientside/src/components/Reports/MonthlyTrend.jsx:29-36 | Each month's income and expense are the folds over that month's transactions, income against every other type |
| MonthlyTrend.SeriesTotals | wallet-app-clientside/src/components/Reports/MonthlyTrend.jsx:27-42 | Over the months, income sums to total income and expenses to the total of every other type |
| TransactionCharts.Build | wallet-app-clientside/src/components/Dashboard/TransactionCharts.jsx:57-59 | Labels, income and expense series have equal length; labels are distinct |
| TransactionCharts.Labels | wallet-app-clientside/src/components/Dashboard/TransactionCharts.jsx:39-48 | A day appears iff some transaction inside the month falls on it |
| TransactionCharts.ExpensesNonNegative | wallet-app-clientside/src/components/Dashboard/TransactionCharts.jsx:49-53 | Every expense point is non-negative |
| TransactionCharts.SeriesTotals | wallet-app-clientside/src/components/Dashboard/TransactionCharts.jsx:39-59 | Over the days, income sums to the month's income and expenses to the month's absolute non-income amounts |
| BudgetAlert.Classify | wallet-app-clientside/src/components/Budget/BudgetAlert.jsx:29-45 | Exceeded iff the limit is non-zero and spend > limit; warning iff the limit is non-zero, not exceeded and 10·spend > 9·limit; nothing otherwise (one level at most) |
| BudgetAlert.NinetyPercentIsQuiet | wallet-app-clientside/src/components/Budget/BudgetAlert.jsx:37 | Exactly 90% of a positive limit raises nothing, exactly 100% a warning |
| BudgetAlert.ClassifyMonotone | wallet-app-clientside/src/components/Budget/BudgetAlert.jsx:29-45 | Against a positive limit more spending never lowers the level |
| BudgetAlert.MonthlyExpensesTotal | wallet-app-clientside/src/components/Budget/BudgetAlert.jsx:22-24 | The monthly expense is the raw sum of the expense amounts |
| BudgetAlert.CategorySpend | wallet-app-clientside/src/components/Budget/BudgetAlert.jsx:49-57 | A category has an entry iff some expense carries it, and its spend is the raw sum of those expenses |
| BudgetAlert.LimitLevel | wallet-app-clientside/src/components/Budget/BudgetAlert.jsx:59-80 | A category with no recorded spend or a zero limit never alerts; otherwise it follows the two-tier rule |
| BudgetAlert.Check | wallet-app-clientside/src/components/Budget/BudgetAlert.jsx:22-80 | One monthly level from the raw expense total, and one level per configured category limit, in order |
| BudgetAlert.ListedExpensesNonPositive | wallet-app-backend/src/controllers/transactionController.js:32 | Every expense the backend lists reaches the client non-positive |
| BudgetAlert.PositiveLimitsNeverAlert | wallet-app-clientside/src/components/Budget/BudgetAlert.jsx:22-24 | With the stored signs, a positive monthly or category limit never raises an alert |
| BudgetProgress.TotalSpendingMeaning | wallet-app-clientside/src/components/Budget/BudgetProgress.jsx:25-27 | Total spending is the sum of absolute expense amounts, hence non-negative |
| BudgetProgress.ByCategorySum | wallet-app-clientside/src/components/Budget/BudgetProgress.jsx:30-38 | The per-category spending adds up to the expenses with a category id, at most the total spending |
| BudgetProgress.ByCategoryKeys | wallet-app-clientside/src/components/Budget/BudgetProgress.jsx:30-38 | A category has an entry iff some expense carries that non-empty id |
| BudgetProgress.CalculateProgress | wallet-app-clientside/src/components/Budget/BudgetProgress.jsx:82-85 | Never above 100, and 0 for a missing, zero, NaN or infinite limit |
| BudgetProgress.ProgressOfPositiveLimit | wallet-app-clientside/src/components/Budget/BudgetProgress.jsx:82-85 | Against a positive limit the bar is full iff spending reached the limit, and otherwise shows spent/limit·100 |
| BudgetProgress.ProgressColor | wallet-app-clientside/src/components/Budget/BudgetProgress.jsx:87-91 | Red from 90, yellow from 75 below 90, green below 75: the three bands partition the range |
| BudgetProgress.ColorMonotone | wallet-app-clientside/src/components/Budget/BudgetProgress.jsx:87-91 | A higher percentage never shows a milder colour |
| BudgetProgress.BarColor | wallet-app-clientside/src/components/Budget/BudgetProgress.jsx:113-116 | Against a positive limit the bar is red iff 90% of the limit is spent and green iff less than 75% |
| BudgetProgress.CategoryProgress | wallet-app-clientside/src/components/Budget/BudgetProgress.jsx:131-132 | A category bar never exceeds 100 and is empty when nothing was spent under its key |
| BudgetProgress.ObjectKeyBarsEmpty | wallet-app-clientside/src/components/Budget/BudgetProgress.jsx:131-139 | Looked up under the key `"[object Object]"`, which is what the category object converts to, every bar against a positive limit is 0, because 24-character category ids never match that key |
| BudgetProgress.Percentage | wallet-app-clientside/src/components/Budget/BudgetProgress.jsx:56 | With a non-zero limit the percentage times the limit is 100 times the spending; a missing limit gives NaN |
| BudgetProgress.Notify | wallet-app-clientside/src/components/Budget/BudgetProgress.jsx:53-79 | Nothing when alerts are off or the percentage is NaN; otherwise half iff 50 ≤ p < threshold, threshold iff p ≥ threshold, critical iff p ≥ 90, exceeded iff p > 100 |
| BudgetProgress.NoticesOfPositiveLimit | wallet-app-clientside/src/components/Budget/BudgetProgress.jsx:58-78 | Against a positive limit critical fires iff 90% is spent and exceeded iff the limit is passed; half and threshold never fire together |
| BudgetProgress.ZeroLimitNotices | wallet-app-clientside/src/components/Budget/BudgetProgress.jsx:56-78 | A zero limit with positive spending fires threshold, critical and exceeded |
| BudgetProgress.BannerMatchesThresholdNotice | wallet-app-clientside/src/components/Budget/BudgetProgress.jsx:157 | For a positive limit the banner shows exactly when the threshold notice fires |
| Js.NumberOrZero | wallet-app-clientside/src/services/api.js:60 | The result is the converted number when truthy and 0 otherwise, never NaN |
| BudgetApi.SanitizeLimits | wallet-app-clientside/src/services/api.js:61-64 | Missing limits become `[]`; otherwise length, order, ids and other fields are kept and only `limit` is sanitised |
| BudgetApi.Get | wallet-app-clientside/src/services/api.js:55-67 | A null response reads as the defaults. Otherwise the response keeps its other fields, the monthly limit becomes `Number(limit)`, or 0 when that is falsy, and the category limits are the response's own entries with each sanitised |
| BudgetApi.Update | wallet-app-clientside/src/services/api.js:68-77 | The posted body has only the two fields: the monthly limit as `Number(limit)`, or 0 when that is falsy, and the body's own category entries with each sanitised |
| BudgetApi.Idempotent | wallet-app-clientside/src/services/api.js:69-74 | Sanitising a sanitised response or body changes nothing |
| BudgetApi.UpdateIsGetWithoutRest | wallet-app-clientside/src/services/api.js:55-77 | The posted body is the sanitised read of the same document without its other fields |
| BudgetSettings.Add | wallet-app-clientside/src/components/Budget/BudgetSettings.jsx:79-86 | Appends `{categoryId, limit: 0}` only when the id is absent (a no-op otherwise), so unique ids stay unique |
| BudgetSettings.Remove | wallet-app-clientside/src/components/Budget/BudgetSettings.jsx:88-93 | Drops the entries with that id and keeps every other entry |
| BudgetSettings.RemoveDistributes | wallet-app-clientside/src/components/Budget/BudgetSettings.jsx:91 | Removal works entry by entry, so the kept entries stay in order |
| BudgetSettings.RemoveUndoesAdd | wallet-app-clientside/src/components/Budget/BudgetSettings.jsx:79-93 | Removing an id just added restores the list |
| BudgetSettings.Entered | wallet-app-clientside/src/components/Budget/BudgetSettings.jsx:73 | `''` stays `''`; anything else becomes a number |
| BudgetSettings.Change | wallet-app-clientside/src/components/Budget/BudgetSettings.jsx:68-77 | Only the matching entries' limits change; length and ids are kept |
| BudgetSettings.SubmitBody | wallet-app-clientside/src/components/Budget/BudgetSettings.jsx:46-52 | The submitted entries keep id and order and carry `Number(limit)` |
| BudgetSettings.Submitted | wallet-app-clientside/src/components/Budget/BudgetSettings.jsx:46-52 | What is posted keeps the ids in order, sends a cleared field as 0 and every limit as `Number(limit) \|\| 0` |
| CategoryForm.Initial | wallet-app-clientside/src/components/Categories/CategoryForm.jsx:6-12 | The form starts from the record's name, description and subcategories, falling back to `''`, `''` and `[]` for each field that is missing, whether or not there is a record |
| CategoryForm.AddSubcategory | wallet-app-clientside/src/components/Categories/CategoryForm.jsx:30-38 | Appends the trimmed input and clears it when it holds more than whitespace; otherwise changes nothing |
| CategoryForm.AddedIsTrimmed | wallet-app-clientside/src/components/Categories/CategoryForm.jsx:31-34 | The appended entry is never blank and is its own trim |
| CategoryForm.RemoveAtSlices | wallet-app-clientside/src/components/Categories/CategoryForm.jsx:43 | The index filter cuts out exactly that element, keeping the rest in order; an index outside the list removes nothing |
| CategoryForm.RemoveSubcategory | wallet-app-clientside/src/components/Categories/CategoryForm.jsx:40-45 | Only the subcategory list changes: an index inside it cuts out exactly that entry, and an index outside it removes nothing |
| CategoryForm.RemoveUndoesAdd | wallet-app-clientside/src/components/Categories/CategoryForm.jsx:30-45 | Removing the entry just added restores the form data |
| PrototypeForm.AddRow | src/components/Categories/CategoryForm.jsx:10-15 | One more empty row, the others unchanged |
| PrototypeForm.UpdateRow | src/components/Categories/CategoryForm.jsx:17-24 | Replaces only the given row and keeps the length |
| PrototypeForm.RemoveRow | src/components/Categories/CategoryForm.jsx:26-31 | Removes exactly the given row, keeping the order of the rest |
| PrototypeForm.NonBlank | src/components/Categories/CategoryForm.jsx:33-38 | The submitted list has no blank entry and keeps every non-blank one |
| PrototypeForm.NonBlankDistributes | src/components/Categories/CategoryForm.jsx:37 | The filter works row by row, so the kept rows stay in order |
| PrototypeForm.NonBlankIdempotent | src/components/Categories/CategoryForm.jsx:37 | Filtering twice is filtering once |
| PrototypeForm.UntouchedRowsSubmitNothing | src/components/Categories/CategoryForm.jsx:4-15 | The initial single empty row, and any untouched added rows, submit no subcategory |
| ExportData.PrepareRow | wallet-app-clientside/src/utils/exportData.js:27-34 | Each row has the six columns in order |
| ExportData.PreparedFields | wallet-app-clientside/src/utils/exportData.js:28-33 | Type, Amount and Description are copied; Category and Account fall back to "Uncategorized" and "Unknown Account" |
| ExportData.Prepare | wallet-app-clientside/src/utils/exportData.js:26-27 | One row per transaction, in order |
| ExportData.Lookup | wallet-app-clientside/src/utils/exportData.js:19 | A field the row lacks reads as undefined |
| ExportData.Csv | wallet-app-clientside/src/utils/exportData.js:14-20 | Text exists iff there is at least one row |
| ExportData.CsvReadsBack | wallet-app-clientside/src/utils/exportData.js:16-20 | With no line breaks or commas inside the fields, the text splits into `data.length + 1` lines, the header's keys and then one field per header key per row |
| ExportData.PreparedHeader | wallet-app-clientside/src/utils/exportData.js:16-18 | The first line of an export of transactions is the six column names joined by commas |
| Text.SplitJoin | wallet-app-clientside/src/utils/exportData.js:18-20 | Splitting a join by its separator gives the parts back when no part contains a separator character |

## Left out

- CategoryChart.Labels: category names that equal a property inherited from `Object.prototype` are outside the model. The model treats the reduce's `{}` as empty, but the source does not. The category validators accept any trimmed name of at least two characters, so a name such as `toString`, `constructor`, `valueOf`, `hasOwnProperty` or `__proto__` can occur. For `__proto__`, the step sets `acc.__proto__` to a string, which JavaScript ignores. So that label never reaches `Object.keys`, and the chart leaves those transactions out. The other group-bys are unaffected, because their keys are category ids or formatted month and day keys, which are never inherited names.
- CategoryChart.Slice: for an inherited name other than `__proto__`, `acc[k] || 0` reads the inherited function. The slice then becomes a string, the function's source text with the amounts appended (`"function toString() { [native code] }-5"`), not a sum. Such names are outside the model, as for CategoryChart.Labels.
- CategoryChart.SlicesSum: the slices add up to the type total only when no transaction of that type carries an inherited `Object.prototype` name (see CategoryChart.Labels and CategoryChart.Slice).
- Mongo sessions and concurrency: each handler is one atomic transition. The reads of the record before the session's writes (transaction update and delete) are not interleaved with other requests.
- Errors the database can raise on its own, and the 500 status of account delete and of the budget handlers. Only the statuses the handlers decide (404, 401, and 400 for a missing account, a schema violation or an id clash) are modelled.
- Floating point: money is exact `real`. Rounding, `toFixed`, the `/30` daily averages of the stats panel and the golden-angle colours of the pie chart are left out.
- Dates and time zones: dates are integers. The clock, `startOfMonth`/`endOfMonth` and the `format` keys are parameters. Two dates mapping to one key is all the model assumes of them.
- The ordering JavaScript gives to integer-like object keys: a group-by keeps keys in insertion order.
- `JSON.stringify` of a single value, the XLSX and PDF exports, `saveAs`, the receipt upload, authentication, the axios client and its interceptor, React state and effects, toasts and their de-duplication, and the five-minute re-check timer. These are library, network or rendering code.
- The pages, layouts, lists, charts' rendering, prototype pages with dummy data, recurring-transaction components (they call API methods that do not exist), the budget template model, the route wiring and the server bootstrap. None of them compute anything of their own.
- The monthly-limit field of the settings form follows the same `''`-or-`Number` rule as `BudgetSettings.Entered` and is not modelled separately.
- PrototypeForm.UpdateRow: requires an index inside the list. JavaScript array assignment past the end creates holes, which a sequence of strings cannot hold; the form only calls it with an existing row's index.
- BudgetProgress.CategoryProgress: the key is a plain string parameter, because the user profile's category-limit shape is not part of this model. As written, the component looks up `categorySpending[catLimit.category]`. The lines after it read `category._id` and `category.name`, so `catLimit.category` is an object. An object used as a property key becomes the string `"[object Object]"`, and no category id equals it. So every category bar against a positive limit is 0; BudgetProgress.ObjectKeyBarsEmpty states this.
- Validators.ValidTransactionIff: assumes the ISO 8601 check rejects the empty string, as `isISO8601` does.
- Validators.CreateBody, Validators.UpdatePatch: require a numeric amount, because the routes run the validation rules before either handler.
- Js.NumberOrZero: NaN and the infinities are modelled; parsing a non-blank string is a parameter.
- Invariants.Consistent is ghost bookkeeping: the base balance is not a field of the stored account.
