# Mahjong-room management: a Dafny model

The system manages a mahjong parlour. Staff open a table by choosing a billing method, record the drinks and snacks served to the table, and check the table out. Several dashboard screens keep lists of tables, products, billing methods and finance records.

This project models two parts of it.

**The table-session store** (`src/lib/db.ts`), modelled as a mutable in-memory database: the class `Db.Store`.
- It has one `seq` field per relation, kept in rowid order: tables, sessions, consumptions, products and billing methods.
- Two counters stand in for the autoincrement ids.
- A `now: int` parameter stands in for `datetime('now')`.
- Each method runs the operation's statements in order:
  - `StartTableSession`: INSERT a session, then UPDATE its table.
  - `AddConsumption`: SELECT the product's price, then INSERT a consumption row.
  - `EndTableSession`: SELECT the session, UPDATE it, UPDATE its table, then read the bill back.
  - `GetActiveTables`: run the LEFT JOIN listing, then loop over its rows attaching consumption lists.
- The SQL those statements run is defined as functions over the relations in `DbRows`.
- The store checks nothing about table or session status, exactly like the code. The intended invariant (a table is `in_use` exactly when it has one active session, and never more than one) is `SessionInvariant.Coherent`. The lemmas there show the following. Starting a session keeps the invariant on an idle table and breaks it on a table in use. Ending an active session keeps it. Ending a completed session keeps it while the table is still idle, and breaks it once the table has been restarted. Adding a consumption touches neither tables nor sessions, so it does not affect the invariant.
- `Ledger` holds the facts about `SUM(quantity * price)` and the bill.

**The data logic of the dashboard screens**:
- `ActiveTables` (the active-tables panel): the elapsed-time split, including JavaScript's truncating `%`; the line subtotals; the guards in front of the three requests; and the `Array.isArray` fallbacks of `loadData`. It also shows that a checkout or a start issued from a row of a fresh listing supplies the guard the store lacks.
- `Finances`: the income and expense totals, the category lists, the filtered listing sorted newest first, and the append of a record.
- `Products`, `TablesManagement` and `BillingManagement`: their filters, their tab counts and their add and delete handlers. Each screen's list is a class with a `seq` field.
- `UiLists`: the rules those handlers share, `id = String(length + 1)` for an add and `filter(x => x.id !== id)` for a delete.
- Library modules: `Text` (ASCII lower-casing, `includes`, `String(n)` and its inverse), `Seqs` (filter, first match, set-of-values in first-occurrence order) and `Common` (Option and Result).

## Model

| member | source | states |
|---|---|---|
| Db.Store.constructor | src/lib/db.ts:4-46 | The store starts with the given tables, products and billing methods, no sessions and no consumptions, and satisfies the key and id-counter invariant `Valid`. |
| Db.Store.StartTableSession | src/lib/db.ts:84-94 | Appends exactly one session: fresh id, the given table and method, start `now`, no end time, status active. Every row of that table becomes `in_use` whatever its prior status. All other tables, sessions, consumptions, products and methods are unchanged. |
| Db.Store.AddConsumption | src/lib/db.ts:106-118 | An unknown product gives `ProductNotFound` and changes nothing. Otherwise exactly one consumption row is appended, with the given session, product and quantity and the product's current price. Session status and quantity are not checked. No table, session, product or method changes. |
| Db.Store.EndTableSession | src/lib/db.ts:126-167 | An unknown session gives `SessionNotFound` and changes nothing. Otherwise that session becomes completed with end `now` and its table becomes idle, whatever the session's prior status. No other row changes. The method returns the bill query's row. |
| Db.Store.GetActiveTables | src/lib/db.ts:49-76 | Returns only the tenant's stored tables, and every table of the tenant gets at least one row, idle or not. A row without a session has no consumptions. A row with a session has exactly that session's consumptions joined with product names. The whole result equals `ActiveTablesView`. |
| DbRows.JoinRows | src/lib/db.ts:50-58 | Every row of the LEFT JOIN is a stored table of the tenant, and its consumption list starts empty. |
| DbRows.JoinTable | src/lib/db.ts:50-58 | The LEFT JOIN gives every table at least one row, and each of that table's rows is about that table. |
| DbRows.JoinRowsKeepsTable | src/lib/db.ts:50-58 | A table of the tenant at any position of the table list has a row in the LEFT JOIN, even when it has no open session. |
| DbRows.JoinRowsKeepsEveryTable | src/lib/db.ts:50-58 | Every table of the tenant has a row in the LEFT JOIN. |
| DbRows.ViewKeepsEveryTable | src/lib/db.ts:49-76 | Every table of the tenant has a row in what `getActiveTables` returns, after consumptions are attached. |
| DbRows.ListedSessionsAreActive | src/lib/db.ts:50-58 | Every session id the listing shows belongs to a stored session that is active and on that row's table. |
| DbRows.FindSessionUnique | src/lib/db.ts:126-128 | With unique session ids, looking up a session's id finds exactly that session. |
| DbRows.MethodsOf | src/lib/db.ts:170-174 | `getBillingMethods` returns exactly the tenant's billing methods: each returned row is stored and the tenant's, and each stored row of the tenant is returned. |
| DbRows.ProductsOf | src/lib/db.ts:176-180 | `getProducts` returns exactly the tenant's products, in both directions. |
| Ledger.LineTotalConcat | src/lib/db.ts:157-161 | Σ quantity × price over two row lists joined is the sum of their totals. |
| Ledger.LineTotalIsScan | src/lib/db.ts:157-161 | Summing the session's selected rows equals an independent scan of the whole ledger. |
| Ledger.SqlSumMeaning | src/lib/db.ts:157-161 | `total_consumption` is NULL exactly when the session has no consumption row. Otherwise it is Σ quantity × price over exactly that session's rows. |
| Ledger.SqlSumAppend | src/lib/db.ts:115-118 | An inserted consumption adds quantity × price to its own session's total, turning NULL into a number, and leaves every other session's total unchanged. |
| Ledger.AddAfterEndAltersBill | src/lib/db.ts:115-118 | After `endTableSession` completes a session and returns its bill, a non-zero consumption can still be added to it, since nothing checks the status. Re-reading the bill then gives a different `total_consumption` from the one returned at checkout. |
| Ledger.GuardedAddKeepsSettledBills | src/lib/db.ts:115-118 | If an insert is limited to an active session, it changes no completed session's total. |
| Ledger.GuardedAddsKeepSettledBills | src/lib/db.ts:115-118 | Over any sequence of inserts that are each limited to an active session, no completed session's total ever changes. |
| Ledger.FindAfterComplete | src/lib/db.ts:135-139 | After the session UPDATE, the lookup finds that session completed with end `now`, while other ids find what they found before. |
| Ledger.FindAfterCompleteOther | src/lib/db.ts:135-139 | Completing one session leaves the lookup of every other id unchanged. |
| Ledger.BillAfterEnd | src/lib/db.ts:149-165 | The bill exists exactly when the session's billing method exists. It carries the completed session, the method's type and base price, and the session's SQL total. |
| SessionInvariant.CountActiveSnoc | src/lib/db.ts:84-87 | Inserting a session raises the active count of its own table by one if it is active, and of no other table. |
| SessionInvariant.CountActiveAfterComplete | src/lib/db.ts:135-139 | With unique ids, completing a session lowers the active count of its table by one if it was active, and leaves every other table's count unchanged. |
| SessionInvariant.StartOnIdleTableKeepsCoherent | src/lib/db.ts:84-94 | If the table is idle, starting a session keeps the invariant. |
| SessionInvariant.StartOnBusyTableBreaksCoherent | src/lib/db.ts:84-94 | Starting on a table already in use gives it two active sessions, breaks the invariant, and makes the LEFT JOIN list it twice. |
| SessionInvariant.EndActiveSessionKeepsCoherent | src/lib/db.ts:126-146 | If the session is still active, ending it keeps the invariant. |
| SessionInvariant.EndCompletedOnIdleTableKeepsCoherent | src/lib/db.ts:126-146 | Ending a session that was already completed keeps the invariant while its table is still idle. |
| SessionInvariant.EndCompletedSessionBreaksCoherent | src/lib/db.ts:126-146 | Ending a session that was already completed, while its table is in use again, idles a table that still has an active session. |
| SessionInvariant.EndTwiceRestamps | src/lib/db.ts:135-146 | Ending a session twice re-stamps its end time and re-idles its table; the result is that of the second call alone. |
| SessionInvariant.JoinRowsInTableOrder | src/lib/db.ts:50-58 | With at most one open session per table, row i of the listing is the tenant's i-th table, and there are no other rows. |
| SessionInvariant.CoherentListingOneRowPerTable | src/lib/db.ts:50-58 | Under the invariant the listing has exactly one row per table of the tenant, in the order of the tables. A row has a session exactly when its table is in use. |
| ActiveTables.JsRem | src/components/dashboard/active-tables.tsx:115 | JavaScript's `%`: the remainder has the dividend's sign, is smaller than the divisor in size, and completes the truncated quotient. |
| ActiveTables.DurationSplit | src/components/dashboard/active-tables.tsx:110-117 | For a start not in the future: hours are the whole hours elapsed, minutes are in 0..59, and hours × 60 + minutes is the whole number of minutes elapsed. |
| ActiveTables.DurationOfNegativeDifference | src/components/dashboard/active-tables.tsx:113-115 | For a start 1 ms in the future the display is −1 hours and −1 minutes, which is not the elapsed −1 minute. |
| ActiveTables.DisplayedTotalOfJoin | src/lib/db.ts:63-68 | When every consumption names an existing product, the product join drops no row: line i is consumption i with its product's name. The shown subtotals add up to Σ quantity × price. |
| ActiveTables.DisplayedLinesMatchBill | src/components/dashboard/active-tables.tsx:255-263 | Every consumption of the session is shown, in order, and each line's subtotal is that consumption's stored price times its quantity. The subtotals shown for a session add up to its ledger total and its bill's `total_consumption`. The list is empty exactly when that total is NULL. |
| ActiveTables.StartTableRequest | src/components/dashboard/active-tables.tsx:132-146 | No request exactly when no billing method is selected (or the selection is 0). Otherwise the request carries the row's table id and the selected method. |
| ActiveTables.AddProductRequest | src/components/dashboard/active-tables.tsx:158-173 | No request exactly when no product is selected or the row has no session id. Otherwise the request carries the session, the product and the quantity as entered. |
| ActiveTables.CheckoutRequest | src/components/dashboard/active-tables.tsx:185-189 | No request exactly when the row has no session id. Otherwise the request carries that id. |
| ActiveTables.StartRequestPassesRoute | src/app/api/tables/start/route.ts:8-13 | Every start request the client sends passes the route's missing-field check, for any table id other than 0. |
| ActiveTables.AddRequestQuantity | src/app/api/tables/add-product/route.ts:8-13 | The route rejects a client add request exactly when the quantity is 0. A negative quantity gets through and lowers the session's total. |
| ActiveTables.ListedTableIsStored | src/lib/db.ts:61-75 | Each row returned by `getActiveTables` is a stored table, and its session id is the one the join produced. |
| ActiveTables.CheckoutFromListingFindsActiveSession | src/components/dashboard/active-tables.tsx:185-191 | A checkout issued from a row of the current listing names a stored session that is active and belongs to that row's table. |
| ActiveTables.CheckoutFromListingKeepsCoherent | src/components/dashboard/active-tables.tsx:361-366 | The dashboard's checkout button therefore keeps the table/session invariant. |
| ActiveTables.StartFromIdleRowKeepsCoherent | src/components/dashboard/active-tables.tsx:271-310 | A start issued from an idle row (the only rows with a start button) keeps the invariant, given unique table ids. |
| ActiveTables.LoadData | src/components/dashboard/active-tables.tsx:82-107 | If any fetch or parse fails, all three lists become empty. Otherwise the `Array.isArray` fallback applies: each list is its body when that is a JSON array, and empty for any other body. |
| ActiveTables.LoadDataFromRoutes | src/components/dashboard/active-tables.tsx:82-107 | When every route answers with its query's rows, the panel holds exactly the listing and the tenant's catalogue. A route answering with an error object empties only its own list. |
| Finances.AmountSumConcat | src/components/finances/finances-management.tsx:142-144 | The sum of amounts over two record lists joined is the sum of their sums. |
| Finances.TotalIsScan | src/components/finances/finances-management.tsx:142-148 | Filter-then-reduce adds exactly the amounts of the records of the given type. |
| Finances.TotalsMeaning | src/components/finances/finances-management.tsx:142-150 | `totalIncome` and `totalExpense` are the amount sums over the income and expense records, and `netProfit` is their difference. |
| Finances.TotalsAfterAppend | src/components/finances/finances-management.tsx:142-150 | Appending a record moves only its own type's total, by its amount, and moves net profit up or down accordingly. |
| Finances.TotalsCoverAll | src/components/finances/finances-management.tsx:142-150 | When every record is income or expense, the two totals together are the sum of all amounts. |
| Finances.ScanKindsCoverAll | src/components/finances/finances-management.tsx:142-150 | The two per-type scans together add every amount once. |
| Finances.CategoriesExact | src/components/finances/finances-management.tsx:126-132 | `incomeCategories` and `expenseCategories` have no duplicates, hold exactly the categories that occur on records of that type, and keep first-occurrence order. |
| Finances.InsertByDate | src/components/finances/finances-management.tsx:139 | Inserting a record gives a permutation of the list plus that record. |
| Finances.InsertByDateSorted | src/components/finances/finances-management.tsx:139 | Inserting into a list sorted newest first keeps it sorted. |
| Finances.SortByDateDesc | src/components/finances/finances-management.tsx:139 | The sort's result is ordered newest first and is a permutation of its input. |
| Finances.FilteredTransactionsMeaning | src/components/finances/finances-management.tsx:135-139 | The listing is newest first, is a permutation of the matching records, and lists a record exactly when (type filter is "all" or equals its type) and (category filter is "all" or equals its category). |
| Finances.InitialFiltersListNothing | src/components/finances/finances-management.tsx:121-122 | With the initial empty filters nothing is listed. |
| Finances.AllFiltersListEverything | src/components/finances/finances-management.tsx:135-138 | With both filters set to "all", every record is listed. |
| Finances.MockIdsArePositions | src/components/finances/finances-management.tsx:24-89 | The initial records are numbered "1".."8" by position, so their ids are unique. |
| Finances.FinancesState.constructor | src/components/finances/finances-management.tsx:120 | The screen starts with the initial records. |
| Finances.FinancesState.AddTransaction | src/components/finances/finances-management.tsx:154-162 | Appends exactly one record at the end: the draft's fields, id `String(old length + 1)` and the current date. Earlier records are unchanged. On a list with positional ids, ids stay positional and unique. |
| Products.CategoriesExact | src/components/products/products-management.tsx:101-103 | `categories` has no duplicates, holds exactly the products' categories, and keeps first-occurrence order. |
| Products.FilteredProductsMeaning | src/components/products/products-management.tsx:106-110 | A product is listed exactly when its lower-cased name includes the lower-cased query and the category filter is "all" or equals its category. The filter keeps catalogue order and distributes over concatenation. |
| Products.EmptySearchListsAll | src/components/products/products-management.tsx:106-110 | An empty query with category "all" lists the whole catalogue. |
| Products.InitialFilterListsNothing | src/components/products/products-management.tsx:97-110 | With the initial empty category filter nothing is listed. |
| Products.MockProductsArePositional | src/components/products/products-management.tsx:35-92 | The initial products are numbered "1".."7" by position, so their ids are unique. |
| Products.DeleteThenAddDuplicatesId | src/components/products/products-management.tsx:112-123 | From the initial catalogue: delete "3", then add; the new product gets id "7", which 花生 still carries. |
| Products.ProductsState.constructor | src/components/products/products-management.tsx:95 | The screen starts with the initial products. |
| Products.ProductsState.AddProduct | src/components/products/products-management.tsx:112-116 | Appends exactly one product, the draft with id `String(old length + 1)`. Earlier products are unchanged. Positional ids stay positional. |
| Products.ProductsState.AddProductWithFreshId | src/components/products/products-management.tsx:112-116 | Corrected add: the id is one more than the largest id in use, so unique ids stay unique. On a list nothing was deleted from, it assigns the same id as `handleAddProduct`. |
| Products.ProductsState.DeleteProduct | src/components/products/products-management.tsx:121-124 | Removes every product with the id, keeps all others in order, adds nothing, and leaves the list unchanged when the id is absent. |
| TablesManagement.GetFilteredTablesMeaning | src/components/tables/tables-management.tsx:87-93 | A table is listed exactly when its lower-cased name includes the lower-cased query and, if a status is given, its status is that one. With no status only the name test applies. Order is kept. |
| TablesManagement.TabCountsAddUp | src/components/tables/tables-management.tsx:121-124 | The occupied, vacant and reserved counts plus the tab-less maintenance tables make up the name-filtered list. So the three tab counts sum to at most its length, which is at most the "all" count. |
| TablesManagement.EmptySearchListsAll | src/components/tables/tables-management.tsx:87-93 | With an empty search the "all" listing is the whole list. |
| TablesManagement.AddRaisesOwnTab | src/components/tables/tables-management.tsx:121-124 | Adding a table raises the "all" count by one and raises only its own status tab, when its name matches. |
| TablesManagement.MockTablesArePositional | src/components/tables/tables-management.tsx:15-80 | The initial tables are numbered "1".."8" by position, so their ids are unique. |
| TablesManagement.TablesState.constructor | src/components/tables/tables-management.tsx:83 | The screen starts with the initial tables. |
| TablesManagement.TablesState.AddTable | src/components/tables/tables-management.tsx:95-97 | Appends exactly one table, the draft with id `String(old length + 1)`. Earlier tables are unchanged. Positional ids stay positional and unique. |
| BillingManagement.MockBillingMethodsWellFormed | src/components/billing/billing-management.tsx:13-59 | The initial methods follow the dialog's package-field rule and are numbered "1".."5" by position. |
| BillingManagement.DeleteThenAddDuplicatesId | src/components/billing/billing-management.tsx:65-73 | From the initial methods: delete "2", then add; the new method gets id "5", which 午市套餐 still carries. |
| BillingManagement.BillingState.constructor | src/components/billing/billing-management.tsx:62 | The screen starts with the initial methods. |
| BillingManagement.BillingState.AddBillingMethod | src/components/billing/billing-management.tsx:65-66 | Length grows by exactly one. Earlier methods are unchanged and in order. The new last method is the draft with id `String(old length + 1)`. Positional ids stay positional. A draft following the package-field rule (src/components/billing/new-billing-method-dialog.tsx:50-51) keeps the list following it. |
| BillingManagement.BillingState.AddBillingMethodWithFreshId | src/components/billing/billing-management.tsx:65-66 | Corrected add: one more than the largest id in use, so unique ids stay unique. It agrees with `handleAddBillingMethod` while nothing was deleted. |
| BillingManagement.BillingState.DeleteBillingMethod | src/components/billing/billing-management.tsx:71-73 | Removes every method with the id, keeps the others in order, and leaves the list unchanged when the id is absent. The package-field rule is kept. |
| UiLists.PositionalIds | src/components/products/products-management.tsx:115 | Positional ids are unique, and the `String(length + 1)` rule keeps them positional. |
| UiLists.RemoveKeyMeaning | src/components/products/products-management.tsx:122 | After a delete no entry carries the id, every entry with another id remains, nothing new appears, and the filter distributes over concatenation (order kept). Deleting an absent id changes nothing. |
| UiLists.RemoveUniqueId | src/components/products/products-management.tsx:122 | With unique ids, deleting entry k's id removes exactly entry k. |
| UiLists.AddAfterRemoveReusesId | src/components/products/products-management.tsx:112-123 | After deleting any entry but the last from a positional list, the add rule's next id is the id of the last entry, which is still present, so the added entry makes ids non-unique. This holds for products and billing methods alike. |
| UiLists.FreshId | src/components/products/products-management.tsx:115 | The corrected id rule produces a numeric id that no entry carries. |
| UiLists.FreshIdOnPositionalIds | src/components/products/products-management.tsx:115 | On a positional list the corrected rule gives the same id as `String(length + 1)`. |
| UiLists.FreshAppend | src/components/products/products-management.tsx:115 | An add under the corrected rule keeps ids numeric and keeps unique ids unique. On a positional list it assigns the same id as `String(length + 1)`. |
| UiLists.RemoveKeepsUnique | src/components/products/products-management.tsx:122 | A delete keeps ids unique and numeric. |
| Text.Lower | src/components/products/products-management.tsx:108 | Lower-casing keeps the length and maps every character by the ASCII case rule. |
| Text.ContainsAt | src/components/products/products-management.tsx:108 | `includes` holds exactly when the query occurs in the name at some offset. |
| Text.ContainsEmpty | src/components/products/products-management.tsx:108 | Every name includes the empty query. |
| Text.DecimalString | src/components/products/products-management.tsx:115 | `String(n)` is a non-empty digit string with no leading zero for n > 0. |
| Text.ParseDecimalString | src/components/products/products-management.tsx:115 | Reading back `String(n)` gives n. |
| Text.DecimalStringInjective | src/components/products/products-management.tsx:115 | Distinct numbers give distinct id strings. |
| Seqs.First | src/lib/db.ts:106-108 | `.first()` returns a stored row that matches, and returns nothing exactly when no row matches. |
| Seqs.Dedup | src/components/products/products-management.tsx:101-103 | `Array.from(new Set(xs))` has no duplicates and holds exactly the values of `xs`. |
| Seqs.DedupFirstOccurrenceOrder | src/components/products/products-management.tsx:101-103 | Its values keep the order of their first occurrence in `xs`. |

## Left out

- Time-charge pricing (hourly, fixed, and package plus overage) is not modelled, because no code computes a charge. The bill returns only the billing method's columns and the consumption total. The `bill.total_amount` the checkout toast shows is computed nowhere.
- Transactions and concurrent callers are not modelled. The store's operations run their statements one after another with no transaction, and the model runs them in sequence.
- SQL execution is stood in for. The D1 engine, its SQL text and the foreign-key constraints are replaced by functions over row sequences. An INSERT always succeeds, and an UPDATE of a missing id changes nothing.
- Row order is assumed. Query results are taken in rowid order, and the LEFT JOIN is taken to list each table's rows in table order, then session order.
- Time is a parameter. `datetime('now')` and `new Date()` are integer parameters.
- Time zones and date parsing are left out. The store writes UTC text without a zone, and the browser parses it as local time. The model takes start and now as millisecond instants, so it does not capture the offset. `ActiveTables.DurationOfNegativeDifference` shows what the display does for a start in the future.
- The network layer is left out: `fetch`, the response bodies and the Next.js route handlers. Only their missing-field 400 checks are carried over, as `StartRouteAccepts` and `AddRouteAccepts`. The checkout route and the listing routes are not part of this model. `ActiveTables.LoadDataFromRoutes` assumes that the listing and catalogue routes answer with their queries' rows; that is an assumption, not something the model shows.
- React state batching, the loading flag, the toasts and all rendering are left out.
- Amounts and quantities are integers. The dialogs parse floats with `parseFloat`, and the quantity field of the consumption dialog is read with `Number(e.target.value)` (src/components/dashboard/active-tables.tsx:349), so it can be fractional. Floating point is not modelled. The dialogs themselves are not modelled, apart from the package-field rule as a predicate.
- `prepareChartData` is not modelled, because it depends on today's date and on `date-fns` formatting.
- Text.Lower: only ASCII letters are lower-cased. JavaScript's `toLowerCase` applies Unicode case mapping, and that is not modelled.
- Finances.SortByDateDesc: the contract states sortedness and permutation, not stability. JavaScript's sort is stable, and the model's insertion sort is too, but that is not proved.
- Finances.MockTransactions: the mock dates are local-time instants encoded by `March2025`, which fixes the local epoch offset at zero.
- The layout pages, the login form, the constant dashboard panels (`dashboard-stats.tsx`, `recent-transactions.tsx`), `tables-list.tsx` (its handlers only toast), `button.tsx` and `drizzle.config.ts` are not part of this model.
- The screens' statuses and billing types are kept separate from the store's. The table screen uses occupied, vacant, reserved and maintenance; the billing screen uses "session". The store uses idle and in_use, and "fixed". The two vocabularies are not reconciled.

## Findings

| source | as written | input that shows it | evidently intended | confidence | as-written member | corrected member |
|---|---|---|---|---|---|---|
| src/components/products/products-management.tsx:115 | `handleAddProduct` gives a new product the id `String(products.length + 1)`, and `handleDeleteProduct` shortens the list. After a delete of anything but the last product, the next add reuses an id that is still present. | Start from the initial catalogue, delete product "3", then add any product. The new product gets id "7", the id 花生 already has, so deleting "7" then removes both. | Ids stay unique across adds and deletes. | not executed | Products.DeleteThenAddDuplicatesId | Products.ProductsState.AddProductWithFreshId |
| src/components/billing/billing-management.tsx:66 | `handleAddBillingMethod` uses `String(billingMethods.length + 1)` after `handleDeleteBillingMethod` has shortened the list, so it reuses an id that is still present. | Start from the initial methods, delete "2", then add any method. The new method gets id "5", the id 午市套餐 already has. | Ids stay unique across adds and deletes. | not executed | BillingManagement.DeleteThenAddDuplicatesId | BillingManagement.BillingState.AddBillingMethodWithFreshId |
