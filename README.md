# Leo Furniture profit tracker: a Dafny model of the ledger core

This project models the bookkeeping core of a small furniture retailer's profit
tracker. It proves properties of that model in Dafny.

- **Items ledger** (`Items`, items.dfy).
  - The API's items table is a `Ledger` class that owns a `seq<Item>`, an id counter and a creation clock.
  - `GET/POST/PATCH/DELETE /items` are its methods. Each one's result and new table are proved equal to a pure specification function (`ListOwned`, `CreateRow`, `PatchSpec`, `DeleteSpec`), and those functions carry the handlers' promises.
  - PATCH keeps the source's loop that builds the `SET` list and its placeholders. The model proves that the statement the loop builds writes exactly the parsed update.
- **Profit summary** (`Analytics`, analytics.dfy).
  - Three filtered sums over one owner's rows, plus `net_profit = gross_sales - total_cost - total_delivery`.
  - Lemmas show how appending, replacing and removing a row moves the sums. They also show that other owners' rows never count.
- **Expense recorder** (`Expenses`, expenses.dfy).
  - The `ExpenseCreate` schema and the ownership check.
  - An `ExpenseLog` class whose `Create` appends one row and leaves the items table alone.
- **Web client helpers** (`Client`, client.dfy).
  - The sold / in-stock tab filter, the counters, and the per-row profit column.
  - The checks and request bodies of the Add Item and Mark Sold forms.
  - A proof that the page's profit column agrees with the summary.
- **CORS policy** (`Cors` and `Text`, cors.dfy and text.dfy).
  - The allowlist is built from `CORS_ORIGIN` by split, trim and filter. JavaScript's `trim` whitespace set is written out.
  - The origin callback decides by cases.
- **Cross-component flows** (`Flows`, flows.dfy). These lemmas show how each ledger operation moves the summary, and what happens on the server to the client's Mark Sold request (see Findings).

Errors follow `api/src/middleware/error.js`. A schema rejection becomes `InvalidInput` (400). A handler's own answer becomes `BadRequest`/`NotFound` with its message (400/404). Anything else becomes `ServerError` (500). Money is an `int` in minor units. A number read by `Number()` is `Whole(n)`, `Fraction` or `NotFinite`. A JSON key is `Absent`, `Null` or `Present(v)`.

Notes on the handlers' behaviour:
- PATCH accepts only `status` and `sold_price`; any other key is stripped by the schema.
- An empty patch passes the schema and is answered `400 "No fields"`.
- A sold item created without `delivery_price` stores 0.
- The `sold_price ?? 0` default at creation is never reached, because an absent price was already rejected.
- A `null` sold price is rejected by the schema (400 "Invalid input").

## Model

| member | source | states |
|---|---|---|
| Common.StatusCode | api/src/middleware/error.js:1-7 | schema rejections and the handlers' own 400 answers give 400, not-found gives 404, everything else gives 500 |
| Text.SkipSpaces | api/src/app.js:15 | the leading cut: only spaces before it, a non-space or the end at it |
| Text.BackSpaces | api/src/app.js:15 | the trailing cut: only spaces after it, a non-space or the leading cut just before it |
| Text.Trim | api/src/app.js:15 | the result neither starts nor ends with a space and is no longer than the input |
| Text.TrimKeepsOut | api/src/app.js:15 | trimming adds no character: one missing from the input is missing from the result |
| Text.TrimPadded | api/src/app.js:15 | trimming removes exactly the surrounding whitespace: pre + t + post trims to t |
| Text.TrimEmptyIff | api/src/app.js:15 | a piece trims to "" if and only if it is all whitespace |
| Cors.Split | api/src/app.js:15 | split(",") gives at least one piece and no piece holds a comma |
| Cors.JoinSplit | api/src/app.js:15 | joining the pieces with commas gives back the original text |
| Cors.SplitAtComma | api/src/app.js:15 | splitting "a,b" gives the pieces of a followed by the pieces of b |
| Cors.Entries | api/src/app.js:15 | after trim and filter(Boolean), every entry is non-empty and trimmed, and there are no more entries than pieces |
| Cors.EntriesNoComma | api/src/app.js:15 | comma-free pieces give comma-free entries |
| Cors.EntriesAppend | api/src/app.js:15 | trim-and-filter distributes over concatenation |
| Cors.Allowlist | api/src/app.js:15 | every allowlist entry is non-empty, trimmed and comma-free; an unset CORS_ORIGIN reads as "" and gives an empty list |
| Cors.Decide | api/src/app.js:17-22 | no or empty origin is allowed; an empty list allows all; a listed origin is allowed; any other origin is blocked |
| Cors.AllowlistOfJoined | api/src/app.js:15 | the list written "a,b" is the list of a followed by the list of b |
| Cors.SingleOrigin | api/src/app.js:15-21 | one space-padded origin is the whole list: it passes and every other origin is blocked |
| Cors.BlankSettingAllowsAll | api/src/app.js:15-19 | a setting of only commas and spaces gives an empty list, which allows every origin |
| Cors.CommaOriginBlocked | api/src/app.js:20-21 | with a non-empty list of comma-free entries, such as every allowlist, an origin containing a comma is blocked |
| Items.ParseCategory | api/src/routes/items.js:12 | accepts exactly the five category names, and names the category it accepts |
| Items.ParsePatchStatus | api/src/routes/items.js:67 | accepts exactly listed, sold, shipped and returned, never in_store |
| Items.CreateRow | api/src/routes/items.js:28-59 | an Ok result exactly when the schema holds and a sold item has a price; the schema error or the sold_price message otherwise; the row is consistent and non-negative; an in-store row gets no price, delivery 0 and status in_store; a sold row gets its price, its delivery or 0, and status sold |
| Items.ListOwned | api/src/routes/items.js:20-25 | only the caller's rows of the table, newest first on a table kept in creation order |
| Items.ListOwnedComplete | api/src/routes/items.js:22 | every row of the caller is listed |
| Items.MatchIndex | api/src/routes/items.js:89 | finds a row whose id and owner both match, or reports that none matches |
| Items.MatchOwnRow | api/src/routes/items.js:89 | with ids growing in creation order, a row's id and owner select that row |
| Items.ParseItemUpdate | api/src/routes/items.js:66-73 | accepts exactly a known non-in_store status or none, and a non-negative price or none; keeps exactly the present keys; drops in_store and delivery_price |
| Items.UpdateEntries | api/src/routes/items.js:79 | the update has no entries if and only if it has neither status nor price |
| Items.ApplySetters | api/src/routes/items.js:87-92 | executing the SET list changes only status and sold_price |
| Items.Patched | api/src/routes/items.js:79-92 | the row the UPDATE leaves: a status or price in the update is written, a missing one leaves the column as it was, nothing else changes, and a non-negative price keeps a non-negative row non-negative |
| Items.BuiltStatementApplies | api/src/routes/items.js:75-92 | the SET list and parameters the loop builds are well bound and write exactly the parsed update |
| Items.PatchSpec | api/src/routes/items.js:66-96 | every error leaves the table unchanged: bad input gives 400, no fields gives 400 "No fields", an unowned or missing id gives 404; a valid, non-empty patch of an owned row succeeds; on success only the matching row changes, a key given in the body is written with its value, an absent key leaves its column as it was, and status never becomes in_store |
| Items.DeleteRows | api/src/routes/items.js:102-105 | survivors are rows of the table that do not match; nothing is removed exactly when no row matches |
| Items.DeleteKeepsOthers | api/src/routes/items.js:102-105 | every row that does not match both id and owner survives |
| Items.DeleteOne | api/src/routes/items.js:102-105 | with unique ids, the delete removes exactly the matching row and keeps the others in order |
| Items.NoMatch | api/src/routes/items.js:102-105 | a delete of an id no row has leaves the table as it was |
| Items.DeleteSpec | api/src/routes/items.js:98-109 | a non-finite id gives 400 "Invalid id"; no matching row gives 404; errors leave the table unchanged; success removes a matching row and keeps only non-matching ones |
| Items.ParseSellUpdate | web/src/App.jsx:320-325 | the sell body is accepted exactly when it carries in_store false, both non-negative amounts and status sold or none |
| Items.SellSpec | web/src/App.jsx:316-326 | a malformed sell body gives 400 "Invalid input" and a row the caller does not own gives 404 "Not found", both leaving the table unchanged; a valid body for an owned row succeeds, and the sale changes only the matching row: it leaves the store, consistent, with the given price and delivery |
| Items.AppendKeepsStored | api/src/routes/items.js:36-60 | a row inserted under the next id and timestamp keeps the ledger invariant |
| Items.ReplaceKeepsStored | api/src/routes/items.js:87-92 | a row rewritten in place under its own id and timestamp keeps the ledger invariant |
| Items.RemoveKeepsStored | api/src/routes/items.js:102-105 | removing a row keeps the ledger invariant |
| Items.Ledger.List | api/src/routes/items.js:20-26 | returns ListOwned of the table: exactly the caller's rows, newest first |
| Items.Ledger.Create | api/src/routes/items.js:28-63 | appends the row CreateRow derives, under the next id and timestamp, and advances both by one; on error the table, the id counter and the clock are unchanged; keeps the ledger invariant |
| Items.Ledger.Patch | api/src/routes/items.js:71-96 | the loop-built UPDATE yields the answer and table PatchSpec gives; keeps the ledger invariant |
| Items.Ledger.Delete | api/src/routes/items.js:98-109 | the answer and table DeleteSpec gives; keeps the ledger invariant |
| Items.Ledger.Sell | web/src/App.jsx:306-326 | the answer and table SellSpec gives; keeps the ledger invariant |
| Analytics.TotalAppend | api/src/routes/analytics.js:22-37 | each sum over a concatenation is the sum of the two parts |
| Analytics.TotalUpdate | api/src/routes/analytics.js:22-37 | replacing one row moves each sum by the difference of the two rows' terms |
| Analytics.TotalRemove | api/src/routes/analytics.js:22-37 | removing one row takes its term out of each sum |
| Analytics.TotalOfListed | api/src/routes/analytics.js:23-35 | each sum over the table equals the sum over the rows GET /items shows the caller |
| Analytics.SummaryIgnoresOthers | api/src/routes/analytics.js:22-43 | two tables that show the caller the same rows give the same four values |
| Analytics.Term | api/src/routes/analytics.js:22-37 | a row of another owner adds nothing; an in-store row adds nothing to sales or delivery; a non-negative row adds a non-negative term |
| Analytics.Total | api/src/routes/analytics.js:22-37 | COALESCE(SUM, 0): 0 when none of the caller's rows take part; non-negative over non-negative rows |
| Analytics.Summarize | api/src/routes/analytics.js:17-45 | net profit is gross sales less cost less delivery; an owner without rows gets four zeros, never a missing value; non-negative rows give non-negative sums |
| Analytics.SummaryAppend | api/src/routes/analytics.js:17-45 | adding a row adds its terms to gross, cost, delivery and net |
| Analytics.AddInStoreItem | api/src/routes/analytics.js:22-43 | an in-store item of cost c lowers net profit by c and leaves sales and delivery unchanged |
| Analytics.AddSoldItem | api/src/routes/analytics.js:22-43 | a sold item moves net profit by its price less its cost and delivery |
| Analytics.NetProfitByRow | api/src/routes/analytics.js:8-16 | net profit is the sum of each row's sale less cost less delivery |
| Expenses.ParseExpenseType | api/src/routes/expenses.js:11 | accepts exactly the five expense types, and names the type it accepts |
| Expenses.RecordExpense | api/src/routes/expenses.js:15-29 | invalid input gives 400; an item the caller does not own gives 404 "Item not found"; an Ok result exactly when the input is valid and the caller owns the item; the expense carries the given item, type and amount |
| Expenses.ExpenseLog.Create | api/src/routes/expenses.js:15-29 | appends exactly the expense RecordExpense yields and advances the id counter by one, or changes nothing; the items table is unchanged |
| Client.KeepSold | web/src/App.jsx:226 | keeps only rows with in_store === false |
| Client.KeepInStock | web/src/App.jsx:227 | keeps only rows with in_store !== false |
| Client.KeepSoldAppend | web/src/App.jsx:226 | the sold view keeps the list's order: filtering a + b gives the view of a followed by the view of b |
| Client.KeepInStockAppend | web/src/App.jsx:227 | the in-stock view keeps the list's order in the same way |
| Client.Partition | web/src/App.jsx:224-228 | the sold and in-stock views together hold exactly the rows of the list |
| Client.FilteredItems | web/src/App.jsx:224-228 | "all" is the list itself; "sold" shows only sold rows; any other tab shows only unsold rows |
| Client.Computed | web/src/App.jsx:230-238 | total is the list length and sold + in stock = total |
| Client.RowProfit | web/src/App.jsx:777-781 | a profit is shown exactly for rows with in_store === false |
| Client.RowProfitOfStored | web/src/App.jsx:777-781 | for a stored row, the profit column is that row's share of the net profit, or none in store |
| Client.ColumnsMatchNet | web/src/App.jsx:776-781 | the profit column less the stock cost is the row-by-row net |
| Client.TableAgreesWithSummary | web/src/App.jsx:776-781 | over the caller's page, the profit column less the stock cost is the summary's net profit |
| Client.AddItem | web/src/App.jsx:240-269 | rejected exactly on an empty trimmed number or title, a bad cost, or a bad sold price or delivery for a sold item; the body carries the trimmed fields, with the price and delivery present exactly for a sold item |
| Client.AddItemAccepted | web/src/App.jsx:257-271 | a body the form sends with a listed category is accepted by the API and stored as entered |
| Client.ConfirmSell | web/src/App.jsx:306-326 | nothing without a chosen row; rejected exactly on a bad price or delivery; otherwise the body has status sold, both amounts and in_store false |
| Flows.CreateMovesSummary | api/src/routes/items.js:49-59 | a created in-store row lowers net profit by its cost; a created sold row moves it by price less cost less delivery |
| Flows.DeleteMovesSummary | api/src/routes/items.js:102-108 | a delete removes one row and exactly its share of cost and net profit |
| Flows.PatchMovesOnlySales | api/src/routes/items.js:79-92 | a patch never moves cost or delivery, and on an in-store row it moves nothing |
| Flows.MarkSoldIsDropped | api/src/routes/items.js:66-69 | the client's Mark Sold request leaves the row in store with status sold, a price and the old delivery; the summary does not move |
| Flows.SellRecordsSale | web/src/App.jsx:316-326 | the same request as a sell transition moves the row out of the store and adds its price and delivery to the summary |
| Flows.PatchBreaksConsistency | api/src/routes/items.js:79-82 | a patch can put a sale price on an in-store row, a shape no creation gives |
| Flows.SummaryScenarios | api/src/routes/analytics.js:12-15 | worked examples: one in-store item gives net -100; one sold item gives net 30; one of each gives 120, 130, 10 and -20 |

## Left out

- Authentication (api/src/routes/auth.js), the listener (api/src/server.js) and the fetch wrapper (web/src/api.js) are not part of this model. The owner is a parameter of every operation.
- The database, the SQL text, the pool, and concurrent requests are not modelled. The table is a sequence owned by one object, and ids and `created_at` come from counters.
- The store's answer to a non-integer id is an assumption: a fractional id in PATCH or DELETE, and a non-finite one in PATCH, is taken as a store error (`ServerError`, 500).
- Deleting an item does not touch its expenses in the model. The schema's foreign-key rules are not part of it.
- JSON type errors are not modelled: bodies are taken with their required keys present and of their JSON types. Other zod rejections are.
- Float parsing, `money()`/`safeNumber()` in the client, and the `Number()` conversions of the summary are not modelled. Amounts are exact integers and a non-finite read is `None`. In the client, a blank field reads as 0 and is not told apart here.
- Integer widths, and the rounding of large sums, are not modelled.
- The client's React state updates (clearing the form, closing the modal, reloading the list) and all rendering are left out. Only the checks and the request bodies are modelled.
- List idempotence needs no lemma: `Items.Ledger.List` changes nothing and its result is a function of the table.
- Items.Stored, the ledger invariant, does not include the creation shape (`Consistent`), because PATCH as written breaks it (see Flows.PatchBreaksConsistency).

## Findings

| source | as written | input that shows it | evidently intended | confidence | as-written member | corrected member |
|---|---|---|---|---|---|---|
| api/src/routes/items.js:66-69 | ItemUpdate declares only status and sold_price, so the in_store:false and delivery_price the Mark Sold form sends (web/src/App.jsx:320-325) are stripped; the row stays in store with status sold and never enters gross sales | an in-store item of cost 100, marked sold with price 150 and delivery 20: the row keeps in_store true and delivery 0, and net profit stays -100 | the sale moves the row out of the store with its price and delivery, so net profit becomes 30 | not executed | Flows.MarkSoldIsDropped | Flows.SellRecordsSale |
