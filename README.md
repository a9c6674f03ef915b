# Self expense tracker: a verified model of its core

The tracker is a single-page personal finance app. It has two back ends:
- a hosted store reached through a client data service;
- a small local REST server over an SQLite file.

The model covers the parts of the app that compute or change its data:

- **Types** (`types.dfy`): the record types, the expense/income kind, the ten categories and the default profile.
  - Amounts are whole **cents**, so the default monthly budget of 3000 is `300000`.
  - `Sum`, the generic `Filter` and `TotalOf` are the folds the views use.
- **Order** (`order.dfy`):
  - The string order used on `YYYY-MM-DD` dates.
  - A stable insertion sort `Sort`, which is what the JavaScript engine's sort guarantees. It is proved to be a permutation, sorted, stable, unique among stable sorts, and to commute with filtering.
  - `SortInPlace` sorts an `array` in place and is proved equal to `Sort`.
  - `OrderedValues` gives the rows of a keyed table in the order of an `ORDER BY`.
- **Calendar, Digits** (`calendar.dfy`, `digits.dfy`): the proleptic Gregorian calendar and zero-padded decimal text. The dashboard needs them for its seven `YYYY-MM-DD` day keys.
- **Dashboard** (`dashboard.dfy`):
  - The seven-day chart: per-day spent and earned, with `MM/DD` labels.
  - The category breakdown. It is a loop over a dictionary in first-seen key order, modelled as a method proved against a specification function.
  - The total spent.
- **App** (`app.dfy`): the top-level component as a class.
  - Its state is the session flag, the list, the profile, the tab and the record being edited.
  - Its handlers take each store call as a function parameter, so success and a thrown error are both modelled.
  - Rendering the history tab reorders its list: the listing sorts the array it is given in place, and that array is the app's own.
  - The net balance and the budget bar are also here. The budget bar keeps JavaScript's `NaN` and `-Infinity` results for a zero budget.
- **Listing** (`listing.dfy`): the transaction history table.
  - Its constructor sorts the array it is given in place.
  - It has the category filter, the re-sort and the newest-first display.
- **Amounts, Form** (`amounts.dfy`, `form.dfy`):
  - The amount text of the form: `toString` when a record is loaded, and parsing on submit. They are proved to round-trip.
  - The form's state machine: loading, the kind toggles and submission.
- **Server** (`server.dfy`): the REST routes over a map-valued `expenses` table and the single-row `profile` table, with their status codes.
- **Api** (`api.dfy`): the client data service over abstract store tables. It covers the profile read and write mapping, the update-or-insert of the profile, and the guards and error paths of each call.
- **Wiring** (`wiring.dfy`): the form mounted with the app's add handler, as written and corrected.

Current dates ("today") and generated ids are parameters.

## Model

| member | source | states |
|---|---|---|
| Types.CategoryNameInjective | types.ts:2-12 | the ten categories have ten distinct names |
| Types.Filter | components/ExpenseList.tsx:17 | `Array.prototype.filter`: the result holds exactly the input's elements that satisfy the predicate, in order, and is never longer |
| Order.LexLe | components/ExpenseList.tsx:22 | the date comparison; `LexLeTotal`, `LexLeTransitive` and `LexLeAntisymmetric` make it a total order on date strings |
| Order.Sort | components/ExpenseList.tsx:13 | the engine's stable sort by a comparator; `SortPermutes`, `SortSorted` and `SortStable` give its meaning and `StableSortUnique` shows no other stable sort differs |
| Order.SortInPlace | components/ExpenseList.tsx:13 | `Array.prototype.sort` reorders the array itself: afterwards it holds the stable sort of its old contents |
| Order.SortPermutes | components/ExpenseList.tsx:13 | sorting keeps exactly the same records (as a multiset) |
| Order.SortSorted | components/ExpenseList.tsx:13 | the sorted list is in comparator order, pairwise |
| Order.SortStable | components/ExpenseList.tsx:26 | records that compare equal keep their original relative order |
| Order.StableSortUnique | components/ExpenseList.tsx:26 | two stable sorted permutations of one list are equal, so the result of a re-sort is determined |
| Order.SortFilterCommute | components/ExpenseList.tsx:16-27 | sorting a filtered list equals filtering the sorted list |
| Order.OrderedValues | server/index.js:50 | a table scan with ORDER BY returns every row once, keys distinct, in the requested order |
| Calendar.PrevDay | components/Dashboard.tsx:15 | the day before a valid date is a valid date, strictly earlier; `PrevDayImmediate` shows it is the very day before |
| Calendar.PrevDayImmediate | components/Dashboard.tsx:15 | a valid date is before `d` exactly when it is `PrevDay(d)` or before it: no valid date lies in between |
| Calendar.Iso | components/Dashboard.tsx:16 | a date is written as `YYYY-MM-DD`: four digits, a dash, two digits, a dash, two digits |
| Calendar.IsoValue | components/Dashboard.tsx:16 | the three digit groups of the key denote the year, the month and the day, in that order |
| Calendar.IsoInjective | components/Dashboard.tsx:16 | distinct valid dates give distinct day keys |
| Calendar.LastSevenDays | components/Dashboard.tsx:13-17 | the seven keys `Iso(today - (6 - i))` for i = 0..6; their properties are the two lemmas below |
| Calendar.WindowConsecutive | components/Dashboard.tsx:13-17 | neighbouring window days are consecutive calendar days, with no valid date between them |
| Calendar.LastSevenDaysShape | components/Dashboard.tsx:13-17 | the window has seven distinct day keys, strictly increasing, the last one today |
| Calendar.WindowAcrossNewYear | components/Dashboard.tsx:13-17 | the window ending 2024-01-03 runs from 2023-12-28 through 2024-01-03 |
| Dashboard.JoinSplit | components/Dashboard.tsx:27 | joining the pieces of a split with the same separator gives the string back |
| Dashboard.Label | components/Dashboard.tsx:27 | `split('-').slice(1).join('/')`; `LabelOfIsoDate` gives its value on a day key |
| Dashboard.LabelOfIsoDate | components/Dashboard.tsx:27 | the label of `YYYY-MM-DD` is `MM/DD` |
| Dashboard.LabelExample | components/Dashboard.tsx:27 | the label of 2024-01-07 is `01/07` |
| Dashboard.ChartData | components/Dashboard.tsx:19-31 | one bucket per window day, in window order |
| Dashboard.WeekChart | components/Dashboard.tsx:12-32 | the chart over the seven-day window; its shape and partition are the lemmas below |
| Dashboard.WeekChartShape | components/Dashboard.tsx:12-32 | the chart has seven buckets, one per window day in order; each holds the day's expense and income sums |
| Dashboard.ChartIgnoresOutside | components/Dashboard.tsx:19-25 | adding a record dated outside the window leaves the chart unchanged |
| Dashboard.ChartPartition | components/Dashboard.tsx:19-31 | the buckets of a kind add up to that kind's total over the records dated in the window |
| Dashboard.WeekChartPartition | components/Dashboard.tsx:12-32 | the same for the seven-day window: over distinct days nothing is counted twice |
| Dashboard.FirstSeen | components/Dashboard.tsx:38-42 | the dictionary's keys are distinct |
| Dashboard.FirstSeenMembers | components/Dashboard.tsx:36-42 | a category is a key exactly when some expense record has it |
| Dashboard.CategoryData | components/Dashboard.tsx:34-43 | the breakdown as a specification: one entry per expense category in first-seen order, with the category's total |
| Dashboard.CategoryTotals | components/Dashboard.tsx:34-43 | the loop over the expense records builds exactly the entries of the specification: one per category in first-seen order, each with its total |
| Dashboard.Tabulate | components/Dashboard.tsx:38-40 | after the `forEach` the keys are the expense categories in first-seen order, without repeats, and each maps to the sum of its records' amounts |
| Dashboard.CategoryDataNames | components/Dashboard.tsx:36-42 | an entry names a category iff some expense record has it, and no category has two entries |
| Dashboard.CategoryDataValues | components/Dashboard.tsx:38-40 | each entry's value is the total of the expense records of its category |
| Dashboard.CategoryDataIgnoresIncome | components/Dashboard.tsx:36-37 | appending an income record does not change the breakdown |
| Dashboard.TotalSpent | components/Dashboard.tsx:45 | the sum of the entries' values, left to right |
| Dashboard.TotalSpentIsExpenseTotal | components/Dashboard.tsx:45 | the total of the breakdown equals the total of all expense records |
| App.AddSettles | App.tsx:92-99 | as written, the add handler's promise resolves whatever the store call did |
| App.AddSettlesRethrowing | App.tsx:92-99 | the corrected handler's promise rejects exactly when the store call failed |
| App.Replaced | App.tsx:105 | the update keeps the length and replaces exactly the entries carrying the returned id |
| App.ReplacedIdempotent | App.tsx:105 | applying the same update twice is the same as once |
| App.ReplacedAbsent | App.tsx:105 | an update whose id is not in the list leaves it unchanged |
| App.Removed | App.tsx:116 | a record stays after a delete iff it was there and has another id |
| App.RemovedIdempotent | App.tsx:116 | deleting twice equals deleting once |
| App.RemovedAppend | App.tsx:116 | deleting distributes over concatenation |
| App.RemovedAbsent | App.tsx:116 | deleting an absent id changes nothing |
| App.Recent | App.tsx:190 | the recent list is the last min(5, n) records, in order |
| App.RecentOfNewestFirst | App.tsx:190 | on a newest-first list, as the stores return it, the panel holds the earliest-dated records: none newer than a record left out |
| App.RecentOfDateSorted | App.tsx:190 | once the list is sorted oldest-first, the panel holds the latest-dated records: none older than a record left out |
| App.NetBalance | App.tsx:255-257 | the headline fold: income adds, anything else subtracts, left to right |
| App.NetBalanceIsIncomeMinusExpense | App.tsx:255-257 | the running fold equals total income minus total expense |
| App.BudgetPercent | App.tsx:266 | the bar never exceeds 100%; it is 100% exactly when spending reaches the budget; otherwise it is the exact ratio; it is NaN only for 0/0 |
| App.BudgetBar | App.tsx:266 | the bar width is `BudgetPercent` of the expense total over the monthly budget |
| App.BudgetBarClamps | App.tsx:266 | 1200 spent of 1000 shows 100%; 500 of 1000 shows 50% |
| App.AppState.constructor | App.tsx:14-22 | signed out, empty list, default profile, dashboard tab, nothing being edited |
| App.AppState.SignIn | App.tsx:82-84 | only the session changes |
| App.AppState.FetchData | App.tsx:59-74 | when signed in, the list and profile become the fetched ones; otherwise nothing changes |
| App.AppState.HandleLogout | App.tsx:86-90 | the session ends and the list is emptied; profile and tab stay |
| App.AppState.RenderHistory | App.tsx:235-239 | rendering the history tab sorts the app's own list in place, oldest date first, keeping its records; nothing else changes |
| App.AppState.HandleAddExpense | App.tsx:92-99 | a saved record is appended; a failed store call leaves the list; the returned promise always resolves |
| App.AppState.HandleAddExpenseRethrowing | App.tsx:92-99 | the same list update, with a result that is a success exactly when the record was saved |
| App.AppState.HandleUpdateExpense | App.tsx:101-111 | with no record being edited nothing changes; on success the entries with the returned id are replaced, editing ends and the history tab opens; on failure nothing changes |
| App.AppState.HandleDeleteExpense | App.tsx:113-120 | on success every entry with the id is dropped; on failure nothing changes |
| App.AppState.HandleEditClick | App.tsx:122-126 | the record becomes the one being edited, on the form tab |
| App.AppState.SelectTab | App.tsx:147-150 | editing ends and the chosen tab is shown |
| App.AppState.Balance | App.tsx:255-257 | the headline figure is total income minus total expense of the list |
| Listing.DateLeTotalPreorder | components/ExpenseList.tsx:13 | the date comparison is total and transitive, so the sort is well defined |
| Listing.AmountLeTotalPreorder | components/ExpenseList.tsx:26 | the amount comparison is total and transitive |
| Listing.SortedStablePermutation | components/ExpenseList.tsx:20-30 | each re-sort returns a sorted, stable permutation of the list it sorts |
| Listing.SortIdempotent | components/ExpenseList.tsx:20-30 | choosing the same order twice changes nothing the second time |
| Listing.Visible | components/ExpenseList.tsx:16-18 | with no selection the whole list shows; otherwise exactly the records of the selected category, in order |
| Listing.Reverse | components/ExpenseList.tsx:78 | the rows are shown last-first |
| Listing.ReverseInvolutive | components/ExpenseList.tsx:78 | reversing twice gives the view back |
| Listing.ResortedView | components/ExpenseList.tsx:20-27 | a re-sort under a selection keeps only the selected category's records, in sorted order |
| Listing.SortWhileFilteredLosesRecords | components/ExpenseList.tsx:20-27 | after a re-sort under "Food", clearing the filter no longer shows a Travel record |
| Listing.SortWholeListShowsSameRows | components/ExpenseList.tsx:16-27 | sorting the whole list keeps every record and shows the same rows under any selection |
| Listing.PlaceholderFollowsTheList | components/ExpenseList.tsx:35 | a non-empty list whose filter matches nothing still shows the table, not the placeholder |
| Listing.PlaceholderOnlyWhenEmpty | components/ExpenseList.tsx:35 | for every listing: the placeholder shows only when no row could; with no selection exactly when the table is empty; a selection matching nothing in a non-empty list shows an empty table instead |
| Listing.ExpenseList.constructor | components/ExpenseList.tsx:13-14 | the caller's array is sorted by date in place, and the state is its new contents with no selection |
| Listing.ExpenseList.Filtered | components/ExpenseList.tsx:16-18 | the rows the selection lets through, as `Visible` states them |
| Listing.ExpenseList.ShowsPlaceholder | components/ExpenseList.tsx:35 | the placeholder test on the held list; `PlaceholderOnlyWhenEmpty` relates it to the rows shown |
| Listing.ExpenseList.Displayed | components/ExpenseList.tsx:78 | the rows are the filtered list reversed |
| Listing.ExpenseList.HandleSortChange | components/ExpenseList.tsx:20-30 | `date` and `amount` replace the state by the sorted filtered view; any other value changes nothing |
| Listing.ExpenseList.HandleSortChangeKeepingAll | components/ExpenseList.tsx:20-30 | the corrected re-sort: the whole state is sorted and the selection stays |
| Listing.ExpenseList.HandleCategoryFilterChange | components/ExpenseList.tsx:31-33 | only the selection changes |
| Amounts.ShowCents | components/ExpenseForm.tsx:25 | the text is non-empty and starts with a minus exactly for a negative amount |
| Amounts.ParseCents | components/ExpenseForm.tsx:46 | an empty text parses to nothing; a negative result comes from a leading minus |
| Amounts.ShowParseRoundTrip | components/ExpenseForm.tsx:25 | parsing the text that loading writes gives the same amount back |
| Amounts.ShowCentsInjective | components/ExpenseForm.tsx:25 | two different amounts are never written alike |
| Amounts.ShowCentsExamples | components/ExpenseForm.tsx:25 | 12.50 is written `12.5`, 12.00 is written `12`, -0.05 is written `-0.05` |
| Amounts.ParseCentsExamples | components/ExpenseForm.tsx:46 | `12.50` parses to 1250; `1.234` and the empty text are refused |
| Form.CategoriesComplete | components/ExpenseForm.tsx:10-12 | the option list holds each of the ten categories exactly once |
| Form.OfferedCategories | components/ExpenseForm.tsx:164-167 | the category options for a kind; `OfferedCategoriesByKind` states which they are |
| Form.OfferedCategoriesByKind | components/ExpenseForm.tsx:164-167 | an expense offers every category but Income; income offers only Income |
| Form.ExpenseCategory | components/ExpenseForm.tsx:97 | switching to expense yields an offered category, and keeps any non-Income category |
| Form.Payload | components/ExpenseForm.tsx:41-51 | nothing is sent exactly when the amount, description or date is empty or the amount does not parse; a sent record carries the parsed amount and the fields as entered |
| Form.TypedAmountSent | components/ExpenseForm.tsx:41-51 | a filled-in form with the amount `12.50` is sent as 1250 cents with its fields |
| Form.EditRoundTrip | components/ExpenseForm.tsx:23-51 | submitting a record loaded unchanged sends back exactly its data |
| Form.ExpenseForm.constructor | components/ExpenseForm.tsx:14-37 | after mounting, the fields show the record being edited or the blank form dated today |
| Form.ExpenseForm.LoadInitialData | components/ExpenseForm.tsx:23-37 | the fields show the new record, or the blank form with Groceries; the flags stay |
| Form.ExpenseForm.ChooseExpense | components/ExpenseForm.tsx:97 | the kind becomes expense; Income becomes Food, any other category stays |
| Form.ExpenseForm.ChooseIncome | components/ExpenseForm.tsx:111 | the kind becomes income and the category Income |
| Form.ResetsAfter | components/ExpenseForm.tsx:53-58 | the form clears itself and shows success exactly after a resolved `onAdd` with no record being edited |
| Form.ExpenseForm.HandleSubmit | components/ExpenseForm.tsx:39-67 | a guarded submission changes nothing; otherwise the payload goes to `onAdd`; only a resolved add clears the fields (Food, expense, today) and shows success; submitting ends |
| Wiring.SuccessShownAfterFailedAdd | App.tsx:92-99 | with the handler as written, a failed add still clears the form and shows success |
| Wiring.SuccessShownOnlyAfterSavedAdd | components/ExpenseForm.tsx:53-58 | with the corrected handler, success shows exactly when the record was saved |
| Wiring.SubmitNewRecord | components/ExpenseForm.tsx:43-58 | a new record submitted through the add handler as written: the list grows only if the store saved it, yet the form always clears and shows success |
| Wiring.SubmitNewRecordRethrowing | components/ExpenseForm.tsx:43-58 | with the rethrowing handler: a saved record clears the form and shows success; a failure leaves the list, the fields and the overlay as they were |
| Server.Body.RowFor | server/index.js:55-59 | the inserted row carries the id and the five body values |
| Server.DateDescendingTotalPreorder | server/index.js:50 | `ORDER BY date DESC` is a total preorder |
| Server.ExpenseServer.constructor | server/index.js:22-40 | the stored tables are kept; the profile row is seeded only if absent |
| Server.ExpenseServer.SeedProfile | server/index.js:39 | `INSERT OR IGNORE` adds the default row only if id 1 is free |
| Server.ExpenseServer.ListExpenses | server/index.js:49-52 | every row exactly once, newest date first |
| Server.ExpenseServer.Create | server/index.js:54-63 | a complete body under a free id is inserted and returned with 201; otherwise 500 and no change |
| Server.ExpenseServer.Update | server/index.js:65-78 | an unknown id gives 404; a stored row with a missing field gives 500; otherwise the row is overwritten and returned with 200 |
| Server.ExpenseServer.Delete | server/index.js:80-84 | the row is gone and the answer is 204 whether or not it existed |
| Server.ExpenseServer.GetProfile | server/index.js:86-89 | the answer is the row with id 1 |
| Server.DeleteTwice | server/index.js:80-84 | deleting twice equals deleting once; deleting an absent id changes nothing |
| Api.ToDbUpdates | services/apiService.ts:87-91 | `monthlyBudget` is renamed to `monthly_budget`; other fields pass unchanged |
| Api.ToUserProfile | services/apiService.ts:79-82 | the read mapping is the inverse renaming |
| Api.ProfileFromQuery | services/apiService.ts:69-84 | exactly one row and no error gives that row's profile; otherwise the default profile |
| Api.Apply | services/apiService.ts:104-108 | an update writes the present fields and keeps the rest, and the key |
| Api.SavedProfileLoads | services/apiService.ts:79-108 | a complete profile saved over the single row loads back as saved |
| Api.TwoRowsLoadDefault | services/apiService.ts:70-73 | with two profile rows the app falls back to the default profile |
| Api.NewRow | services/apiService.ts:114-118 | an inserted profile row takes the requested fields and the column defaults for the rest |
| Api.FirstSaveLoads | services/apiService.ts:114-118 | a complete profile inserted into the empty table loads back as saved |
| Api.NewerFirstTotalPreorder | services/apiService.ts:9 | the descending date order is a total preorder |
| Api.Store.GetExpenses | services/apiService.ts:5-17 | a failed query gives the empty list; otherwise every record once, distinct ids, newest date first |
| Api.Store.AddExpense | services/apiService.ts:19-39 | no user gives `Not authenticated`; a failed insert gives an error; otherwise the record is stored under the new id with the user's id, and returned |
| Api.Store.UpdateExpense | services/apiService.ts:41-55 | a failed call or an unknown id gives an error and no change; otherwise the fields are overwritten, the owner kept, and the record returned |
| Api.Store.DeleteExpense | services/apiService.ts:57-67 | on success the row is gone; a failed call changes nothing |
| Api.Store.GetProfile | services/apiService.ts:69-84 | the loaded profile is the query's row or the default, never an error |
| Api.Store.UpdateProfile | services/apiService.ts:86-125 | a failed lookup or several rows fails before any write; a row with a truthy id is updated in place; otherwise one row is inserted; a failed write changes nothing |

## Left out

- Sign-in, the session subscription and the landing page (App.tsx:25-57) are left out. They are the hosted store's authentication; the model keeps only a signed-in flag.
- The loading flag and spinner, `alert` and `console` messages, the success overlay's three-second timer and `window.scrollTo` are left out. They are presentation only.
- The AI insights view, the navigation bar's rendering and all markup are not part of this model.
- The local storage service and the browser-database helper are not part of this model, and neither is the store client's configuration.
- Floating point is not modelled: amounts are whole cents.
- Amounts.ParseCents: accepts only an optional minus, digits and at most two fraction digits. `parseFloat` also reads a fraction with no integer part (`.5`, `-.5`), exponents, leading `+`, leading or trailing spaces, a trailing non-numeric tail and more decimals. Those texts give `None` here, not a number.
- Form.Payload: inherits that restriction. A form amount that is not a whole number of cents is blocked rather than sent. An amount text that parses to `NaN` (for example `abc`) is blocked too, where the source would send `NaN`.
- `toLocaleString` formatting of the headline figures is left out; only the numbers are modelled.
- The clock is a parameter (`today`).
  - The source mixes local-time `setDate` with UTC `toISOString`, so near midnight its day keys can be off by one relative to the user's day.
  - The model uses a single calendar.
- Date comparison in the listing uses `new Date(date)`; the model compares the `YYYY-MM-DD` strings, which agrees on well-formed dates. An unparseable date gives `NaN` in the comparator, which the model does not capture.
- Generated ids (`Math.random` on the server, the hosted store's keys) are parameters. Collisions are modelled as rejected inserts.
- Server: SQLite's type affinity and the `REAL` column's float conversion are not modelled. Body values are stored as given, and the `type` column is plain text.
- The logging middleware, CORS, `dotenv` and `listen` are left out.
- Api: the hosted store's row-level security, which limits each query to the signed-in user's rows, is not modelled. `GetExpenses` returns every stored record.
- Api.Store.GetProfile: a `null` column value in the stored row is not modelled; rows always carry all three fields.
- App.AppState.FetchData: the two requests run together; if either rejects, neither result is used. The model takes the results of a successful fetch and leaves out the rejected case, which changes nothing.
- Concurrency is left out. Handlers run one at a time, and interleavings between pending promises (for example a stale closure over `editingExpense`) are not modelled.
- Listing.ExpenseList: the state is initialised once per mount, so a later change of the `expenses` prop does not reach the listing's own list. The model has no operation for a prop change.
- App.AppState.RenderHistory: the app's list is a value, not the array object. The in-place sort the listing applies to the array it is handed, on every render of the history tab, is modelled by copying the list into an array, constructing the listing on it and writing the sorted array back. When a render happens relative to the other handlers is left open.
- The category filter's `null` and `""` are both "no selection", modelled by the empty string.

## Findings

| source | as written | input that shows it | evidently intended | confidence | as-written member | corrected member |
|---|---|---|---|---|---|---|
| components/ExpenseList.tsx:20-30 | a re-sort replaces the held list by the sorted **filtered** view | records Food and Travel, select "Food", sort by date, then select all: the Travel record is no longer listed | sort the whole list and keep the filter a view, so no record is lost | high, not executed | Listing.SortWhileFilteredLosesRecords | Listing.SortWholeListShowsSameRows |
| App.tsx:92-99 | the add handler catches the store's error, so the promise it gives the form always resolves | a store failure on add: the form clears its fields and shows "Transaction Saved!" although nothing was saved | pass the failure on, so the form keeps the fields and shows no success | high, not executed | Wiring.SuccessShownAfterFailedAdd | Wiring.SuccessShownOnlyAfterSavedAdd |

The corrected behaviours are also modelled as methods:
- `Listing.ExpenseList.HandleSortChangeKeepingAll` for the re-sort;
- `App.AppState.HandleAddExpenseRethrowing` for the add handler.

The methods modelling the code as written are `Listing.ExpenseList.HandleSortChange` and `App.AppState.HandleAddExpense`.
