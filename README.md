# Family budget ledger — a verified model

This project models the ledger arithmetic of a shared household budget
app. Every household keeps one table of rows. Each row has an id, a
household, a signed integer `amount`, a transaction date, a creation time
and a description. A positive amount is an expense and a negative amount
is income. A household's balance is minus the sum of its amounts. The
dashboard card (今月の残高, "this month's balance") and the month
statement's footer count rows dated up to the last day of the month only,
while the balance dialog's "set" works on all of the household's rows
(see Findings).

The modules follow the app's screens:

- `Wrappers`: `Option`, `Result`, the outcome of a button handler
  (`Skipped`, `Rejected(message)` or `Applied`), and the three ways a text
  amount field can read (blank, unparsable, or a number).
- `Calendar`: dates as (year, month, day), their order (the order of their
  `yyyy-MM-dd` strings), a month's first and last day, and month stepping
  with date-fns' day saturation.
- `Store`: the `expenses` table as the class `Store.Ledger`. Its field
  `rows` is a sequence, and its methods are the store calls the screens
  make: filtered select, insert, filtered delete and update by id. A
  filtered query is a list of first-order conditions (`eq`, `lt`, `lte`,
  `gte`), and the result keeps table order. This module also holds the
  sums that every screen uses.
- `LedgerTable`: the month statement. It covers the balance carried in,
  the month's rows ordered by date and then creation time, the running
  balance per row, the footer totals, and the edit, quick-add, delete and
  month-stepping actions.
- `SetBalanceModal`: the balance dialog. "Add" records a deposit. "Set"
  deletes the household's adjustment rows, sums what remains, and inserts
  one row that makes the balance equal the typed figure.
- `DashboardSummary`: the balance card. It totals income and spending over
  all rows up to the end of the current month and shows only their
  difference, the remaining balance.
- `ExpenseList`: the history list. It groups rows by date into a
  dictionary, sorts the dates newest first, and deletes a row after
  confirmation.
- `HouseholdContext`: which household is current, and how the last choice
  is remembered per user in browser storage.
- `Login` and `Register`: the user-ID filter (ASCII letters and digits),
  the login address `userId + "@familybudget.com"`, the sign-up error
  messages, and where the user is sent after signing up.

The auth service and the store's replies are parameters. A handler that
awaits a reply takes that reply as an argument: the sign-in error, the
sign-up reply, whether a delete failed, whether the user confirmed. Fresh
ids and creation times are parameters too.

Points where the code does something a reader might not expect; the
model follows the code in each:

- "Set balance" is not one store operation. It issues three deletes, a
  select and an insert as separate calls. The model runs them in order as
  one method (`SetBalanceModal.SetBalance`).
- The "add" row stores minus the magnitude of the typed figure
  (`-Math.abs(inputVal)`, src/components/SetBalanceModal.tsx:69), so a
  typed `-500` also raises the balance by 500.
- The adjustment rows are meant to be the ones the dialog writes, but the
  cleanup deletes by description
  (src/components/SetBalanceModal.tsx:79-81). A user's own row whose
  description is `月次予算`, `資産初期残高` or `残高追加` is removed too.
  `IsAdjustmentOf` is decided by the description alone.
- An edit keeps a row's income or expense class
  (src/components/LedgerTable.tsx:187-189) except for `0`: editing an
  income row to `0` stores `-0`, a zero, which the app treats as an
  expense. `EditKeepsSignClass` therefore takes a non-zero value.

## Model

| member | source | states |
|---|---|---|
| Store.Ledger.Query | src/components/LedgerTable.tsx:58-62 | a filtered select returns exactly the table rows that satisfy every condition |
| Store.Ledger.Insert | src/components/SetBalanceModal.tsx:66-72 | an insert appends the row and changes nothing else |
| Store.Ledger.Delete | src/components/SetBalanceModal.tsx:79-81 | a filtered delete leaves exactly the rows that fail the filter, in table order |
| Store.Ledger.Update | src/components/LedgerTable.tsx:214-222 | an update by id rewrites description, amount and date of the rows with that id and leaves every other row as it was |
| Store.KeepMembers | src/components/SetBalanceModal.tsx:78-81 | a row survives a filtered delete exactly when it was in the table and does not match the filter |
| Store.UpdateById | src/components/LedgerTable.tsx:214-222 | same length; rows with another id are unchanged; rows with the id get the new description, amount and date and keep id, household and creation time |
| Store.KeepSameFilter | src/components/DashboardSummary.tsx:26-28 | two filters that agree on every row select the same rows |
| Store.SumAmounts | src/components/SetBalanceModal.tsx:89-92 | the loop total equals the sum of the amounts |
| Store.SumAppend | src/components/SetBalanceModal.tsx:89-92 | the sum of a concatenation is the sum of the parts |
| Store.IncomeMinusExpense | src/components/DashboardSummary.tsx:55 | income minus expense is minus the sum of the amounts |
| Store.Income | src/components/DashboardSummary.tsx:36-39 | the income total is never negative |
| Store.Expense | src/components/DashboardSummary.tsx:40-41 | the expense total is never negative |
| Store.AppendEffectOnBalance | src/components/SetBalanceModal.tsx:60-64 | appending a row of the household lowers its balance by the row's amount; another household's row leaves it unchanged |
| Store.SelectAppendSum | src/components/LedgerTable.tsx:58-68 | appending a row changes a query's sum by its amount exactly when the row matches |
| Store.DeleteLeavesQuery | src/components/SetBalanceModal.tsx:79-81 | a delete cannot change a query that none of the deleted rows satisfy |
| Calendar.DaysInMonth | src/components/LedgerTable.tsx:55 | a month has 28 to 31 days, and exactly 28 only for February of a non-leap year |
| Calendar.MonthWindow | src/components/LedgerTable.tsx:52-55 | the window runs from the month's first day to its last, and a valid date lies in it exactly when it is in the same month |
| Calendar.AddMonths | src/components/LedgerTable.tsx:164-165 | stepping by n months moves the month index by exactly n, keeps the day or clamps it to the month's last day, and yields a valid date |
| Calendar.NextThenPrevious | src/components/LedgerTable.tsx:164-165 | next then previous returns to the same month, and to the same date when the day is at most 28 |
| Calendar.PreviousThenNext | src/components/LedgerTable.tsx:164-165 | previous then next returns to the same month, and to the same date when the day is at most 28 |
| LedgerTable.InsertInOrder | src/components/LedgerTable.tsx:88-89 | inserting into an ordered list keeps it ordered by date then creation time, and adds exactly the new row |
| LedgerTable.InsertInOrderPermutes | src/components/LedgerTable.tsx:88-89 | the insertion adds the row once to the multiset |
| LedgerTable.OrderByDateThenCreated | src/components/LedgerTable.tsx:88-89 | the store's ordering is ordered by date and then creation time, and is a permutation of its input |
| LedgerTable.OrderPreservesSum | src/components/LedgerTable.tsx:88-89 | ordering does not change the sum of the rows |
| LedgerTable.FetchData | src/components/LedgerTable.tsx:49-96 | the opening balance summed row by row is minus the sum of the household's rows dated before the month; the listed rows are exactly the household's rows of that month, ordered |
| LedgerTable.InsertEffectOnOpening | src/components/LedgerTable.tsx:57-69 | a new row moves the opening balance by minus its amount exactly when it belongs to the household and is dated before the month |
| LedgerTable.InsertBeforeKeepsWindow | src/components/LedgerTable.tsx:72-89 | a row dated before the month does not change the month's listed rows |
| LedgerTable.ClosingIsCumulative | src/components/LedgerTable.tsx:57-89 | opening balance minus the month's rows equals minus the sum of every household row up to the month's last day |
| LedgerTable.Annotate | src/components/LedgerTable.tsx:264-282 | one statement row per entry |
| LedgerTable.AnnotatedRowMeaning | src/components/LedgerTable.tsx:264-281 | row k shows entry k, is income exactly when its amount is negative, shows the magnitude, and its balance is the opening balance minus the amounts of rows 0..k |
| LedgerTable.AnnotatedRowStep | src/components/LedgerTable.tsx:268-274 | each running balance is the previous one plus the magnitude for income or minus it for an expense |
| LedgerTable.RunningBalanceExample | src/components/LedgerTable.tsx:260-281 | rows of 1000 spent, 500 received and 200 spent, from 0, show -1000, -500 and -700 |
| LedgerTable.ComputeRows | src/components/LedgerTable.tsx:259-282 | the loop yields the annotated rows, non-negative income and expense totals, and a footer balance equal to opening + income − expense = opening − sum |
| LedgerTable.Statement | src/components/LedgerTable.tsx:49-96 | the rows shown are the month's ordered rows annotated from the opening balance; the footer balance equals opening + income − expense, and equals minus the sum of all household rows up to the month's end |
| LedgerTable.FindById | src/components/LedgerTable.tsx:187 | the result is the first listed row with that id, and there is none exactly when no listed row has it |
| LedgerTable.EditedAmount | src/components/LedgerTable.tsx:184-189 | unparsable input is refused with "Invalid Amount"; otherwise the magnitude is the typed one, negative only for an income row, and never positive for an income row |
| LedgerTable.EditKeepsSignClass | src/components/LedgerTable.tsx:187-189 | a non-zero edit is income exactly when the edited row was income |
| LedgerTable.HandleUpdate | src/components/LedgerTable.tsx:179-235 | no expanded row means no change; unparsable input is refused before any write; otherwise the row is updated with the sign-class amount |
| LedgerTable.QuickAddEntry | src/components/LedgerTable.tsx:105-146 | blank input is refused with "金額を入力してください"; a number gives an expense row of its magnitude with an empty description on the chosen date |
| LedgerTable.HandleAddFromRow | src/components/LedgerTable.tsx:102-162 | a refused input leaves the table unchanged; otherwise exactly one row is appended and the balance falls by the magnitude |
| LedgerTable.HandleDelete | src/components/LedgerTable.tsx:237-257 | nothing is deleted without an expanded row and confirmation; otherwise exactly the rows with that id are removed |
| SetBalanceModal.CleanupMatches | src/components/SetBalanceModal.tsx:79-81 | a cleanup delete matches exactly the household's rows with that description |
| SetBalanceModal.WithoutAdjustmentsMembers | src/components/SetBalanceModal.tsx:78-81 | the three deletes leave exactly the rows that are not adjustment rows of the household |
| SetBalanceModal.SetBalance | src/components/SetBalanceModal.tsx:75-114 | the delete, re-sum and insert sequence leaves the table as the cleaned rows plus one initial-balance row of amount −N − sum |
| SetBalanceModal.HandleSubmit | src/components/SetBalanceModal.tsx:50-125 | an unparsable amount is refused before any write; add appends exactly the deposit row; set leaves the table as set mode defines |
| SetBalanceModal.AddRaisesBalance | src/components/SetBalanceModal.tsx:59-73 | add raises the household's balance by exactly the typed magnitude and leaves other households' balances unchanged |
| SetBalanceModal.AddRaisesClosing | src/components/SetBalanceModal.tsx:66-72 | add raises the statement's footer balance by the typed magnitude for every month from January 2000 on |
| SetBalanceModal.SetIsExact | src/components/SetBalanceModal.tsx:83-111 | after set the household's balance equals the typed figure, whatever the history |
| SetBalanceModal.SetKeepsOrdinaryRows | src/components/SetBalanceModal.tsx:78-111 | set keeps every row that is not an adjustment row of the household, and adds only its own row |
| SetBalanceModal.SetLeavesOtherHouseholds | src/components/SetBalanceModal.tsx:78-111 | set leaves another household's rows unchanged and in order |
| SetBalanceModal.SetLeavesOneAdjustment | src/components/SetBalanceModal.tsx:78-111 | after set, the household has exactly one initial-balance row and no budget or deposit rows |
| SetBalanceModal.CleanupAbsorbs | src/components/SetBalanceModal.tsx:78-81 | an adjustment row appended before the cleanup makes no difference to its result |
| SetBalanceModal.CleanupIdempotent | src/components/SetBalanceModal.tsx:78-81 | cleaning up twice is the same as cleaning up once |
| SetBalanceModal.SetIsIdempotent | src/components/SetBalanceModal.tsx:78-111 | setting the same figure twice leaves the same rows as setting it once, with an adjustment row of the same amount |
| SetBalanceModal.SetAbsorbsAdd | src/components/SetBalanceModal.tsx:59-111 | a deposit made before a set makes no difference to the set's result |
| SetBalanceModal.SetClosingGap | src/components/SetBalanceModal.tsx:83-111 | after set, a month's footer is the typed figure plus the household's remaining rows dated after that month |
| SetBalanceModal.NoAdjustmentsKept | src/components/SetBalanceModal.tsx:78-81 | the cleanup leaves a table without adjustment rows as it is |
| SetBalanceModal.SetMissesLaterRow | src/components/SetBalanceModal.tsx:83-111 | with one ordinary row dated after the month, set makes the all-time balance the typed figure but leaves the month's footer that row's amount above it |
| SetBalanceModal.SetFooterCounterexample | src/components/SetBalanceModal.tsx:83-111 | an expense of 700 dated 2030-01-05, then set 5000: all-time balance 5000, June 2024 footer 5700 |
| SetBalanceModal.SetBalanceThrough | src/components/SetBalanceModal.tsx:75-114 | the corrected set mode: the same deletes and insert, with the re-sum bounded by the month's last day |
| SetBalanceModal.SetThroughIsExact | src/components/SetBalanceModal.tsx:185-187 | after the corrected set mode the current month's footer, and so the card, shows exactly the typed figure, whatever rows lie ahead |
| SetBalanceModal.SetThroughAgrees | src/components/SetBalanceModal.tsx:83-111 | with no household row dated after the month, the corrected and the written set mode write the same table |
| SetBalanceModal.SetFixesClosing | src/components/SetBalanceModal.tsx:83-111 | with no household row dated after the month, set as written does make the footer the typed figure |
| SetBalanceModal.ScenarioFromEmpty | src/components/SetBalanceModal.tsx:59-111 | from empty: deposit 10000 shows 10000, spending 3000 shows 7000, set 5000 shows 5000 with one initial-balance row as the only adjustment row |
| DashboardSummary.FetchSummary | src/components/DashboardSummary.tsx:17-55 | income and spending are the non-negative totals of the household's rows up to the month's end; remaining = income − spending = minus their sum = the statement's footer balance |
| DashboardSummary.InsertEffectOnSummary | src/components/DashboardSummary.tsx:19-28 | a new row moves the remaining balance by minus its amount exactly when it belongs to the household and is dated no later than the month's end |
| ExpenseList.OnDate | src/components/ExpenseList.tsx:72-73 | a group is never longer than the list |
| ExpenseList.OnDateMembers | src/components/ExpenseList.tsx:68-75 | the group for a date holds exactly the rows with that date |
| ExpenseList.OnDateAppend | src/components/ExpenseList.tsx:72-73 | grouping keeps the rows' relative order: the group of a concatenation is the concatenation of the groups |
| ExpenseList.FirstAppearance | src/components/ExpenseList.tsx:68-71 | the dictionary's keys are distinct |
| ExpenseList.FirstAppearanceMembers | src/components/ExpenseList.tsx:68-77 | a date is a key exactly when some row carries it |
| ExpenseList.GroupByDate | src/components/ExpenseList.tsx:68-75 | the reduce yields keys in first-appearance order, a dictionary with exactly those keys, and each group equal to the rows of that date in input order |
| ExpenseList.GroupedCountCovers | src/components/ExpenseList.tsx:68-75 | with distinct keys covering every row's date, the group sizes sum to the number of rows |
| ExpenseList.NothingLostOrDuplicated | src/components/ExpenseList.tsx:68-75 | the group sizes sum to the input length |
| ExpenseList.InsertDescending | src/components/ExpenseList.tsx:77 | inserting a date into a newest-first list keeps it newest first and adds exactly that date |
| ExpenseList.SortDescending | src/components/ExpenseList.tsx:77 | the sorted dates are newest first and a permutation of the keys |
| ExpenseList.SortedKeysStrict | src/components/ExpenseList.tsx:77 | sorting distinct keys gives a strictly descending list, so each date appears once |
| ExpenseList.History | src/components/ExpenseList.tsx:67-77 | the sorted dates are strictly descending, are exactly the dates that occur, and index a dictionary of exactly those keys, each holding that date's rows |
| ExpenseList.WithoutIdMeaning | src/components/ExpenseList.tsx:61 | the filter keeps exactly the rows with another id, distributes over concatenation, so order is kept, and changes nothing when no row has the id |
| ExpenseList.HandleDelete | src/components/ExpenseList.tsx:57-63 | without confirmation or after a failed delete, neither table nor list changes; otherwise both lose exactly the rows with that id |
| HouseholdContext.ActiveHouseholds | src/contexts/HouseholdContext.tsx:40 | the active list holds exactly the memberships whose household is not archived |
| HouseholdContext.FirstActive | src/contexts/HouseholdContext.tsx:47-48 | the active list's head is the first active membership |
| HouseholdContext.NoneActive | src/contexts/HouseholdContext.tsx:49-50 | with no active membership the active list is empty |
| HouseholdContext.SelectHousehold | src/contexts/HouseholdContext.tsx:26-57 | no user gives none; a selected household is always an active membership, so never archived; no active membership gives none |
| HouseholdContext.SavedChoiceWins | src/contexts/HouseholdContext.tsx:42-46 | a remembered household that is still active is selected |
| HouseholdContext.FirstActiveOtherwise | src/contexts/HouseholdContext.tsx:47-48 | without a valid remembered choice the first active membership in order is selected |
| HouseholdContext.SavedKeyInjective | src/contexts/HouseholdContext.tsx:22 | different users remember their choices under different keys |
| HouseholdContext.SetCurrent | src/contexts/HouseholdContext.tsx:19-24 | the selection becomes the id; a non-null, non-empty id is saved under the user's key; all other keys are unchanged |
| HouseholdContext.Refresh | src/contexts/HouseholdContext.tsx:26-57 | a refresh changes only the selection, to what the selection rule picks |
| HouseholdContext.ChooseThenRefresh | src/contexts/HouseholdContext.tsx:19-46 | choosing an active household and refreshing selects it again, without touching another user's saved key |
| Login.HandleIdChange | src/pages/Login.tsx:33-39 | an edit is taken exactly when it is all ASCII letters and digits, else the ID stays; a valid ID stays valid (Register.tsx:78-84 is the same filter) |
| Login.EmptyIdAccepted | src/pages/Register.tsx:81 | clearing the ID field is always accepted |
| Login.LoginEmail | src/pages/Login.tsx:13-20 | the address is the ID followed by the dummy domain |
| Login.UserIdOf | src/pages/Login.tsx:20 | an address yields an ID exactly when it ends in the dummy domain |
| Login.EmailRoundTrip | src/pages/Login.tsx:20 | the ID is recovered from its address |
| Login.EmailInjective | src/pages/Register.tsx:26 | two IDs never share a login address |
| Login.AtSignSeparates | src/pages/Login.tsx:20-39 | for a filtered ID the first `@` of the address is where the domain starts |
| Login.HandleLogin | src/pages/Login.tsx:15-31 | signs in with the ID's address; the error is cleared and then holds exactly the sign-in error, if any; the ID is kept |
| Register.OccursShift | src/pages/Register.tsx:40-42 | dropping the first character moves each occurrence one place left |
| Register.Contains | src/pages/Register.tsx:40-42 | `includes` holds exactly when the text occurs at some position |
| Register.SignUpErrorMessage | src/pages/Register.tsx:38-47 | first match wins: an already-registered message gives the ID-in-use text, otherwise a "valid email" message gives the invalid-characters text, otherwise the raw message |
| Register.AlreadyRegisteredWins | src/pages/Register.tsx:40-44 | a message containing "already been registered" is reported as ID in use, even if it also mentions a valid email |
| Register.DuplicateUserMessage | src/pages/Register.tsx:40-41 | the service's "User already registered" becomes the ID-in-use text |
| Register.RedirectTarget | src/pages/Register.tsx:15-17 | with a source location, its path and query (or nothing); otherwise "/" |
| Register.HandleRegister | src/pages/Register.tsx:21-76 | signs up with the ID's address; navigates to the redirect target exactly when sign-up succeeded and a session came from it or from the fallback sign-in; otherwise the mapped or auto-login error |
| Register.SignUpErrorStays | src/pages/Register.tsx:38-50 | a failed sign-up always shows an error, whatever a sign-in would have replied |

## Findings

| source | as written | input that shows it | evidently intended | confidence | as-written member | corrected member |
|---|---|---|---|---|---|---|
| src/components/SetBalanceModal.tsx:84-100 | set mode re-sums every row of the household, with no date bound, while the card it is opened from (src/components/DashboardSummary.tsx:23-28, 55-66) and the statement footer count rows only up to the current month's last day | one expense of 700 dated 2030-01-05, then set 5000 in June 2024: the all-time balance is 5000 but the card and June's footer show 5700 | the dialog promises that the current balance becomes the typed figure (src/components/SetBalanceModal.tsx:187), so the re-sum should count the rows the card counts | medium; not executed | SetBalanceModal.SetFooterCounterexample | SetBalanceModal.SetThroughIsExact |

`SetBalanceModal.SetBalanceThrough` is the corrected operation. `SetBalanceModal.SetThroughAgrees` shows that it writes the same table as the code whenever no row lies after the current month. `SetBalanceModal.HandleSubmit` keeps the code's set mode.

## Left out

- Store and auth calls are operations on the in-memory table or parameters. Network failures, the `try`/`catch` alerts and the loading flags are not modelled; `ExpenseList.HandleDelete` is the one exception, taking the delete's failure as a parameter.
- The `if (!user) return` guards of the handlers are not modelled. The signed-in user's id (`created_by`) is not a column of the model.
- `SetBalanceModal.SetBalance`: the three deletes, the select and the insert are separate store calls. The model runs them in order with no concurrent writer and no failure in between. A failed select would leave the sum at 0, and the model does not capture that.
- Receipt uploads with `Math.random()` file names, and the receipt columns, are randomness and object-store I/O.
- JavaScript number semantics are not modelled: floats, `parseInt` of text such as "12abc", and `-0`. Amounts are mathematical integers. A text field is blank, unparsable, or a parsed integer.
- `LedgerTable.QuickAddEntry`: non-empty unparsable text is refused with "Invalid Amount". The source sends `Math.abs(parseInt(...))`, which is NaN and travels as a null amount. Whether the store refuses that depends on a column constraint that is not part of this model; if it is accepted, a row with no amount is stored.
- `LedgerTable.EditKeepsSignClass`: holds only for a non-zero value, because editing an income row to `0` stores an expense-class `0`.
- `DashboardSummary.FetchSummary`: the month's last day comes from the date passed in. The UTC shift of `endOfMonth(now).toISOString()` and the `new Date()` clock are not modelled.
- The `new Date()` default of the quick-add date, `toLocaleString`, and date-fns `format` rendering are presentation.
- `fetchCurrentBalance` in the balance dialog computes a total that it discards; it only switches the dialog to add mode.
- UI state is left out: the expanded row, modals, previews and the `confirm` dialogs. A confirmation is a boolean parameter.
- The history list's store ordering (newest first) is not modelled. Grouping and the date sort are proved for any input order.
- The `catch` path of `refreshHouseholds` and the auth-state subscription of the household context are not modelled.
- The settings, join and dashboard pages, the expense input form, routing, layout and the connection probe contain no ledger logic.
