# Finance tracker core, modelled in Dafny

This project models the logic of a browser-only personal finance tracker. The logic sits between the browser's key-value storage and the screens. Storage holds:

- `users`: the user directory;
- `currentUser`: a snapshot of the signed-in user;
- `transactions_<id>`: each user's ledger;
- `budget_<id>`: each user's monthly budget.

The model covers these parts:

- **Auth** (`auth.dfy`): the user directory and the session. This includes seeding the default admin, sign-up with a duplicate-email check, login by exact email and password, logout, profile updates, and the two page guards.
- **Ledger** (`ledger.dfy`): the ledger hook. It loads and saves a user's list, prepends new transactions, computes the income/expense/balance totals in one loop, and builds the system-wide list that concatenates every ledger and sorts it newest first.
- **BudgetHook** (`budget.dfy`): the budget hook. A budget stored for another month expires lazily. Setting a budget replaces any earlier one, and an amount of zero or less resets it. The month's spending is the sum of that month's expenses.
- **BudgetTracker** (`budget_tracker.dfy`): the budget card. It shows a capped progress percentage and runs an alert latch with two refs, one for 80% and one for 100%. The latch is kept exactly as written, including its odd case. The card also handles the set-budget form and the reset button.
- **Chart** (`chart.dfy`): the overview chart's buckets. There are seven zero-filled day buckets or six zero-filled month buckets, followed by one pass that adds each transaction to the bucket of its day or month.
- **Sorting** and **History** (`sorting.dfy`, `history.dfy`): the history table's sort state. Clicking the current column flips the direction, and clicking another column sorts ascending. The three-way comparator negates its result for descending order.
- **Admin** (`admin.dfy`): the admin's cascading user delete.
- **EntryForm** and **Profile** (`entry_form.dfy`, `profile.dfy`): the validation schemas of the transaction form and the profile form, and the payloads their submit handlers build.

Supporting modules:

- `Storage` (`storage.dfy`) is a class holding one mutable `map` from keys to decoded entries. A key whose text does not parse holds `Unparsable`.
- `Text` (`text.dfy`) holds prefix tests, slicing and JavaScript's string order.
- `Types` (`types.dfy`) holds the records.

Conventions:

- Amounts are integers.
- Every ratio test is cross-multiplied: "ratio ≥ 1" becomes `exp >= budget`, and "ratio ≥ 0.8" becomes `5 * exp >= 4 * budget`.
- The clock, `crypto.randomUUID`, `window.confirm`, `parseFloat` and the key order of `localStorage.key(i)` are all parameters. A generated id is required to be unused.
- A redirect or a toast is a returned value.

## Model

| member | source | states |
|---|---|---|
| Text.Take | src/hooks/use-budget.ts:11 | `slice(0, n)` returns the first n characters, or the whole string when it is shorter, and the result is a prefix of the input |
| Text.TakeMatchesPrefix | src/components/monthly-overview-chart.tsx:82-83 | slicing as many characters as a key has matches the key exactly when the string starts with that key |
| Text.LessTotal | src/components/transaction-history-table.tsx:54-58 | two different strings are ordered one way or the other under JavaScript's `<` |
| Text.LessTransitive | src/components/transaction-history-table.tsx:54-58 | JavaScript's string `<` is transitive |
| Text.NotLessTransitive | src/components/transaction-history-table.tsx:54-58 | "not after" on strings is transitive, so string `<` induces a total order |
| Storage.LedgerKey | src/hooks/use-transactions.ts:11 | a user's ledger key starts with `transactions_` |
| Storage.BudgetKey | src/hooks/use-budget.ts:10 | a user's budget key starts with `budget_` |
| Storage.KeyFamiliesDisjoint | src/hooks/use-transactions.ts:75 | no budget key, `users` or `currentUser` is mistaken for a ledger key, and no ledger key is mistaken for a budget key |
| Storage.KeysInjective | src/app/admin/page.tsx:34-35 | two users' keys of the same family are equal exactly when their ids are |
| Storage.Store.SetItem | src/lib/auth.ts:21 | `setItem` overwrites exactly one key, and a value of the right shape keeps the store well-formed |
| Storage.Store.RemoveItem | src/app/admin/page.tsx:34-35 | `removeItem` drops exactly one key, and removing a missing key changes nothing |
| Auth.FindIndex | src/lib/auth.ts:68 | `findIndex` returns the first index that matches, or -1 exactly when no user matches |
| Auth.Find | src/lib/auth.ts:28-47 | `find` returns nothing exactly when no user matches, and otherwise the user at `findIndex` |
| Auth.GetUsers | src/lib/auth.ts:9-17 | with no stored directory it stores and returns exactly the admin account; with a stored directory it returns it and writes nothing |
| Auth.SaveUsers | src/lib/auth.ts:19-22 | the whole directory is overwritten, and only the `users` key changes |
| Auth.SeedOnce | src/lib/auth.ts:9-17 | seeding happens once: a second `getUsers` finds the seeded list and writes nothing |
| Auth.Signup | src/lib/auth.ts:27-37 | a used email returns null and leaves the directory as read; a new email appends exactly one non-admin user with the given fields and the fresh id; the session is never written |
| Auth.SignupKeepsEmailsUnique | src/lib/auth.ts:29-35 | appending only unused emails keeps the directory's emails distinct |
| Auth.LoginAfterSignup | src/lib/auth.ts:33-41 | the account a sign-up appends can log in with its password |
| Auth.Login | src/lib/auth.ts:39-50 | returns a user iff some stored user has exactly this email and password; on success `currentUser` becomes that first match; on failure only the seed may be written |
| Auth.Session | src/lib/auth.ts:59-63 | `getCurrentUser` returns nothing iff no snapshot is stored, and otherwise the stored user |
| Auth.Logout | src/lib/auth.ts:52-57 | removes only `currentUser`, leaves the directory as it was, and redirects to `/login` |
| Auth.Merge | src/lib/auth.ts:75 | the fields present in the patch win, the id and the admin flag are kept, and an empty patch changes nothing |
| Auth.UpdateUser | src/lib/auth.ts:65-85 | an unknown id returns null and changes nothing beyond the seed; a known id replaces only that index with the merged record, and `currentUser` is rewritten iff its id is the updated one |
| Auth.LoginAfterPasswordChange | src/lib/auth.ts:41-77 | with distinct emails, setting a password makes `login` accept it for that account |
| Auth.UpdateKeepsEmailsUnique | src/lib/auth.ts:75-77 | an update that leaves the email alone keeps the emails distinct |
| Auth.RequireAuth | src/lib/auth.ts:90-105 | redirects to the given page iff nobody is signed in, and returns the session |
| Auth.RequireAdmin | src/lib/auth.ts:107-119 | a visitor is sent to `/login`; access is denied (and the browser redirected) iff a user is signed in who is not an admin; the hook still returns that user |
| Sorting.Compare | src/components/transaction-history-table.tsx:53-58 | the comparison is 1, -1 or 0 exactly when the first value is greater, smaller or neither |
| Sorting.Comparator | src/components/transaction-history-table.tsx:49-61 | ascending, a row goes after another iff its value is greater, and before it iff smaller; descending swaps the two; the rows tie iff neither value is greater |
| Sorting.ComparatorAntisymmetric | src/components/transaction-history-table.tsx:53-60 | in both directions, swapping the rows negates the comparator, whose value is always -1, 0 or 1 |
| Sorting.StrCompareTotal | src/components/transaction-history-table.tsx:53-58 | two present strings compare equal only when they are the same string |
| Sorting.ComparatorTransitive | src/components/transaction-history-table.tsx:49-61 | on every column except the category column, "does not come after" is transitive in both directions |
| Sorting.CategoryComparatorNotTransitive | src/components/transaction-history-table.tsx:50-58 | on the category column a row with no category compares equal to Food and to Transport, yet Food comes before Transport |
| Sorting.Insert | src/components/transaction-history-table.tsx:49 | inserting one row adds exactly that row |
| Sorting.SortBy | src/components/transaction-history-table.tsx:49 | sorting a copy returns a permutation of the input |
| Sorting.SortBySorted | src/components/transaction-history-table.tsx:49-61 | on every column except the category column, the sorted copy is in comparator order |
| Sorting.AscendingMeansNonDecreasing | src/components/transaction-history-table.tsx:60 | in an ascending result no value is greater than a later one |
| Sorting.DescendingMeansNonIncreasing | src/components/transaction-history-table.tsx:60 | in a descending result no value is smaller than a later one |
| History.SortState.constructor | src/components/transaction-history-table.tsx:34-35 | the table opens sorted by date, newest first |
| History.SortState.HandleSort | src/components/transaction-history-table.tsx:37-44 | clicking the current column flips the direction; clicking another column selects it, ascending |
| History.SortedTransactions | src/components/transaction-history-table.tsx:46-62 | no key returns the input unchanged; otherwise a permutation of the input, sorted on every column except the category column |
| Ledger.Load | src/hooks/use-transactions.ts:13-25 | no user, a missing key or text that does not parse all load as the empty list |
| Ledger.Persist | src/hooks/use-transactions.ts:27-34 | with a user the whole list overwrites that user's key and nothing else; without a user nothing changes |
| Ledger.PersistThenLoad | src/hooks/use-transactions.ts:19-30 | a saved list loads back unchanged |
| Ledger.AddTransaction | src/hooks/use-transactions.ts:36-45 | without a user the list is unchanged; with one the list grows by one, the head carries the input, the fresh id, the date and the user's id, and the tail is the previous list |
| Ledger.AddAllNewestFirst | src/hooks/use-transactions.ts:44 | after n additions the newest record comes first and the old list follows unchanged |
| Ledger.ComputeTotals | src/hooks/use-transactions.ts:51-65 | the loop's income is the sum of the income amounts and its expense total the sum of all other amounts; balance is their difference, and all three are 0 for an empty list |
| Ledger.EveryTransactionCountsOnce | src/hooks/use-transactions.ts:55-61 | every transaction counts in exactly one of the two totals |
| Ledger.AddTransactionTotals | src/hooks/use-transactions.ts:44-61 | adding an income raises only the income total, and adding an expense raises only the expense total |
| Ledger.TotalsNonNegative | src/hooks/use-transactions.ts:55-61 | with positive amounts neither total is negative |
| Ledger.GatherPermutation | src/hooks/use-transactions.ts:73-79 | any two listings of the same keys gather the same transactions, up to order |
| Ledger.GatherSource | src/hooks/use-transactions.ts:75-77 | every gathered transaction comes from a readable ledger under one of the listed keys |
| Ledger.GetAllTransactions | src/hooks/use-transactions.ts:70-81 | throws iff some ledger key holds text that does not parse; otherwise a permutation of the concatenated ledgers, where other keys contribute nothing, sorted newest first |
| BudgetHook.CurrentMonth | src/hooks/use-budget.ts:11 | the current month is the leading seven characters of the timestamp |
| BudgetHook.LoadedIsCurrent | src/hooks/use-budget.ts:19-26 | the load yields a budget only when the stored one is for the current month, and then it is the stored record |
| BudgetHook.LoadIdempotent | src/hooks/use-budget.ts:13-31 | loading again finds what the first load left and changes nothing more |
| BudgetHook.LoadTouchesOneKey | src/hooks/use-budget.ts:25 | the load changes no key except the user's own budget key |
| BudgetHook.Hook.Load | src/hooks/use-budget.ts:13-31 | no user gives no budget; a budget for another month, or a missing key, gives null and erases the key; text that does not parse gives null and stays |
| BudgetHook.Hook.SaveBudget | src/hooks/use-budget.ts:33-41 | without a user nothing changes; otherwise the state becomes the new value and the key is set to it, or removed when the value is null |
| BudgetHook.Hook.SetMonthlyBudget | src/hooks/use-budget.ts:43-55 | a positive amount stores this user's budget for the current month, replacing any earlier one; zero or less removes the key and clears the budget; without a user nothing changes |
| BudgetHook.SetThenLoad | src/hooks/use-budget.ts:19-54 | a budget set this month is what the next load finds, and a reset one is gone |
| BudgetHook.InMonth | src/hooks/use-budget.ts:59 | keeps each transaction whose date starts with the month as often as the input holds it, and no other |
| BudgetHook.InMonthOfConcat | src/hooks/use-budget.ts:59 | the filter works piece by piece, so the kept transactions stay in their order |
| BudgetHook.MonthlyExpenses | src/hooks/use-budget.ts:57-61 | the month's spending is the expense total of the transactions dated in that month, so income never counts |
| BudgetHook.MonthlyExpensesBounds | src/hooks/use-budget.ts:57-61 | with positive amounts the month's spending is at least 0 and at most all spending |
| BudgetHook.MonthlyExpensesOfAdded | src/hooks/use-budget.ts:57-61 | a prepended transaction adds its amount iff it is an expense of the month |
| BudgetTracker.BudgetAmount | src/components/budget-tracker.tsx:31 | the amount the card works with is the loaded budget's amount, or 0 when none is loaded; the bar and the alert effect receive it |
| BudgetTracker.NoBudgetQuiet | src/components/budget-tracker.tsx:31-38 | with no budget loaded the bar is 0 and the alert effect shows nothing and keeps both refs |
| BudgetTracker.Progress | src/components/budget-tracker.tsx:32 | the bar is 0 without a budget and in [0, 100] for non-negative spending; it reaches 100 iff spending reaches the budget, and is above 80 iff spending is above 80% |
| BudgetTracker.Step | src/components/budget-tracker.tsx:37-60 | with no budget no toast fires and both refs are kept; the 100% toast fires iff the ratio is at least 1 and its ref is clear; the 80% toast fires iff the ratio is at least 0.8, its ref is clear and the 100% toast did not fire; afterwards each ref holds iff the ratio is at or above its threshold and the ref was set |
| BudgetTracker.Run | src/components/budget-tracker.tsx:37-60 | over successive spending values, each run of the effect is one `Step` from the refs the earlier runs left |
| BudgetTracker.NoRepeatWhileAbove | src/components/budget-tracker.tsx:42-58 | a set ref stops its toast from firing again |
| BudgetTracker.ExceededAgainNeedsDrop | src/components/budget-tracker.tsx:42-57 | the 100% toast fires again only after a run whose spending was below the budget |
| BudgetTracker.Scenario | src/components/budget-tracker.tsx:37-60 | with budget 1000 and spending 0, 850, 1050, 700, the warning fires only at 850, the exceeded toast only at 1050, and both refs clear at 700 |
| BudgetTracker.WarningAfterExceeded | src/components/budget-tracker.tsx:42-55 | jumping straight past 100% sets only the 100% ref, so a later run still over budget raises the 80% warning |
| BudgetTracker.Card.Evaluate | src/components/budget-tracker.tsx:37-60 | the effect's imperative steps on the two refs compute exactly `Step`, with the amount of the budget the hook loaded |
| BudgetTracker.Card.HandleSetBudget | src/components/budget-tracker.tsx:62-70 | only a parsed positive amount is set, and the field is cleared; anything else raises "Invalid Amount" and changes nothing |
| BudgetTracker.ResetBudget | src/components/budget-tracker.tsx:98 | the reset button clears the budget and removes its key |
| Chart.Share | src/components/monthly-overview-chart.tsx:59-63 | an income adds to the bucket's income, and anything else adds to its expense |
| Chart.Matching | src/components/monthly-overview-chart.tsx:58 | keeps the transactions keyed to a bucket and no others |
| Chart.MatchingOfConcat | src/components/monthly-overview-chart.tsx:58 | the selection works piece by piece, so with `Matching` it keeps each such transaction as often, and in the order, the list has it |
| Chart.TalliedIsTotalsOfMatching | src/components/monthly-overview-chart.tsx:55-65 | a bucket holds the income total and the expense total of the transactions keyed to it |
| Chart.OtherKeyIgnored | src/components/monthly-overview-chart.tsx:55-65 | a transaction keyed elsewhere changes no bucket, wherever it stands in the list |
| Chart.ChartRows | src/components/monthly-overview-chart.tsx:67-70 | one row per window key, in the window's order |
| Chart.EmptyChart | src/components/monthly-overview-chart.tsx:41-53 | with no transactions every bucket is zero, and there are still as many as the window has |
| Chart.ChartSumsInWindow | src/components/monthly-overview-chart.tsx:81-90 | over distinct keys, the buckets together hold the income and expense totals of exactly the transactions keyed inside the window |
| Chart.Accumulate | src/components/monthly-overview-chart.tsx:81-90 | the forEach adds each transaction to its bucket when it has one, and creates none |
| Chart.LastSevenDays | src/components/monthly-overview-chart.tsx:45-48 | seven consecutive days ending today |
| Chart.WeeklyData | src/components/monthly-overview-chart.tsx:44-71 | exactly seven buckets for today-6 … today, ascending, each the tally of its day's transactions |
| Chart.MonthKey | src/components/monthly-overview-chart.tsx:76-77 | a month is keyed by a seven-character "YYYY-MM" text |
| Chart.MonthKeyRoundTrip | src/components/monthly-overview-chart.tsx:76-77 | the month text reads back as the month it was made from |
| Chart.MonthKeyInjective | src/components/monthly-overview-chart.tsx:75-78 | different months give different bucket keys |
| Chart.LastSixMonths | src/components/monthly-overview-chart.tsx:75-79 | the six months from five back to this one, oldest first |
| Chart.LastSixMonthsDistinct | src/components/monthly-overview-chart.tsx:75-79 | the six month keys are distinct, so six buckets are made |
| Chart.MonthlyData | src/components/monthly-overview-chart.tsx:73-96 | exactly six buckets, for five months back to this one, ascending, each the tally of the transactions whose date starts with its key |
| Chart.MonthBucketIsMonthlyExpenses | src/components/monthly-overview-chart.tsx:82-88 | a month's expense bar equals the budget card's spending for that month |
| Admin.WithoutUser | src/app/admin/page.tsx:29 | keeps exactly the users whose id is not the deleted one |
| Admin.WithoutUserOfConcat | src/app/admin/page.tsx:29 | the filter works piece by piece, so it keeps the relative order |
| Admin.WithoutAbsentUser | src/app/admin/page.tsx:29 | deleting an id nobody has leaves the directory as it is |
| Admin.DeleteKeepsAdmins | src/components/user-management-table.tsx:52 | deleting a non-admin, the only kind the table offers to delete, keeps every admin |
| Admin.AfterDelete | src/app/admin/page.tsx:29-35 | the user's ledger and budget keys are gone and the directory is the filtered one; `currentUser` and every other key keep their entries |
| Admin.DeletedLedgerGone | src/app/admin/page.tsx:37 | the refreshed list contains only transactions stored before the delete under another user's ledger |
| Admin.EraseUser | src/app/admin/page.tsx:28-35 | the directory is saved without the user (seeded first when none is stored), both of the user's keys are removed, and every other key is kept; the returned list is the filtered directory |
| Admin.AdminPage.HandleDeleteUser | src/app/admin/page.tsx:27-40 | without confirmation nothing changes; with it the directory is filtered, both keys are removed, and the reload throws iff some ledger key left in storage does not parse; otherwise the list is reloaded, sorted newest first |
| EntryForm.FieldErrors | src/components/add-transaction-sheet.tsx:39-43 | the type must be chosen, the description must have 2 to 100 characters, and the amount must be a positive number |
| EntryForm.Errors | src/components/add-transaction-sheet.tsx:39-47 | each field check reports its own message; the category message appears iff the parse was not aborted by a missing type or a non-numeric amount and the entry is an expense without a category |
| EntryForm.Valid | src/components/add-transaction-sheet.tsx:39-47 | an entry is valid iff it has a type, 2 to 100 characters of description, a positive amount, and is an income or has a category |
| EntryForm.IncomeNeedsNoCategory | src/components/add-transaction-sheet.tsx:44 | an income with no category is valid |
| EntryForm.ExpenseNeedsCategory | src/components/add-transaction-sheet.tsx:44-46 | an otherwise correct expense without a category is rejected, with the message on the category field only |
| EntryForm.DefaultFormRefused | src/components/add-transaction-sheet.tsx:64-71 | the default form fails on the description, the amount and the category |
| EntryForm.CategoryListComplete | src/components/add-transaction-sheet.tsx:51-53 | the category list holds each of the seven categories exactly once |
| EntryForm.ToInput | src/components/add-transaction-sheet.tsx:76-79 | the category is passed through for an expense and dropped for an income |
| EntryForm.Submit | src/components/add-transaction-sheet.tsx:75-86 | an invalid form adds nothing, raises no toast and stays open with its values and errors; a valid one raises the success toast, resets to the defaults and closes, and prepends exactly the record stamped from the form's input when a user is signed in, leaving the list as it was otherwise |
| EntryForm.SubmittedRecord | src/components/add-transaction-sheet.tsx:39-79 | a record the form adds has the form's type, amount and description, a positive amount, a 2 to 100 character description, and a category iff it is an expense |
| Profile.ProfileErrors | src/app/profile/page.tsx:20-26 | the name message appears iff the name is shorter than 2, and the password message iff a non-empty password is shorter than 6, whatever the name |
| Profile.ProfileValid | src/app/profile/page.tsx:20-26 | a change is valid iff the name has at least 2 characters and the password is blank or has at least 6 |
| Profile.ShortNameAndPasswordRefused | src/app/profile/page.tsx:20-26 | a short name and a short password are both reported |
| Profile.ShortPasswordRefused | src/app/profile/page.tsx:22-26 | a non-empty password shorter than 6 is rejected on the password field only |
| Profile.BuildUpdate | src/app/profile/page.tsx:59-62 | the payload always carries the name, carries the password iff it is non-empty, and never carries the email |
| Profile.ProfilePage.constructor | src/app/profile/page.tsx:37-52 | the form starts from the user's name and a blank password |
| Profile.ProfilePage.Submit | src/app/profile/page.tsx:58-79 | updates the signed-in user's own record by id; success is reported iff the record was found, and otherwise `updateUser`'s "user not found" alert fires before the failure toast; then the form shows the new name and a blank password, only that record's name and (when one was typed) password change, and `currentUser` is rewritten with the new record iff it is this user's; no other key changes |

## Left out

- JSON text: the model stores decoded values. Text that `JSON.parse` rejects is `Unparsable` under ledger and budget keys, where the hooks catch it or where `getAllTransactions` throws. The `users` and `currentUser` keys are always the right shape, because the source does not recover from a bad value there. An empty stored string is treated like a missing key.
- `typeof window` checks and server rendering: the model is always in the browser.
- React scheduling: effects, memos and state setters are modelled as plain calls in program order. Which renders trigger which effects is not a subject of the model, and neither are the stale-state interleavings of the two ledger effects when the user changes.
- Rendering: JSX, recharts, Tabs, the chart's day and month labels (`format(..., 'EEE'/'MMM')`) and the chart returning null for an empty list are left out. Currency formatting and the text and styling of toasts and alerts are left out too; only which notice fires is kept.
- Date library: `date-fns`, `new Date()`, time zones and `toISOString` are left out. The weekly day of a transaction is a parameter `dayOf`, and today is a day number. The current month is an index `year * 12 + month0` with a four-digit year. The month the budget hook uses is a timestamp parameter.
- Ledger.GetAllTransactions: compares ISO-8601 date strings as strings rather than comparing `getTime()` values. For the one format `toISOString` writes, the two orders coincide. Invalid dates, which give NaN, are not modelled.
- History.SortedTransactions: promises no order on the category column. There a row without a category compares equal to every row, so the comparator is not a consistent order (`Sorting.CategoryComparatorNotTransitive`), and the engine's result is then unspecified beyond being a permutation.
- Sorting.SortBy: is an insertion sort standing for the engine's `Array.prototype.sort`. Only the permutation and, where the comparator is consistent, the order are claimed. Stability is not claimed.
- Floating point: amounts are whole numbers. Fractional amounts from `parseFloat` or `z.coerce.number` are not modelled, and `BudgetTracker.Progress` is exact rational arithmetic.
- Id generation: `crypto.randomUUID` is modelled by an id parameter that is unused in the directory. Transaction ids are taken as given.
- Strings: strings are sequences of characters, which stand for UTF-16 code units, and there is no normalisation or case folding.
- The `Entries` order of JavaScript objects: buckets keep insertion order. This holds because day and month keys are not array-index-like strings.
- Zod versions: the forms follow zod 3. An object's `refine` is skipped only when its parse was aborted by a type error: a missing transaction type, or an amount that is not a number. Failed length and sign checks do not skip it.
- `src/app/page.tsx`, `system-activity-table.tsx`, `user-management-table.tsx` (except its rule that admins get no delete button), `logo.tsx` and `icons.tsx` are not part of this model, because they hold wiring and display only.
