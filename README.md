# Personal ledger store, in Dafny

This project models the state layer of a personal finance web app. A single
store (`contexts/AppContext.tsx`) holds five things:

- transactions (income or expense);
- receivables (money owed to the user, paid off by payments);
- payables (money the user owes, paid off by payments made);
- the category table;
- the settings.

The model also covers the plain list logic that four screens derive from the
store:

- the monthly report: the month's transactions, the per-category expense
  breakdown, and income, expense and savings;
- the transaction history: the type filter, the text search, and grouping by day;
- the admin panel's CSV export;
- the payable detail screen: the amounts paid and remaining, the guard on a
  new payment, and the newest-first payment history.

Layout:

- `types.dfy`: the records and enums of `types.ts`.
- `constants.dfy`: the default category table.
- `lists.dfy`, `text.dfy`: the JavaScript list and string operations the
  code relies on (`filter`, `find`, `map` by id, stable `sort`, `reduce`,
  `reverse`, `toLowerCase`, `replace`, `join`), each defined once with the
  facts the other proofs need. `Text.Split` is not used by the code: it
  states what a reader of the exported CSV gets back by splitting it.
- `ledger_rules.dfy`: the pure part of the store:
  - totals and balance;
  - how a payment credits a receivable or payable and recomputes its status;
  - the transaction a payment posts;
  - the category slug;
  - the settings merge.
- `app_context.dfy`: the store, as the class `Store`.
  - Its five fields are replaced by its methods, one per operation of the context.
  - Its invariant `Valid()`: ids are distinct in every list, and the
    transaction, receivable and payable lists are sorted newest first.
  - Each method states the whole new state in terms of the functions of
    `ledger_rules.dfy` and `lists.dfy`.
- `monthly_report.dfy`, `transaction_history.dfy`, `admin_panel.dfy`,
  `payable_detail.dfy`: the screens' derivations.
  - The `reduce` loops that build the expense breakdown and the day
    groups are methods with loops.
  - Each loop method is proved equal to a fold function, and the lemmas
    next to it state what that fold means.

The records of `types.ts` are datatypes in `types.dfy`, with the same fields,
with two differences:

- `PaymentMade` has the same fields as `Payment`, so it is a type synonym of
  `Payment` rather than a datatype of its own.
- The `type` field of a transaction is called `kind`, since `type` is a
  Dafny keyword.

Also:

- `TransactionType`, `ReceivableStatus` and `PayableStatus` each have exactly
  their two values.
- An optional field (`notes?`) is an `Option`.
- `spendingLimit: number | null` is an `Option<real>`.
- A `Receivable` and a `Payable` each hold their ordered payment list.
- `Omit<…, 'id' | …>` arguments are the draft datatypes (`TransactionDraft`,
  `DebtDraft`, `PaymentDraft`).

Conventions:

- Amounts are `real`.
- Dates are the ISO strings the app stores.
- The store holds `stamp`, its reading of a date as a timestamp (`new Date(d).getTime()`).
  The comparator `(a, b) => stamp(b.date) - stamp(a.date)` sorts newest
  first, and JavaScript's sort is stable. The model sorts with the stable
  insertion sort `Lists.SortDesc`.

The model follows what the code does, including where that differs from
what one would expect of such an app:

- The `toll` default category's icon is the character 톨 (U+D1A8), as in
  `constants.ts`, rather than a road-toll emoji.
- A receivable's or payable's status is recomputed only when a payment is
  added. It is not an invariant of the store: editing a settled record's
  amount keeps the stale status. `LedgerRules.EditKeepsStaleStatus` shows
  a concrete case.

## Model

| member | source | states |
|---|---|---|
| Constants.DefaultCategories | constants.ts:4-16 | the default table has exactly 11 categories, with pairwise distinct ids |
| LedgerTypes.TypeText | types.ts:1-4 | the text of each transaction kind, `income` or `expense`, as stored, filtered on and exported (no contract; `TypeFilterChoices` and `RowIsJoinedFields` use it) |
| LedgerRules.DefaultsAgreeWithLiterals | constants.ts:14-15 | the table's `income` entry is the exact category literal that `addPayment` posts with; its `other` entry equals the fallback literal of `addPaymentMade`, so with the default table the fallback changes nothing |
| AppContext.Store.constructor | contexts/AppContext.tsx:37-45 | each field starts from its stored value, or from its default: no transactions, receivables or payables, the default categories, and settings `SAR`, the system dark-mode preference and no spending limit |
| AppContext.Store.AddTransaction | contexts/AppContext.tsx:47-50 | with a fresh id, the list becomes the stable newest-first sort of the new transaction followed by the old list; its multiset grows by exactly that transaction; ids stay distinct and the list stays sorted; every other field is unchanged |
| Lists.SortDesc | contexts/AppContext.tsx:49 | the comparator sort, newest first, as a stable insertion sort; its contract: same length, same elements, sorted. The same sort serves lines 53, 90, 94, 145, 149 and 179 |
| Lists.AddSortedEffect | contexts/AppContext.tsx:49 | on a sorted list, adding and sorting inserts the new element before the first element whose date is not later; the result is sorted and is the old multiset plus the new element |
| Lists.AddSortedDistinct | contexts/AppContext.tsx:49 | adding an element whose id is fresh keeps the ids distinct |
| AppContext.Store.UpdateTransaction | contexts/AppContext.tsx:52-54 | the list becomes the sort of the list with the matching element replaced; an unknown id leaves the list exactly as it was; other fields unchanged |
| Lists.UpdateSortedEffect | contexts/AppContext.tsx:53 | replacing by id and re-sorting keeps ids distinct and the list sorted; the result is a permutation of the old list with only the matching element replaced; an absent id gives back the sorted list unchanged |
| Lists.ReplaceByIdAt | contexts/AppContext.tsx:53 | with distinct ids, `map(t => t.id === u.id ? u : t)` changes exactly the position holding that id |
| Lists.ReplaceByIdAbsent | contexts/AppContext.tsx:53 | the same map with an id that is absent returns the list unchanged |
| AppContext.Store.DeleteTransaction | contexts/AppContext.tsx:56-58 | the list becomes the filter that drops that id; afterwards no element has the id; other fields unchanged |
| Lists.RemoveByIdEffect | contexts/AppContext.tsx:57 | removing by id gives an order-preserving subsequence holding exactly the other elements; sortedness and distinct ids are kept; an absent id changes nothing; removing the id held at position k gives the list without position k |
| AppContext.Store.AddCategory | contexts/AppContext.tsx:60-65 | the categories become `AddCategoryTo(old, name, icon)`; afterwards the slug id is present; the ids stay distinct |
| LedgerRules.Slug | contexts/AppContext.tsx:61 | the category id made from a name (no contract; `SlugReplacesFirstSpace` and `SlugWithoutSpace` state what it is) |
| LedgerRules.AddCategoryTo | contexts/AppContext.tsx:61-64 | append the category unless its id is taken (no contract; `AddCategoryEffect` and `AddCategoryIdempotent` state its effect) |
| LedgerRules.SlugReplacesFirstSpace | contexts/AppContext.tsx:61 | the id is the lower-cased name with only its first space turned into '-' |
| LedgerRules.SlugWithoutSpace | contexts/AppContext.tsx:61 | a name without spaces gives the lower-cased name |
| LedgerRules.AddCategoryEffect | contexts/AppContext.tsx:62-64 | the slug id is present afterwards and ids stay distinct; if the id already existed the list is unchanged, otherwise exactly the new category is appended at the end |
| LedgerRules.AddCategoryIdempotent | contexts/AppContext.tsx:60-65 | adding the same name a second time, with any icon, changes nothing |
| AppContext.Store.UpdateSettings | contexts/AppContext.tsx:67-69 | the settings become the old settings with the given fields overridden; nothing else changes |
| LedgerRules.MergeSettings | contexts/AppContext.tsx:68 | the spread `{ ...prev, ...newSettings }` (no contract; `MergeSettingsLaws` states it field by field) |
| LedgerRules.MergeSettingsLaws | contexts/AppContext.tsx:68 | for each of currency, dark mode and spending limit, a given field wins and an absent field keeps the old value; an empty patch is the identity; applying a patch twice is applying it once; two patches in a row are one patch in which the later fields win |
| LedgerRules.DefaultSettings | contexts/AppContext.tsx:39-43 | the default settings literal, `SAR`, the dark-mode preference and no spending limit, also used by `resetData` at lines 74-78 (no contract; the constructor's and `ResetData`'s contracts use it) |
| AppContext.Store.ResetData | contexts/AppContext.tsx:71-81 | the three lists become empty, the categories become the default table and the settings become the defaults for the current dark-mode preference |
| AppContext.Store.AddReceivable | contexts/AppContext.tsx:83-91 | a receivable with a fresh id, status pending and no payments is inserted in date order; the list grows by exactly it; other fields unchanged |
| AppContext.Store.UpdateReceivable | contexts/AppContext.tsx:93-95 | replace by id and re-sort; an unknown id changes nothing; other fields unchanged |
| AppContext.Store.DeleteReceivable | contexts/AppContext.tsx:97-99 | drop the receivable with that id, keeping the order of the rest; other fields unchanged |
| AppContext.Store.AddPayment | contexts/AppContext.tsx:101-136 | the receivables become the map that credits the payment to the receivable with that id, without re-sorting; an unknown id changes nothing and posts no transaction; on a match the income transaction for that receivable's person is added in date order |
| LedgerRules.TotalPaid | contexts/AppContext.tsx:111-112 | the `reduce` that sums a payment list, the same sum at lines 166-167, 207 and 214 (no contract; `ApplyPaymentEffect` and `ApplyPaymentMadeEffect` state how a payment raises it) |
| LedgerRules.CreditReceivable | contexts/AppContext.tsx:111-119 | append the payment and recompute the status from the new total (no contract; `ApplyPaymentEffect` states it) |
| LedgerRules.ApplyPayment | contexts/AppContext.tsx:105-123 | the `map` over the receivables that credits the one with the id; its contract keeps the length, and `ApplyPaymentEffect` states the rest |
| LedgerRules.IncomeFromPayment | contexts/AppContext.tsx:127-134 | the income transaction `addPayment` posts (no contract; `PostedTransactions` states its fields and note) |
| LedgerRules.ApplyPaymentEffect | contexts/AppContext.tsx:105-123 | other receivables are untouched; the matching one gains the payment at the end of its list, its paid total rises by the amount, and it is received exactly when the new total reaches the amount; an absent id changes nothing; distinct ids and date order are kept |
| AppContext.Store.AddPayable | contexts/AppContext.tsx:138-146 | a payable with a fresh id, status due and no payments is inserted in date order; other fields unchanged |
| AppContext.Store.UpdatePayable | contexts/AppContext.tsx:148-150 | replace by id and re-sort; an unknown id changes nothing |
| AppContext.Store.DeletePayable | contexts/AppContext.tsx:152-154 | drop the payable with that id, keeping the order of the rest |
| AppContext.Store.AddPaymentMade | contexts/AppContext.tsx:156-191 | the payables become the sorted credit map, which equals the credit map itself because no date changes; an unknown id changes nothing; on a match the expense transaction for that payable's person is added, using the categories the store held before the call |
| LedgerRules.CreditPayable | contexts/AppContext.tsx:166-174 | append the payment made and recompute the status from the new total (no contract; `ApplyPaymentMadeEffect` states it) |
| LedgerRules.ApplyPaymentMade | contexts/AppContext.tsx:160-178 | the `map` over the payables that credits the one with the id; its contract keeps the length, and `ApplyPaymentMadeEffect` states the rest |
| LedgerRules.ExpenseFromPayment | contexts/AppContext.tsx:182-190 | the expense transaction `addPaymentMade` posts (no contract; `PostedTransactions` states its fields and note) |
| LedgerRules.ApplyPaymentMadeEffect | contexts/AppContext.tsx:160-179 | the same as for receivables, with paid and due; in addition, re-sorting a credited sorted list returns it unchanged |
| LedgerRules.PostedTransactions | contexts/AppContext.tsx:127-134 | the posted transaction has the payment's amount and date; it is income with category `income` (or expense with category `other`); its note is "Payment from/to <name>", followed by " - <notes>" exactly when the notes are non-empty |
| LedgerRules.OtherCategory | contexts/AppContext.tsx:186 | the expense category has id `other`; it is the first stored category with that id when there is one, and the literal fallback exactly when there is none |
| LedgerRules.TotalIncome | contexts/AppContext.tsx:193-203 | the sum of the income amounts, folded left to right (no contract; the lemmas below state its behaviour) |
| LedgerRules.TotalExpense | contexts/AppContext.tsx:193-203 | the sum of the amounts of every transaction that is not income (no contract; the lemmas below state its behaviour) |
| LedgerRules.Balance | contexts/AppContext.tsx:219 | income minus expense (no contract; `BalanceAfterTransactionUpdates` and `ReportAgreesWithStore` state its behaviour) |
| LedgerRules.TotalPendingReceivables | contexts/AppContext.tsx:205-210 | the sum of amount minus paid over the pending receivables (no contract; `PaymentLowersPending`, `PaymentOnSettledKeepsPending` and `OutstandingAfterAddAndDelete` state its behaviour) |
| LedgerRules.TotalDuePayables | contexts/AppContext.tsx:212-217 | the same over the due payables (no contract; `PaymentMadeLowersDue`, `OutstandingAfterAddAndDelete` and `RemainingIsDueShare` state its behaviour) |
| LedgerRules.IncomeAndExpenseCoverAll | contexts/AppContext.tsx:193-203 | every transaction counts as exactly one of income and expense, so the two totals add up to the sum of all amounts |
| LedgerRules.BalanceAfterTransactionUpdates | contexts/AppContext.tsx:47-58 | on a sorted list with distinct ids, empty or not: adding a transaction moves the balance by its signed amount; for every position k, updating the transaction at k moves it by the new signed amount minus the old one, and deleting it moves it by minus its signed amount |
| LedgerRules.OutstandingAfterAddAndDelete | contexts/AppContext.tsx:205-217 | a new receivable or payable raises the pending or due total by its full amount; deleting the entry at k lowers the total by that entry's share |
| LedgerRules.PaymentLowersPending | contexts/AppContext.tsx:205-210 | a payment of at most the remaining amount on a pending receivable lowers `totalPendingReceivables` by the payment's amount |
| LedgerRules.PaymentOnSettledKeepsPending | contexts/AppContext.tsx:205-210 | a payment on a received, fully paid receivable leaves `totalPendingReceivables` unchanged |
| LedgerRules.PaymentMadeLowersDue | contexts/AppContext.tsx:212-217 | a payment of at most the remaining amount on a due payable lowers `totalDuePayables` by the payment's amount |
| LedgerRules.EditKeepsStaleStatus | contexts/AppContext.tsx:111-113 | a concrete case: a received receivable whose amount is edited upwards stays received with less paid than owed, and its next payment turns it back to pending |
| MonthlyReport.MonthTransactions | components/reports/MonthlyReport.tsx:17 | `filter(t => t.date.startsWith(month))` (no contract; `MonthViewSelects` states it) |
| MonthlyReport.MonthViewSelects | components/reports/MonthlyReport.tsx:17 | the month view holds exactly the transactions whose date starts with the month, as a subsequence of the store's list |
| MonthlyReport.ExpenseData | components/reports/MonthlyReport.tsx:19-29 | the loop computes the breakdown fold over the month's expenses |
| MonthlyReport.Breakdown | components/reports/MonthlyReport.tsx:21-29 | the `reduce` as a fold of `AddToBreakdown` steps (no contract; `BreakdownNames`, `BreakdownValues` and `BreakdownTotal` state it) |
| MonthlyReport.FindSlice | components/reports/MonthlyReport.tsx:22 | `acc.find` by name: returns the first slice with that name, or the list's length when there is none |
| MonthlyReport.ExpenseDataMeaning | components/reports/MonthlyReport.tsx:19-32 | the breakdown has one slice per expense category name, in first-occurrence order; each slice holds the month's expenses under its name; together the slices equal the month's total expense |
| MonthlyReport.BreakdownNames | components/reports/MonthlyReport.tsx:19-29 | the slice names are the expense category names with duplicates removed, in first-occurrence order |
| MonthlyReport.BreakdownValues | components/reports/MonthlyReport.tsx:20-27 | each slice's value is the sum of the expense amounts with that category name, so income adds to no slice |
| MonthlyReport.BreakdownTotal | components/reports/MonthlyReport.tsx:19-32 | the slice values add up to the sum of the expenses |
| MonthlyReport.MonthIncome | components/reports/MonthlyReport.tsx:31 | `totalIncome`: the sum of the month's income amounts (no contract; `ReportAgreesWithStore` states that it is the store's income total over the month) |
| MonthlyReport.MonthExpense | components/reports/MonthlyReport.tsx:32 | `totalExpense`: the sum of the month's expense amounts (no contract; `ReportAgreesWithStore` and `ExpenseDataMeaning` state it) |
| MonthlyReport.Savings | components/reports/MonthlyReport.tsx:31-33 | the month's income minus the month's expense (no contract; `ReportAgreesWithStore` states it) |
| MonthlyReport.ReportAgreesWithStore | components/reports/MonthlyReport.tsx:31-33 | the month's income and expense equal the store's income and expense totals over the month's transactions; savings equal the store's balance over them, and equal the whole balance when every transaction lies in the month |
| TransactionHistory.KeepsType | components/transactions/TransactionHistory.tsx:16-19 | the type test (no contract; `TypeFilterChoices` states it for every button value) |
| TransactionHistory.MatchesSearch | components/transactions/TransactionHistory.tsx:20-26 | the search test (no contract; `EmptySearchKeepsAll` and `SearchIgnoresCase` state it) |
| TransactionHistory.Filtered | components/transactions/TransactionHistory.tsx:15-27 | the type filter, then the search (no contract; `FilteredSelects` states it) |
| TransactionHistory.FilteredSelects | components/transactions/TransactionHistory.tsx:15-27 | the filtered list is the type filter followed by the search filter; it keeps a transaction exactly when it passes both; it is a subsequence of the store's list |
| TransactionHistory.TypeFilterChoices | components/transactions/TransactionHistory.tsx:16-19 | `all` keeps everything; `income` and `expense` keep exactly the transactions of that kind; any other value keeps nothing |
| TransactionHistory.EmptySearchKeepsAll | components/transactions/TransactionHistory.tsx:20-27 | an empty search term keeps every transaction |
| TransactionHistory.SearchIgnoresCase | components/transactions/TransactionHistory.tsx:21 | the search depends only on the lower-cased term |
| TransactionHistory.GroupByDay | components/transactions/TransactionHistory.tsx:32-41 | the loop computes the grouping fold. Its day keys are the distinct days in first-occurrence order, with one bucket per key. Each bucket holds exactly that day's transactions in list order. Every transaction is in its own day's bucket. The bucket sizes add up to the number of transactions |
| TransactionHistory.GroupFold | components/transactions/TransactionHistory.tsx:33-40 | the `reduce` of `groupTransactionsByDate`, one `Push` per transaction (no contract; `GroupByDay` is proved equal to it and `GroupFoldGroups` states it) |
| TransactionHistory.GroupFoldGroups | components/transactions/TransactionHistory.tsx:33-40 | the fold's days, buckets and bucket contents are those of the grouping, for every input list |
| TransactionHistory.GroupingCovers | components/transactions/TransactionHistory.tsx:33-40 | a grouping places every transaction in its day's bucket, and the bucket sizes add up to the list's length |
| TransactionHistory.NoBucketForAbsentDay | components/transactions/TransactionHistory.tsx:35-38 | a day that no transaction falls on gathers no transactions |
| AdminPanel.Row | components/dashboard/AdminPanel.tsx:27 | the row template (no contract; `RowIsJoinedFields`, `RowSplitsIntoFields` and `CommaInNameShiftsCells` state it) |
| AdminPanel.ExportCsv | components/dashboard/AdminPanel.tsx:25-28 | the header followed by the rows joined by newlines (no contract; `ExportLayout` states it) |
| AdminPanel.RowIsJoinedFields | components/dashboard/AdminPanel.tsx:27 | a row is its six cells (id, type, amount text, category name, date, quoted notes with missing notes written `""`) joined by commas |
| AdminPanel.RowSplitsIntoFields | components/dashboard/AdminPanel.tsx:27 | when no cell contains a comma, splitting the row on commas gives back the six cells |
| AdminPanel.CommaBreaksRow | components/dashboard/AdminPanel.tsx:27 | the converse of `RowSplitsIntoFields`: a comma in any of the six cells makes splitting the row give at least seven cells, so never the six fields |
| AdminPanel.RowCommas | components/dashboard/AdminPanel.tsx:27 | a row holds five commas more than its six cells together |
| Text.SplitCount | components/dashboard/AdminPanel.tsx:27-28 | splitting a text gives one piece more than the separators in it |
| AdminPanel.CommaInNameShiftsCells | components/dashboard/AdminPanel.tsx:27 | nothing is escaped: a category name with one comma splits the row into seven cells, with every later cell moved one place to the right |
| AdminPanel.ExportLayout | components/dashboard/AdminPanel.tsx:25-28 | the text starts with the header, followed by the rows in store order joined by newlines with none after the last; no transactions gives exactly the header; rows without newlines come back from splitting on newlines |
| PayableDetail.PaidAmount | components/payables/PayableDetail.tsx:29 | the sum of the payments made (no contract; `AcceptedPaymentKeepsBounds` states how a payment changes it) |
| PayableDetail.RemainingAmount | components/payables/PayableDetail.tsx:30 | amount minus paid (no contract; `RemainingIsDueShare` and `AcceptedPaymentKeepsBounds` state it) |
| PayableDetail.AcceptsPayment | components/payables/PayableDetail.tsx:42 | the guard: an amount was entered, it is positive and it is at most what remains (no contract; `SubmitPayment` and `AcceptedPaymentKeepsBounds` use it) |
| PayableDetail.FormOffered | components/payables/PayableDetail.tsx:90 | the `payable.status === 'due'` guard on the payment form (no contract; `FormOfferedWhileOwed` states it) |
| PayableDetail.FormOfferedWhileOwed | components/payables/PayableDetail.tsx:90 | after a payment, the form is offered (status due) exactly while something remains to be paid |
| PayableDetail.RemainingIsDueShare | components/payables/PayableDetail.tsx:29-30 | the remaining amount of a due payable is what it adds to `totalDuePayables`; a paid payable adds nothing |
| PayableDetail.AcceptedPaymentKeepsBounds | components/payables/PayableDetail.tsx:42 | if the paid total was at most the amount, a payment the guard accepts keeps it at most the amount and lowers the remaining amount by the payment; the payable becomes paid exactly when nothing remains |
| PayableDetail.SubmitPayment | components/payables/PayableDetail.tsx:40-53 | the store records the payment exactly when an amount was entered, is positive and is at most the remaining amount. When it does, the payable is credited. The expense transaction for the payable's person is added in date order. Receivables, categories and settings stay as they were. Otherwise every field of the store is unchanged |
| PayableDetail.History | components/payables/PayableDetail.tsx:140 | the history is the payment list in reverse: entry i is the i-th payment counted from the newest |
| PayableDetail.HistoryShowsNewestFirst | components/payables/PayableDetail.tsx:140 | after a payment, the history is that payment followed by the earlier history |

## Left out

- Persistence: `useLocalStorage` and JSON (de)serialisation are not part of this model.
  - The store's constructor takes what storage held, with a missing entry as `None`.
  - It requires that data to be well formed: distinct ids, and lists sorted newest first.
  - The `payments || []` and `paymentsMade || []` guards for records saved before those lists existed are not modelled, because a stored record always has its list here.
- React's updater timing: `addPayment` and `addPaymentMade` read `targetReceivable`/`targetPayable` after `setState`. The model takes the updater as having run synchronously.
- Id generation (`new Date().toISOString() + Math.random()`): ids are parameters, and an operation that inserts one requires it to be absent.
- The dark-mode default (`window.matchMedia`) is a parameter.
- Floating-point arithmetic: amounts are exact reals, so rounding in sums and the comparison `totalPaid >= amount` are exact.
  - `toString`/`toLocaleString` text is a parameter `amountText`.
  - The progress percentage is not modelled.
- Date parsing: `new Date(d).getTime()` is the store's function `stamp`, so invalid dates (`NaN` comparators) are not modelled.
  - The time-zone-dependent day key `toLocaleDateString('en-CA')` is a parameter `dayKey`.
- PayableDetail.SubmitPayment: the form's date is taken as already converted by `new Date(paymentDate).toISOString()`. The amount is taken as already parsed, with an empty field as `None`.
- Text.ToLower: lower-cases ASCII letters only, not JavaScript's full Unicode case mapping.
- The screens themselves are not part of this model: rendering, routing, `window.confirm`/`alert`, and the form and list screens. Their edit forms spread new fields over the old record, which is what `EditKeepsStaleStatus` exercises.
- The CSV file download (Blob, anchor element), the service worker, the install button, the quote service and the build configuration are not part of this model.
