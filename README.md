# LendX loan tracker: a Dafny model of its core

LendX records cash lent to borrowers. A transaction is "taken" when the
borrower receives cash and "returned" when they pay it back. Each borrower
has a weekly interest rate and an interest method. From the ledger the
tracker computes interest three ways:

- simple interest on the final balance;
- simple interest accrued period by period with repayments;
- weekly compound interest with a per-week breakdown.

This project models that interest engine. It also models the parts of the
application that feed the engine or use its results:

- the borrower store;
- the borrower view's date window, summary and running-balance column;
- the dashboard totals;
- the validators and the login/sign-up decisions;
- the submit logic of the transaction form.

Conventions:

- A date is an integer day number. Day 0 is 1970-01-01, a Thursday.
  Comparing zero-padded ISO date strings becomes comparing integers.
- Weeks start on Monday. A whole-week count is truncated toward zero, as the
  date library counts whole units.
- Amounts and rates are reals. A number that fails to parse is `None`.
- The clock and generated ids are parameters.

One module per source file:

| file | module | models |
|---|---|---|
| types.dfy | Types | record shapes of types/index.ts |
| dates.dfy | Dates | the week arithmetic the engine uses |
| balance.dfy | Balance | `calculateRunningBalance` and the list folds it relies on |
| sorting.dfy | Sorting | the stable sort by date used by the engine and the store |
| calculations.dfy | Calculations | simple and simple-with-repayment interest |
| compound.dfy | Compounding | weekly compound interest |
| borrower_detail.dfy | BorrowerDetail | date filter, summary totals, running-balance rows |
| storage.dfy | Storage | the borrower store (a class over a sequence of borrowers) |
| utils.dfy | Utils | day suffix, password and email validation, string trimming |
| auth.dfy | Auth | login and sign-up (a class over the user list and the current user) |
| transaction_form.dfy | TransactionForm | the form's submit against the store |
| dashboard.dfy | Dashboard | total outstanding, active loans, row label and colour |

How the code is specified:

- Each loop of the source is a method. The method is proved equal to a
  reference function written without the loop, for example
  `CalculateSimpleInterest` equals `SimpleInterest` and `Sweep` equals
  `CompoundWeeks`. The properties are then proved as lemmas about those
  functions.
- The store's operations are methods of `LedgerStore`. Each one states the
  new borrower list as a function of the old list. Lemmas then prove what
  each operation keeps.

## Model

| member | source | states |
|---|---|---|
| Dates.MondayOf | lib/calculations.ts:134-135 | the Monday-based start of d's week is a Monday, at most six days before d |
| Dates.WeeksBetween | lib/calculations.ts:42 | whole weeks between two days, truncated toward zero: for later ≥ earlier, 7w ≤ span < 7w + 7; otherwise 7w − 7 < span ≤ 7w ≤ 0 |
| Dates.WeeksBetweenMondays | lib/calculations.ts:137 | between two Mondays the whole-week count is exact |
| Balance.RunningBalanceIsTakenMinusReturned | lib/calculations.ts:4-12 | the running balance is the taken total minus the returned total |
| Balance.RunningBalanceAppend | lib/calculations.ts:4-12 | the balance of a concatenation is the sum of the two balances |
| Balance.RunningBalancePerm | lib/calculations.ts:4-12 | the balance does not depend on the order of the transactions |
| Balance.RunningBalanceOfFlipped | lib/calculations.ts:4-12 | swapping taken and returned on every transaction negates the balance |
| Sorting.SortByDateSorts | lib/calculations.ts:19-21 | the date sort returns a date-ordered permutation of its input |
| Sorting.SortedCopy | lib/calculations.ts:19-21 | the sorted copy is date-ordered, a permutation of the input and as long; the input is a value and stays unchanged |
| Sorting.EarliestDate | lib/calculations.ts:41 | the first date is a date of the list and no date is earlier |
| Sorting.SortedHeadIsEarliest | lib/calculations.ts:41 | the head of any date-ordered permutation carries the earliest date |
| Sorting.SortedPrefixIsOnOrBefore | lib/calculations.ts:27-29 | a loop that stops at the first transaction after x has consumed exactly the transactions dated ≤ x |
| Calculations.Max0 | lib/calculations.ts:108 | `Math.max(0, x)`: at least 0 and x, and equal to one of them |
| Calculations.InterestSign | lib/calculations.ts:43 | interest is 0 for zero weeks or a zero balance, and non-negative when balance, rate and weeks are |
| Calculations.CalculateSimpleInterest | lib/calculations.ts:14-52 | the sort-and-break loop equals the reference: balance and taken total of the transactions dated ≤ asOf, interest = balance × rate × whole weeks from the earliest date / 100, totalAmount = balance + interest, all 0 interest for no transactions |
| Calculations.KeptInAnyOrder | lib/calculations.ts:27-37 | the balance and the taken total of the transactions dated ≤ x are the same in any order |
| Calculations.SimpleIgnoresOrder | lib/calculations.ts:19-21 | simple interest depends only on the multiset of transactions |
| Calculations.SimpleIgnoresLater | lib/calculations.ts:29 | a transaction dated after asOf changes nothing |
| Calculations.SimplePrincipalIgnoresReturns | lib/calculations.ts:31-36 | with non-negative amounts the principal is non-negative and at least the balance: returns never reduce it |
| Calculations.SimpleNoInterestInFirstWeek | lib/calculations.ts:40-44 | less than a week after the earliest transaction (asOf = that date included) the interest is 0 and the amount is the balance |
| Calculations.SimpleTwoWeeksExample | lib/calculations.ts:39-51 | rate 10, 1000 taken on 2024-01-01, asOf 2024-01-15: principal 1000, interest 200, amount 1200 |
| Calculations.CalculateSimpleInterestWithRepayment | lib/calculations.ts:54-112 | the sort-and-break loop equals the reference: period-by-period accrual over the transactions dated ≤ asOf in date order, then the final period to asOf; principal = max(0, net ≤ asOf); all zeros for no transactions. The reference charges nothing exactly when the balance is never positive across a whole week (`RepayZeroIffNeverOwedForAWeek`) |
| Calculations.AccrueBalance | lib/calculations.ts:86-91 | the accrual's balance moves by exactly the net of the transactions walked |
| Calculations.AccrueInterestNonNegative | lib/calculations.ts:81-84 | from non-negative interest and with a non-negative rate, the accrued interest stays non-negative |
| Calculations.RepayTotals | lib/calculations.ts:102-110 | principal ≥ 0; totalAmount = net balance ≤ asOf + interest, which is principal + interest when the net is non-negative |
| Calculations.RepayInterestNonNegative | lib/calculations.ts:76-100 | with a non-negative rate the total interest is non-negative |
| Calculations.RepayIgnoresOrder | lib/calculations.ts:59-61 | the result depends only on the multiset of transactions |
| Calculations.RepayIgnoresLater | lib/calculations.ts:78 | a transaction dated after asOf changes nothing |
| Calculations.SameDayCommute | lib/calculations.ts:81-93 | two transactions on the same day can be applied in either order |
| Calculations.AccrueIgnoresSameDayOrder | lib/calculations.ts:59-61 | any two date-ordered arrangements of the same transactions accrue the same, so the sort's order among equal dates does not matter |
| Calculations.RepayNoInterestInFirstWeek | lib/calculations.ts:74-110 | less than a week after the earliest transaction (asOf = that date included) no period has a whole week: the interest is 0 and the amount is the balance |
| Calculations.RepaidWithinWeekExample | lib/calculations.ts:76-100 | 1000 taken on day 0 and returned on day 3, asOf day 10: interest 0 at any rate |
| Calculations.RepayZeroIffNeverOwedForAWeek | lib/calculations.ts:76-100 | if no period between the transactions dated ≤ asOf, nor the last one up to asOf, starts with a positive balance and lasts a whole week, the interest is 0; at a positive rate the converse holds too |
| Calculations.RepayTwoWeeksExample | lib/calculations.ts:76-100 | rate 10, 1000 taken on 2024-01-01, asOf 2024-01-15: principal 1000, interest 200, amount 1200 |
| Compounding.CalculateCompoundInterest | lib/calculations.ts:114-193 | the method equals the reference: one record per week from the first transaction's Monday to asOf's Monday; totalAmount = last balance (0 if none); principal = max(0, net ≤ asOf); totalInterest = totalAmount − principal; for no transactions all zeros and an empty breakdown |
| Compounding.Sweep | lib/calculations.ts:143-177 | the week loop over the sorted transactions builds exactly the reference breakdown for totalWeeks weeks (none when totalWeeks ≤ 0) |
| Compounding.SweepWeek | lib/calculations.ts:144-176 | one outer iteration applies the week's transactions and its interest and appends the next reference record |
| Compounding.ApplyWeek | lib/calculations.ts:148-160 | the inner loop consumes the transactions dated ≤ the week's end and ≤ asOf and moves the balance by their net |
| Compounding.SweepBounds | lib/calculations.ts:163 | every week the loop visits starts on or before asOf, so the `weekStart <= asOfDate` guard always holds |
| Compounding.CompoundDates | lib/calculations.ts:144-171 | record k is numbered k + 1 and starts 7k days after the first week's Monday (so on a Monday); it ends 6 days later |
| Compounding.CompoundChain | lib/calculations.ts:147-175 | record k's principal is the previous balance (0 for week 1) plus the week's net; interest = principal × rate / 100; balance = principal + interest |
| Compounding.CompoundSpansToAsOf | lib/calculations.ts:133-137 | the breakdown starts on the first transaction's Monday and its last week contains asOf |
| Compounding.InWeekSub | lib/calculations.ts:148-152 | the transactions a week applies are the ledger's, dated in that week and on or before asOf |
| Compounding.CompoundIgnoresOrder | lib/calculations.ts:119-121 | compound interest depends only on the multiset of transactions |
| Compounding.CompoundIgnoresLater | lib/calculations.ts:151 | a transaction dated after asOf changes nothing, once some transaction is on or before asOf |
| Compounding.CompoundZeroRate | lib/calculations.ts:179-191 | at rate 0 the amount is the net balance ≤ asOf, the principal is that net clamped at 0, and the interest is 0 exactly when the net is non-negative |
| Compounding.FirstWeekCharged | lib/calculations.ts:134-191 | a single transaction on any weekday, with asOf that day, gives one record (the week from the Monday on or before it); a full week's interest is charged: for a taken amount (or 0) totalInterest is amount × rate / 100, and for a returned one, whose principal is clamped to 0, totalInterest is the whole (negative) amount due |
| Compounding.CompoundThreeWeeksExample | lib/calculations.ts:114-193 | rate 10, 1000 taken on Monday 2024-01-01, asOf 2024-01-15: three records with balances 1100, 1210, 1331; principal 1000; interest 331 |
| Compounding.EmptyLedger | lib/calculations.ts:123-131 | with no transactions every method reports zero principal, interest and amount, and compound an empty breakdown |
| BorrowerDetail.FilterByDateKeeps | components/BorrowerDetail.tsx:92-100 | the filter keeps exactly the transactions with start ≤ date ≤ end (an unset bound does not restrict); with no bound it returns its input |
| BorrowerDetail.WindowAppend | components/BorrowerDetail.tsx:94-99 | the filter keeps order: filtering a concatenation filters each part |
| BorrowerDetail.CalculateSummary | components/BorrowerDetail.tsx:56-90 | the summary's balance is its taken total minus its returned total; with no window it is the borrower's whole balance |
| BorrowerDetail.TransactionsWithBalance | components/BorrowerDetail.tsx:116-154 | the rows are the sorted, filtered transactions in order, each with the seed plus the net of the rows up to it; the seed is 0 without a start date and otherwise the net of every transaction before the start |
| BorrowerDetail.SeedOf | components/BorrowerDetail.tsx:123-137 | the seeding loop (with its break) sums exactly the sorted transactions dated before the start |
| BorrowerDetail.Annotate | components/BorrowerDetail.tsx:139-153 | the map keeps length and order and gives each row the seed plus the net through it |
| BorrowerDetail.AnnotationSteps | components/BorrowerDetail.tsx:143-152 | the first row moves the seed by its signed amount; each later row moves the previous row's balance by its own |
| BorrowerDetail.SeedAndRowsCoverAll | components/BorrowerDetail.tsx:119-153 | without an end date the seed plus the rows' net is the borrower's whole balance |
| BorrowerDetail.LastRowIsBalance | components/BorrowerDetail.tsx:119-153 | without an end date the last row shows the borrower's whole balance |
| BorrowerDetail.RowsAreWindow | components/BorrowerDetail.tsx:119-140 | rows are in date order and each is a transaction of the borrower inside the window |
| Storage.FirstIndex | lib/storage.ts:26 | the first position whose id is the given one, or none when no element has it; the store uses it for borrowers (findIndex, find) and for a borrower's transactions (find at line 62) |
| Storage.LedgerStore.constructor | lib/storage.ts:13-17 | an empty store holds no borrowers |
| Storage.LedgerStore.SaveBorrower | lib/storage.ts:23-33 | overwrite the first borrower with the same id, else append |
| Storage.LedgerStore.DeleteBorrower | lib/storage.ts:35-40 | keep the borrowers with another id, in order |
| Storage.LedgerStore.AddTransaction | lib/storage.ts:43-55 | the first borrower with the id gets the transaction, its list re-sorted by date, and the new update time; an unknown id changes nothing |
| Storage.LedgerStore.UpdateTransaction | lib/storage.ts:57-72 | the edit is written field by field over the first transaction with the id and the list is re-sorted; an unknown borrower or transaction changes nothing |
| Storage.LedgerStore.DeleteTransaction | lib/storage.ts:74-83 | the borrower's transactions with that id are removed; an unknown borrower changes nothing |
| Storage.SavedFacts | lib/storage.ts:23-33 | a new id is appended; a known id keeps the length and its first position, which is the slot overwritten; the saved borrower is then the first with its id and every other entry is unchanged |
| Storage.SavedKeepsIdsDistinct | lib/storage.ts:23-33 | saving keeps borrower ids distinct |
| Storage.WithoutIdFacts | lib/storage.ts:38 | an element remains iff it was present with another id, and none with the id remains; the same filter deletes a borrower and a borrower's transactions (line 79) |
| Storage.WithoutIdAppend | lib/storage.ts:38 | the filter keeps order: over a concatenation it filters each part |
| Storage.WithoutBorrowerKeepsIdsDistinct | lib/storage.ts:35-40 | deleting keeps borrower ids distinct |
| Storage.WithoutTxSorted | lib/storage.ts:79 | filtering out transactions keeps a date-ordered list date-ordered |
| Storage.AddFacts | lib/storage.ts:43-55 | for a known borrower the list grows by one, is the old list plus the new transaction as a multiset, and is date-ordered; only that borrower's transactions and updatedAt change; an unknown id leaves the store as it was |
| Storage.UpdateFacts | lib/storage.ts:57-72 | for a known transaction the list keeps its length, holds the old transactions with the first match replaced by its edit, and is date-ordered; nothing else changes; otherwise the store is as it was |
| Storage.DeleteFacts | lib/storage.ts:74-83 | exactly the transactions with another id remain, a date-ordered list stays so, and no other borrower changes; an unknown borrower leaves the store as it was |
| Storage.AddKeepsInvariants | lib/storage.ts:43-55 | adding keeps ids distinct and every list date-ordered |
| Storage.UpdateKeepsInvariants | lib/storage.ts:57-72 | editing keeps ids distinct and every list date-ordered |
| Storage.DeleteKeepsInvariants | lib/storage.ts:74-83 | deleting a transaction keeps ids distinct and every list date-ordered |
| Storage.TransactionOpsKeepInvariants | lib/storage.ts:43-83 | all three transaction operations keep ids distinct and every list date-ordered |
| Utils.JsRem | lib/utils.ts:20 | JavaScript's `%` for a positive divisor: the result has the dividend's sign and is smaller than the divisor in magnitude |
| Utils.GetDaySuffix | lib/utils.ts:18-30 | the suffix is one of "st", "nd", "rd", "th", and "th" for 4 to 20 |
| Utils.DaySuffixOfMonthDays | lib/utils.ts:18-30 | over days 1 to 31: "st" iff 1, 21 or 31; "nd" iff 2 or 22; "rd" iff 3 or 23; "th" otherwise |
| Utils.FirstAt | lib/utils.ts:37 | the position of the first '@', or none when there is none |
| Utils.ValidateEmailMatchesPattern | lib/utils.ts:36-38 | the check holds iff the address matches `^[^\s@]+@[^\s@]+\.[^\s@]+$` |
| Utils.TrimFacts | components/TransactionForm.tsx:41 | a trimmed name is empty iff the name is all white space, and otherwise starts and ends with a non-space |
| Auth.FindLogin | components/Auth.tsx:25-27 | the first user whose username or email is the login name and whose password matches; none iff there is no such user |
| Auth.SignUpError | components/Auth.tsx:35-52 | the checks run in order (email, password length ≥ 6, username length ≥ 3, uniqueness) and each message appears iff its check is the first to fail |
| Auth.AuthScreen.constructor | components/Auth.tsx:15-17 | the screen starts with no current user and no error |
| Auth.AuthScreen.HandleSubmit | components/Auth.tsx:19-67 | the error is cleared; login sets the first matching user or the login error and never changes the users; sign-up either reports the first failing check and changes nothing else, or appends the new user and makes it current |
| Auth.SignUpKeepsAccountsDistinct | components/Auth.tsx:48-63 | an accepted sign-up keeps usernames distinct and emails distinct |
| Auth.ClashRefused | components/Auth.tsx:48-52 | a sign-up whose username or email is already stored is refused |
| Auth.LoginAfterSignUp | components/Auth.tsx:24-27 | after a sign-up the new credentials log in: to the new account, unless an earlier account has the new username as its email |
| TransactionForm.RateOrDefault | components/TransactionForm.tsx:46 | the rate written is never 0: the parsed rate when it is non-zero, otherwise 10 |
| TransactionForm.HandleSubmit | components/TransactionForm.tsx:34-84 | the store after a submit is the reference `Submitted`, and the submit reports whether a transaction was added |
| TransactionForm.CreateAppends | components/TransactionForm.tsx:41-54 | with the toggle on and a non-blank name, a borrower with the trimmed name, the rate or its default, the form's method and exactly the form's transaction is appended |
| TransactionForm.UnknownSelectionAborts | components/TransactionForm.tsx:55-60 | without a new borrower, a selected id that no loaded borrower has aborts the submit |
| TransactionForm.ExistingGetsOneTransaction | components/TransactionForm.tsx:61-82 | for a selected borrower, its list gains exactly the form's transaction and is date-ordered; its rate and method are rewritten only when they differ from the form's; updatedAt becomes the time of the change; its other fields and every other borrower are unchanged |
| TransactionForm.WrittenRateNonZero | components/TransactionForm.tsx:41-67 | neither a new borrower nor a rewritten one gets a rate of 0 |
| Dashboard.ActiveLoans | components/Dashboard.tsx:33-35 | every listed borrower has a positive balance, and the list is no longer than the input |
| Dashboard.ActiveLoansMembers | components/Dashboard.tsx:33-35 | a borrower is active iff it is listed and its balance is positive |
| Dashboard.ActiveLoansAppend | components/Dashboard.tsx:33-35 | the filter keeps order |
| Dashboard.ActiveAreOutstanding | components/Dashboard.tsx:33-35 | the active borrowers are exactly the rows labelled "Outstanding", which are the rows coloured green |
| Dashboard.TotalIsNetOfAllTransactions | components/Dashboard.tsx:28-31 | the total is the net of all borrowers' transactions taken together |
| Dashboard.TotalAppend | components/Dashboard.tsx:28-31 | the total over two lists of borrowers is the sum of their totals |
| Dashboard.TotalPerm | components/Dashboard.tsx:28-31 | the total does not depend on the order of the borrowers |
| Dashboard.TotalAtMostActive | components/Dashboard.tsx:28-35 | the total never exceeds what the active borrowers owe, which is never negative |
| Dashboard.NoBorrowers | components/Dashboard.tsx:28-35 | no borrowers: total 0 and no active loans |
| Dashboard.SignOf | components/Dashboard.tsx:116-123 | the three-way split both the label and the colour follow: exactly one of balance > 0, < 0, = 0 |
| Dashboard.RowLabel | components/Dashboard.tsx:123 | "Outstanding" iff balance > 0, "Credit" iff < 0, "Settled" iff = 0 |
| Dashboard.RowColourMatchesLabel | components/Dashboard.tsx:116-123 | the colour class is green iff the label is "Outstanding", red iff "Credit" and grey iff "Settled", so it follows the same three-way split on the balance's sign |
| Dashboard.RowAmount | components/Dashboard.tsx:120 | the shown amount is the balance without its sign |

Compound interest charges the first week in full even when asOf is the
only transaction's date: its loop always visits asOf's own week and applies
the interest to the balance after that week's transactions
(`Compounding.FirstWeekCharged`). The two simple methods report 0 there, and
throughout the first week (`Calculations.SimpleNoInterestInFirstWeek`,
`Calculations.RepayNoInterestInFirstWeek`).

## Left out

- `getDailyInterestRate` and the summary's `dailyInterestRate`: a fractional power of a float, used by no other calculation.
- Date-library details: local-midnight parsing versus UTC, daylight saving, the end of the week at 23:59:59.999, and output formatting. Dates are day numbers and a week's end is its start + 6.
- Floating-point rounding, and `parseFloat` on text such as "12abc": amounts are reals and a field that does not parse is `None`.
- Browser storage, JSON encoding and the `typeof window` guards. The store is a field holding the borrower list. `getBorrowers` and `getAllBorrowers` become reads of that field.
- The user store (`getUsers`, `saveUsers`, `setCurrentUser`) is not part of this model. It becomes the `users` and `currentUser` fields of `AuthScreen`. The `onLogin` callback and the navigation it triggers are left out.
- `formatCurrency`, `formatDate` and `generateId`: library wrappers and random ids. Ids and timestamps are parameters.
- Spreadsheet and PDF export, React state and effects, rendering, `alert`/`confirm`, the interest-comparison component, the app pages and the styling configuration: presentation with no logic.
- The transaction form's loading of its fields from a borrower (components/TransactionForm.tsx:24-32). The form's fields are the inputs of `TransactionForm.HandleSubmit`.
- The form's second "no borrower" check (components/TransactionForm.tsx:70-73) cannot fail once the earlier branches have run, so it has no branch in the model.
- TransactionForm.HandleSubmit: the form looks the borrower up in the list it loaded when it opened. It saves that copy, so an update made to the store in between can be lost. The model takes that list as a parameter. `ExistingGetsOneTransaction` is proved only for a loaded list equal to the store.
- Compounding.CompoundIgnoresLater: proved only when some transaction is dated on or before asOf. Otherwise a later transaction can move the first week earlier. The breakdown then gains zero-balance records, while the totals stay 0.
- Utils.JsRem: its contract states only the sign and the range of the remainder. The day-suffix lemma pins down every value the code relies on.
- Utils.ValidatePassword has no contract of its own: it is the length test itself. `Auth.SignUpError` states the short-password outcome directly in terms of the length.
- Utils.ValidateEmail: white space is JavaScript's `\s` set. Strings are sequences of Unicode characters.
- Utils.ValidatePassword / Auth.SignUpError: lengths count characters. JavaScript's `length` counts UTF-16 code units, so the two differ for characters outside the Basic Multilingual Plane (each counts twice in the source): a password of three such characters passes the source's check and fails the model's.
