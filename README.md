# StudentCommonSpace: verified model of the page logic

StudentCommonSpace is a React web application for students who share a flat.
It has a shared-expense ledger, a calendar, a bulletin board, a cleaning
rotation, a shopping list and a registration form. This project models in
Dafny the parts of it that hold logic of their own, and proves what they
promise:

- **Expenses** (`expenses.dfy`). `calculateBalances` folds the expense and
  settlement lists into a net balance per flat member. `getDebts` turns those
  balances into suggested payments with a greedy two-pointer match between
  creditors and debtors. Also modelled: the split-list toggle and the guard of
  the add-expense form. Money is `real`, and the page's 0.01 tolerance is
  `Tolerance`.
- **Validation** (`validation.dfy`): the length limits, `sanitizeText` (trim,
  then slice), `isValidAmount` over the outcome of `parseFloat`,
  `isValidEmail` (the regular expression and a direct matcher proved
  equivalent to it) and `isValidPassword`.
- **Cache** (`cache.dfy`): the time-limited cache in the browser's key/value
  storage. It is a class over a map whose entries are what `JSON.parse` makes
  of the stored text; the clock is a parameter.
- **Api** (`rotation.dfy`): the cleaning rotation's day arithmetic, with
  JavaScript's truncating `%` written out. Also the weekly advance decision,
  and the `addedBy`/`added_by` renaming of shopping-list rows.
- **Calendar** (`calendar.dfy`):
  - the Monday-first month grid, built by two loops;
  - the events shown on a day, compared as `YYYY-MM-DD` text;
  - the realtime INSERT/UPDATE/DELETE reducer;
  - month navigation;
  - the three-event cap of a day cell.
- **Register** (`register.dfy`): the four checks of the registration form, in
  order, and the sign-in that follows. The stored values are the fields of a
  class.
- **BulletinBoard** (`bulletin.dfy`): the board's state as a class whose
  fields are the page's React state. Modelled: the stroke state machine, the
  brush clamp, drag and click flags, list edits, and the text guard.
- **Toast** (`toast.dfy`): the notification queue, with the module-level id
  counter shared by every provider.
- `wrappers.dfy` (`Option`) and `lists.dfy` (filter, insertion sort by a
  real key and their lemmas) are shared helpers.

Calls to the database service, the clock, `Date`, and the browser are
parameters: the caller passes the results in. Where a handler sends a request
and applies the reply later, the model returns the request and has a separate
method for the reply. The bulletin board's two creation replies are modelled as
corrected, appending to the list current when the reply arrives; the page's
handlers, which append to the list captured when the request went out, are
modelled beside them and listed under "## Findings".

## Model

| member | source | states |
|---|---|---|
| Expenses.Zero | CommonSpaceWebsite/src/pages/Expenses.tsx:70-71 | the starting balances have exactly the flat members as keys |
| Expenses.Balance | CommonSpaceWebsite/src/pages/Expenses.tsx:69-91 | when every name in the lists is a member, the result has exactly the members as keys |
| Expenses.CalculateBalances | CommonSpaceWebsite/src/pages/Expenses.tsx:69-91 | the dictionary built by the three in-place loops equals `Balance`: members at zero, then every expense, then every settlement, in list order |
| Expenses.AddExpense | CommonSpaceWebsite/src/pages/Expenses.tsx:74-82 | the inner loop over `split_between` gives `ApplyExpense` of the balances |
| Expenses.AddSettlement | CommonSpaceWebsite/src/pages/Expenses.tsx:85-88 | the settlement callback gives `ApplySettlement` of the balances |
| Expenses.ApplySettlement | CommonSpaceWebsite/src/pages/Expenses.tsx:85-88 | `from_user` gains the amount, `to_user` loses it, everyone else is unchanged, and no key is added |
| Expenses.ExpenseEffect | CommonSpaceWebsite/src/pages/Expenses.tsx:74-82 | one expense moves each balance by the sum of its per-participant charges |
| Expenses.ReceivedShares | CommonSpaceWebsite/src/pages/Expenses.tsx:76-80 | those charges come to a whole number of shares: one gained by the payer per listed non-payer, one lost per listing of anyone else |
| Expenses.ParticipantPaysShare | CommonSpaceWebsite/src/pages/Expenses.tsx:75-79 | with a split list without repeats, a participant other than the payer loses exactly `amount / |split_between|` |
| Expenses.PayerGetsRest | CommonSpaceWebsite/src/pages/Expenses.tsx:75-80 | with a split list without repeats, the payer gains the whole amount, less their own share when they are in the split |
| Expenses.ExpenseLeavesOthers | CommonSpaceWebsite/src/pages/Expenses.tsx:74-82 | someone who neither paid nor is in the split keeps their balance |
| Expenses.SelfSplitIsNeutral | CommonSpaceWebsite/src/pages/Expenses.tsx:77 | an expense split only with its payer changes nothing, because the payer is never charged |
| Expenses.ApplyExpensesKeepsTotal | CommonSpaceWebsite/src/pages/Expenses.tsx:74-82 | folding in expenses keeps the sum of all balances |
| Expenses.ApplySettlementsKeepsTotal | CommonSpaceWebsite/src/pages/Expenses.tsx:85-88 | folding in settlements keeps the sum of all balances |
| Expenses.BalancesSumToZero | CommonSpaceWebsite/src/pages/Expenses.tsx:69-91 | under the all-members condition, the balances sum to zero |
| Expenses.KeyOrder | CommonSpaceWebsite/src/pages/Expenses.tsx:71 | the order `Object.entries` lists the members in: each member exactly once |
| Expenses.CreditorsAndDebtors | CommonSpaceWebsite/src/pages/Expenses.tsx:97-98 | the creditor list holds exactly the people with balance > 0.01, each once, largest first; the debtor list holds exactly those with balance < -0.01, each once, most negative first |
| Expenses.Settle | CommonSpaceWebsite/src/pages/Expenses.tsx:100-113 | every debt runs from a listed debtor to a listed creditor and is at least 0.01; each amount is the smaller of what both still have; nobody is paid or pays more than their balance; when the loop ends, one side is settled to within 0.01; fewer debts than creditors plus debtors; and the debts are exactly `Plan`, the recursive greedy matching from the first creditor and first debtor, which fixes who pays whom and in what order |
| Expenses.Pay | CommonSpaceWebsite/src/pages/Expenses.tsx:102-112 | one loop round: the new debt, the two in-place decrements, and the pointer moves; the loop invariant is kept and at least one pointer advances |
| Expenses.GetDebts | CommonSpaceWebsite/src/pages/Expenses.tsx:93-116 | over the computed balances: debts go from someone below -0.01 to someone above 0.01; amounts follow the greedy rule; nobody is overpaid; one side ends settled; the list is exactly `DebtPlan` of the balances in member order (who pays whom, and in which order); and once the debts are paid and recorded, every member is within 0.01 × the number of members of even |
| Expenses.GreedyStep | CommonSpaceWebsite/src/pages/Expenses.tsx:102-112 | after one round of the loop (the payment and the pointer moves), the matching continued from the new state and the new debt list gives the same debts as from the state before |
| Expenses.DinnerDebts | CommonSpaceWebsite/src/pages/Expenses.tsx:93-116 | A pays 90 split between A, B and C: `getDebts` gives exactly B pays A 30, then C pays A 30 |
| Expenses.DinnerBalances | CommonSpaceWebsite/src/pages/Expenses.tsx:69-91 | the dinner leaves A at +60 and B and C at −30 each |
| Expenses.DinnerPlan | CommonSpaceWebsite/src/pages/Expenses.tsx:93-116 | the debt plan for the dinner's balances, in member order, is B→A 30 then C→A 30 |
| Expenses.AfterPayingEffect | CommonSpaceWebsite/src/pages/Expenses.tsx:85-88 | each balance moves up by what the person paid and down by what they received |
| Expenses.AfterPayingKeepsTotal | CommonSpaceWebsite/src/pages/Expenses.tsx:85-88 | recording the payments keeps the sum of all balances |
| Expenses.PayingEvensOut | CommonSpaceWebsite/src/pages/Expenses.tsx:93-116 | with balances summing to zero, no overpayment and one side settled to 0.01, paying leaves every member within 0.01 × the number of members of even |
| Expenses.DebtsRunBetweenMembers | CommonSpaceWebsite/src/pages/Expenses.tsx:97-106 | anyone within ±0.01 never appears in a debt |
| Expenses.NobodyOverpaid | CommonSpaceWebsite/src/pages/Expenses.tsx:100-113 | the total paid to any member is at most their credit, and the total paid by any member is at most their debt (0 for anyone not in the lists) |
| Expenses.OneSideSettled | CommonSpaceWebsite/src/pages/Expenses.tsx:101-113 | after the loop, every creditor or every debtor is within 0.01 of settled |
| Expenses.ToggleSplitPerson | CommonSpaceWebsite/src/pages/Expenses.tsx:187-193 | a listed person is removed, every occurrence; an absent one is appended; nobody else's count changes |
| Expenses.ToggleTwice | CommonSpaceWebsite/src/pages/Expenses.tsx:187-193 | toggling an absent person twice restores the list; toggling a present person twice moves them to the end |
| Expenses.ToggleKeepsDistinct | CommonSpaceWebsite/src/pages/Expenses.tsx:187-193 | the toggle never creates a repeat |
| Expenses.HandleAddExpense | CommonSpaceWebsite/src/pages/Expenses.tsx:118-134 | an incomplete form leaves the list alone; otherwise the created expense goes to the front and the rest is unchanged |
| Expenses.AddedExpenseSharesAddUp | CommonSpaceWebsite/src/pages/Expenses.tsx:119-122 | an expense the guard admits has participants, so its shares add up to its amount (no division by zero) |
| Validation.Trim | CommonSpaceWebsite/src/utils/validation.ts:23 | `trim` removes exactly the white space at both ends: the result is the middle of the input, and it starts and ends with a non-space character |
| Validation.TrimIdempotent | CommonSpaceWebsite/src/utils/validation.ts:23 | trimming twice equals trimming once |
| Validation.TrimBlank | CommonSpaceWebsite/src/utils/validation.ts:23 | white-space-only text trims to empty |
| Validation.SliceTo | CommonSpaceWebsite/src/utils/validation.ts:23 | `slice(0, end)` keeps a prefix, counts a negative end from the back, and clamps |
| Validation.SanitizeText | CommonSpaceWebsite/src/utils/validation.ts:22-24 | the result is a prefix of the trimmed input, of length min(trimmed length, maxLength) for a non-negative maxLength, and does not start with white space |
| Validation.SanitizeBlank | CommonSpaceWebsite/src/__tests__/validation.test.ts:13-19 | empty or white-space-only input sanitizes to the empty string |
| Validation.IsValidAmount | CommonSpaceWebsite/src/utils/validation.ts:27-30 | true iff the parsed value is a finite number with 0 < value ≤ 999999 |
| Validation.MatchesEmailIsPattern | CommonSpaceWebsite/src/utils/validation.ts:34 | the direct matcher accepts exactly the strings `/^[^\s@]+@[^\s@]+\.[^\s@]+$/` accepts |
| Validation.IsValidEmail | CommonSpaceWebsite/src/utils/validation.ts:33-35 | true iff the pattern holds and the length is ≤ 254 |
| Validation.IsValidPassword | CommonSpaceWebsite/src/utils/validation.ts:38-42 | valid iff 6 ≤ length ≤ 128; a message exactly when invalid; the too-short message wins |
| Validation.SanitizeTrimsExample | CommonSpaceWebsite/src/__tests__/validation.test.ts:5-7 | `'  hello  '` sanitizes to `'hello'` |
| Validation.SanitizeTruncatesExample | CommonSpaceWebsite/src/__tests__/validation.test.ts:9-11 | `'abcdef'` with limit 3 sanitizes to `'abc'` |
| Validation.SanitizeBlankExamples | CommonSpaceWebsite/src/__tests__/validation.test.ts:13-19 | `''` and `'   '` sanitize to `''` |
| Validation.AmountExamples | CommonSpaceWebsite/src/__tests__/validation.test.ts:22-44 | 100 and 0.5 are accepted; 0, -10, NaN and 9999999 are rejected |
| Validation.EmailAcceptedExample | CommonSpaceWebsite/src/__tests__/validation.test.ts:47-49 | `test@example.com` is accepted |
| Validation.EmailRejectedExamples | CommonSpaceWebsite/src/__tests__/validation.test.ts:51-55 | `notanemail`, `@missing.com` and `test@` are rejected |
| Validation.LongEmailRejected | CommonSpaceWebsite/src/__tests__/validation.test.ts:57-60 | 250 characters followed by `@b.com` is rejected |
| Validation.PasswordExamples | CommonSpaceWebsite/src/__tests__/validation.test.ts:64-72 | `abc123` is valid; `abc` is invalid and has a message |
| Cache.Lookup | CommonSpaceWebsite/src/utils/cache.ts:14-32 | an absent or empty key gives null and changes nothing; text that does not parse, a JSON value that is not an object, an entry without an expiry (or with expiry 0) and an expired entry give null and are removed; a live entry gives its value (null if it has none) and changes nothing |
| Cache.ItemCases | CommonSpaceWebsite/src/utils/cache.ts:17-26 | every stored item is exactly one of blank, stale or live |
| Cache.LookupOnlyRemoves | CommonSpaceWebsite/src/utils/cache.ts:14-32 | a read never adds a key or changes a kept entry |
| Cache.Stored | CommonSpaceWebsite/src/utils/cache.ts:34-41 | the entry `{value, now + ttl·60000}` is under the key, and every other key is unchanged |
| Cache.WithoutPrefix | CommonSpaceWebsite/src/utils/cache.ts:47-55 | exactly the keys starting with the prefix are gone; the others keep their entries |
| Cache.LocalCache.Get | CommonSpaceWebsite/src/utils/cache.ts:14-32 | returns and leaves the store as `Lookup` says |
| Cache.LocalCache.Set | CommonSpaceWebsite/src/utils/cache.ts:34-41 | the store becomes `Stored` |
| Cache.LocalCache.Remove | CommonSpaceWebsite/src/utils/cache.ts:43-45 | only the key is deleted |
| Cache.LocalCache.ClearByPrefix | CommonSpaceWebsite/src/utils/cache.ts:47-55 | the loop over a snapshot of the keys leaves `WithoutPrefix` of the old store |
| Cache.LocalCache.ClearAll | CommonSpaceWebsite/src/utils/cache.ts:57-59 | clears exactly the `cache:` keys |
| Cache.SetThenGet | CommonSpaceWebsite/src/utils/cache.ts:21-26 | a stored value is read back until its expiry, when the expiry is not 0 |
| Cache.SetThenExpire | CommonSpaceWebsite/src/utils/cache.ts:21-23 | after the expiry a read gives null and the key is gone |
| Api.DaysPassed | CommonSpaceWebsite/src/services/api.ts:540 | the floored number of whole days: d days ≤ elapsed < d+1 days, also when negative |
| Api.JsRem | CommonSpaceWebsite/src/services/api.ts:541 | JavaScript's `%`: the sign of the dividend, magnitude below the divisor, and the division identity with the truncated quotient |
| Api.DaysRemaining | CommonSpaceWebsite/src/services/api.ts:537-543 | as written, with JavaScript's truncating `%`: 1 to 7 days once the start date has passed, 7 to 13 before it |
| Api.DaysRemainingInWeek | CommonSpaceWebsite/src/services/api.ts:537-543 | once the start date has passed, 1 to 7 days remain, and exactly 7 on a multiple of 7 days |
| Api.DaysRemainingBeforeStart | CommonSpaceWebsite/src/services/api.ts:541 | before the start date the result is 7 to 13, and above 7 unless the days passed are a multiple of 7 |
| Api.DaysRemainingOverflowExample | CommonSpaceWebsite/src/services/api.ts:537-543 | a start date one day ahead shows 8 days remaining |
| Api.DaysRemainingFloored | CommonSpaceWebsite/src/services/api.ts:541 | with a floored remainder the result is always 1 to 7, agrees with the page once the start has passed, and lands on the next multiple of 7 |
| Api.RotationService.AdvanceRotation | CommonSpaceWebsite/src/services/api.ts:514-518 | one request to advance |
| Api.RotationService.CheckAndAdvanceIfNeeded | CommonSpaceWebsite/src/services/api.ts:521-534 | with no state, false and no request; otherwise true exactly when 7 or more days have passed, and one request exactly when true |
| Api.DueAfterAWeek | CommonSpaceWebsite/src/services/api.ts:527-529 | the rotation is due exactly when 7·86400000 ms have passed |
| Api.FromRow | CommonSpaceWebsite/src/services/api.ts:144-150 | each field is copied, and `added_by` becomes `addedBy` |
| Api.CreatePayload | CommonSpaceWebsite/src/services/api.ts:153-165 | no payload without a flat code; otherwise the four fields, with `addedBy` as `added_by`, and the flat code |
| Api.UpdatePayloadOf | CommonSpaceWebsite/src/services/api.ts:182-187 | exactly the four editable fields, with `addedBy` as `added_by`; no id |
| Api.CreateRoundTrip | CommonSpaceWebsite/src/services/api.ts:153-176 | creating an item and mapping the stored row back gives the item with its new id |
| Api.UpdateRoundTrip | CommonSpaceWebsite/src/services/api.ts:179-188 | updating a row and reading it back gives the edited item under the row's own id |
| Calendar.DaysInMonth | CommonSpaceWebsite/src/pages/Calendar.tsx:68-69 | 28 to 31 days: 28 exactly for February outside leap years, 29 in leap years, 30 exactly for April, June, September and November |
| Calendar.YearLength | CommonSpaceWebsite/src/pages/Calendar.tsx:68-69 | the months add up to 365 days, or 366 in a leap year |
| Calendar.MondayOffset | CommonSpaceWebsite/src/pages/Calendar.tsx:72-73 | the offset is in 0..6 and is the weekday's column in a Monday-first week |
| Calendar.MondayOffsetInjective | CommonSpaceWebsite/src/pages/Calendar.tsx:72-73 | different weekdays get different columns |
| Calendar.GetDaysInMonth | CommonSpaceWebsite/src/pages/Calendar.tsx:64-88 | offset + days-in-month entries; the first offset are empty; then days 1, 2, … of that month in order |
| Calendar.GridShowsEachDayOnce | CommonSpaceWebsite/src/pages/Calendar.tsx:78-85 | each day of the month appears in exactly one cell |
| Calendar.DatePart | CommonSpaceWebsite/src/pages/Calendar.tsx:93-94 | `split('T')[0]`: the longest prefix without a `T` |
| Calendar.TextAtMostTransitive | CommonSpaceWebsite/src/pages/Calendar.tsx:95 | string `<=` is transitive |
| Calendar.TextAtMostAntisymmetric | CommonSpaceWebsite/src/pages/Calendar.tsx:95 | string `<=` both ways means equal |
| Calendar.TextAtMostTotal | CommonSpaceWebsite/src/pages/Calendar.tsx:95 | any two strings compare one way or the other |
| Calendar.TextAtMostReflexive | CommonSpaceWebsite/src/pages/Calendar.tsx:95 | every string is `<=` itself |
| Calendar.TextOrderIsNumberOrder | CommonSpaceWebsite/src/pages/Calendar.tsx:95 | for texts with digits in the same places and the same other characters, string order is the order of the numbers their digits spell |
| Calendar.DayTextOrder | CommonSpaceWebsite/src/pages/Calendar.tsx:95 | comparing `YYYY-MM-DD` texts as strings compares the dates |
| Calendar.EventsForDate | CommonSpaceWebsite/src/pages/Calendar.tsx:90-97 | only events that start on or before the day and end on or after it are kept |
| Calendar.EventsForDateExact | CommonSpaceWebsite/src/pages/Calendar.tsx:90-97 | an event is kept, as often as listed, iff it covers the day |
| Calendar.OneDayEvent | CommonSpaceWebsite/src/pages/Calendar.tsx:94 | an event without an end date shows on its start day and no other |
| Calendar.CoveredDaysAreContiguous | CommonSpaceWebsite/src/pages/Calendar.tsx:90-97 | an event shown on two days is shown on every day between them |
| Calendar.UncoveredDayOutside | CommonSpaceWebsite/src/pages/Calendar.tsx:90-97 | an event is not shown on a day iff the day is strictly before its start day or strictly after its end day |
| Calendar.InsertEvent | CommonSpaceWebsite/src/pages/Calendar.tsx:36-39 | INSERT gives the old events plus the row, sorted by start time |
| Calendar.UpdateEvent | CommonSpaceWebsite/src/pages/Calendar.tsx:40-41 | UPDATE replaces exactly the events with the row's id, in place |
| Calendar.DeleteEvent | CommonSpaceWebsite/src/pages/Calendar.tsx:42-43 | DELETE keeps only events from the list with another id |
| Calendar.Apply | CommonSpaceWebsite/src/pages/Calendar.tsx:35-44 | the realtime dispatch on the event type: afterwards every event was listed before or is the message's row; INSERT adds the row once to the multiset, UPDATE keeps the length, and after DELETE no event has the row's id |
| Calendar.DeleteKeepsOthers | CommonSpaceWebsite/src/pages/Calendar.tsx:42-43 | DELETE removes every event with the id and keeps every other as often as listed |
| Calendar.UpdateUnknownId | CommonSpaceWebsite/src/pages/Calendar.tsx:40-41 | an UPDATE for an unknown id changes nothing |
| Calendar.UpdateIdempotent | CommonSpaceWebsite/src/pages/Calendar.tsx:40-41 | repeating an UPDATE changes nothing more |
| Calendar.InsertThenDelete | CommonSpaceWebsite/src/pages/Calendar.tsx:36-44 | INSERT of a new id then DELETE of it gives back the same events |
| Calendar.FirstOf | CommonSpaceWebsite/src/pages/Calendar.tsx:169 | `new Date(y, m, 1)` carries a month outside 0..11 into the year and keeps the running month number |
| Calendar.NextMonth | CommonSpaceWebsite/src/pages/Calendar.tsx:172-174 | day 1 of the following month |
| Calendar.PrevMonth | CommonSpaceWebsite/src/pages/Calendar.tsx:168-170 | day 1 of the previous month |
| Calendar.NextThenPrev | CommonSpaceWebsite/src/pages/Calendar.tsx:168-174 | next then previous, or previous then next, lands on day 1 of the original month |
| Calendar.YearRollover | CommonSpaceWebsite/src/pages/Calendar.tsx:168-174 | December goes on to January of the next year, and January back to December of the one before |
| Calendar.CellFor | CommonSpaceWebsite/src/pages/Calendar.tsx:256-271 | the first min(count, 3) events, and "+N mer" with N = count − 3 exactly when there are more than 3 |
| Register.RegisterError | CommonSpaceWebsite/src/pages/Register.tsx:25-48 | each message is given exactly when its check is the first to fail, in the order empty, mismatch, too short, taken; no message iff all pass |
| Register.RegisterPage.HandleRegister | CommonSpaceWebsite/src/pages/Register.tsx:21-73 | on failure only the message changes; on success exactly one user with an empty quote is appended, and the user is signed in with dark-theme settings and sent to `/profile` |
| Register.RegisterKeepsNamesUnique | CommonSpaceWebsite/src/pages/Register.tsx:44-58 | a successful registration keeps usernames unique |
| Register.SecondRegistrationRefused | CommonSpaceWebsite/src/pages/Register.tsx:44-48 | registering the same name again is refused as taken |
| BulletinBoard.BrushDown | CommonSpaceWebsite/src/pages/BulletinBoard.tsx:425 | one smaller, but never below 1 |
| BulletinBoard.BrushUp | CommonSpaceWebsite/src/pages/BulletinBoard.tsx:432 | one larger, but never above 20 |
| BulletinBoard.BrushStaysInRange | CommonSpaceWebsite/src/pages/BulletinBoard.tsx:425-432 | any sequence of − and + clicks keeps the size in 1..20 |
| BulletinBoard.UpsThenDowns | CommonSpaceWebsite/src/pages/BulletinBoard.tsx:425-432 | away from the bounds, u clicks on + then d on − change the size by u − d |
| BulletinBoard.MovePostIts | CommonSpaceWebsite/src/pages/BulletinBoard.tsx:301-304 | only post-its with the id move; nothing else changes |
| BulletinBoard.MoveTexts | CommonSpaceWebsite/src/pages/BulletinBoard.tsx:305-308 | only text items with the id move; nothing else changes |
| BulletinBoard.DragMovesOnlyTarget | CommonSpaceWebsite/src/pages/BulletinBoard.tsx:301-304 | a dragged post-it takes the new position and keeps its id, text and colour; the others stay where they were |
| BulletinBoard.FindPostIt | CommonSpaceWebsite/src/pages/BulletinBoard.tsx:255 | `find`: nothing iff no post-it has the id, else the first one that has it |
| BulletinBoard.FindText | CommonSpaceWebsite/src/pages/BulletinBoard.tsx:323 | nothing iff no text item has the id, else the first one that has it |
| BulletinBoard.ReplacePostIts | CommonSpaceWebsite/src/pages/BulletinBoard.tsx:261 | the post-its with the id are replaced in place; the others stay |
| BulletinBoard.UpdateChangesOnlyText | CommonSpaceWebsite/src/pages/BulletinBoard.tsx:254-263 | with unique ids, updating changes only the text of the matching post-it |
| BulletinBoard.RemovePostIt | CommonSpaceWebsite/src/pages/BulletinBoard.tsx:269 | what remains comes from the list and does not have the id |
| BulletinBoard.RemovePostItKeepsOthers | CommonSpaceWebsite/src/pages/BulletinBoard.tsx:265-270 | exactly the post-its with the id are removed |
| BulletinBoard.RemoveDrawing | CommonSpaceWebsite/src/pages/BulletinBoard.tsx:276 | what remains comes from the list and does not have the id |
| BulletinBoard.RemoveDrawingKeepsOthers | CommonSpaceWebsite/src/pages/BulletinBoard.tsx:272-277 | exactly the drawings with the id are removed |
| BulletinBoard.RemoveText | CommonSpaceWebsite/src/pages/BulletinBoard.tsx:283 | what remains comes from the list and does not have the id |
| BulletinBoard.RemoveTextKeepsOthers | CommonSpaceWebsite/src/pages/BulletinBoard.tsx:279-284 | exactly the text items with the id are removed |
| BulletinBoard.FromTextRow | CommonSpaceWebsite/src/pages/BulletinBoard.tsx:238-245 | each field is copied, and `font_size` becomes `fontSize` |
| BulletinBoard.PostItReplyAsWritten | CommonSpaceWebsite/src/pages/BulletinBoard.tsx:217-218 | as written: the created post-it is appended to the list captured at the click, whatever the list is when the reply arrives |
| BulletinBoard.PostItReply | CommonSpaceWebsite/src/pages/BulletinBoard.tsx:217-218 | corrected: the created post-it is appended to the current list, which is otherwise kept |
| BulletinBoard.DeletedPostItStaysDeleted | CommonSpaceWebsite/src/pages/BulletinBoard.tsx:217-218 | corrected: a post-it deleted while a creation request is out does not come back with the reply |
| BulletinBoard.QuickPostItsLoseOne | CommonSpaceWebsite/src/pages/BulletinBoard.tsx:217-218 | with the list captured at click time, the second of two quick replies drops the first post-it |
| BulletinBoard.RepliesKeepAll | CommonSpaceWebsite/src/pages/BulletinBoard.tsx:217-218 | corrected: appending to the current list keeps every created post-it, in order |
| BulletinBoard.TextReplyAsWritten | CommonSpaceWebsite/src/pages/BulletinBoard.tsx:237-245 | as written: the created row, renamed, is appended to the text items captured when `addText` ran |
| BulletinBoard.TextReply | CommonSpaceWebsite/src/pages/BulletinBoard.tsx:237-245 | corrected: the created row, renamed, is appended to the current text items, which are otherwise kept |
| BulletinBoard.DeletedTextReturns | CommonSpaceWebsite/src/pages/BulletinBoard.tsx:237-245 | a text item deleted before the reply arrives is back in the list as written, and stays gone with the corrected reply |
| BulletinBoard.DeletedTextStaysDeleted | CommonSpaceWebsite/src/pages/BulletinBoard.tsx:237-245 | corrected: a text item deleted while a creation request is out does not come back with the reply |
| BulletinBoard.Board.constructor | CommonSpaceWebsite/src/pages/BulletinBoard.tsx:35-47 | the initial state: no tool, colour `#FFD700`, brush 3, not drawing, no drag |
| BulletinBoard.Board.SelectTool | CommonSpaceWebsite/src/pages/BulletinBoard.tsx:377-440 | only the tool changes: the method may modify no other field |
| BulletinBoard.Board.BrushSmaller | CommonSpaceWebsite/src/pages/BulletinBoard.tsx:425 | the size becomes `BrushDown` of the old size |
| BulletinBoard.Board.BrushLarger | CommonSpaceWebsite/src/pages/BulletinBoard.tsx:432 | the size becomes `BrushUp` of the old size |
| BulletinBoard.Board.CanvasMouseDown | CommonSpaceWebsite/src/pages/BulletinBoard.tsx:133-147 | with the draw tool a one-point stroke starts; otherwise nothing changes |
| BulletinBoard.Board.CanvasMouseMove | CommonSpaceWebsite/src/pages/BulletinBoard.tsx:149-163 | the point is appended only while drawing with the draw tool |
| BulletinBoard.Board.CanvasMouseUp | CommonSpaceWebsite/src/pages/BulletinBoard.tsx:165-198 | the stroke always ends with an empty path; one drawing of one path, in the current colour and size, is added exactly when a stroke of at least 2 points was drawn |
| BulletinBoard.Board.BoardClick | CommonSpaceWebsite/src/pages/BulletinBoard.tsx:200-226 | a click right after a drag is swallowed and clears the flag; otherwise the post-it tool requests a post-it "Ny anteckning", the text tool opens the input at the point, and no tool does nothing |
| BulletinBoard.Board.PostItCreated | CommonSpaceWebsite/src/pages/BulletinBoard.tsx:217-218 | the corrected reply of the second Findings row: the created post-it is appended to the list as it is when the reply arrives, not to the list captured at the click |
| BulletinBoard.Board.SelectColor | CommonSpaceWebsite/src/pages/BulletinBoard.tsx:413 | a colour of the palette at BulletinBoard.tsx:341-357 becomes the colour of new post-its and strokes; nothing else changes, and the colour stays one of the palette's |
| BulletinBoard.Board.CancelText | CommonSpaceWebsite/src/pages/BulletinBoard.tsx:586-588 | the text input closes and the typed text is cleared; nothing else changes |
| BulletinBoard.Board.SetText | CommonSpaceWebsite/src/pages/BulletinBoard.tsx:43 | the text being typed is set |
| BulletinBoard.Board.AddText | CommonSpaceWebsite/src/pages/BulletinBoard.tsx:228-252 | no request and no change iff the text is blank after trimming; otherwise a request at the text position (size 20, black) and the input closes and clears |
| BulletinBoard.Board.TextCreated | CommonSpaceWebsite/src/pages/BulletinBoard.tsx:237-245 | the corrected reply of the third Findings row: the created row, renamed, is appended to the text items as they are when the reply arrives, not to those captured when `addText` ran |
| BulletinBoard.Board.UpdatePostIt | CommonSpaceWebsite/src/pages/BulletinBoard.tsx:254-263 | the list becomes the text update of the matching post-it; a request is sent iff one matches, and it is the first matching post-it with only its text replaced |
| BulletinBoard.Board.DeletePostIt | CommonSpaceWebsite/src/pages/BulletinBoard.tsx:265-270 | the post-its with the id are removed |
| BulletinBoard.Board.DeleteDrawing | CommonSpaceWebsite/src/pages/BulletinBoard.tsx:272-277 | the drawings with the id are removed |
| BulletinBoard.Board.DeleteText | CommonSpaceWebsite/src/pages/BulletinBoard.tsx:279-284 | the text items with the id are removed |
| BulletinBoard.Board.ItemMouseDown | CommonSpaceWebsite/src/pages/BulletinBoard.tsx:286-291 | the drag starts with the pointer's offset from the item |
| BulletinBoard.Board.BoardMouseMove | CommonSpaceWebsite/src/pages/BulletinBoard.tsx:293-310 | without a drag nothing changes; during one, the flag is set and only the dragged item moves, to pointer minus offset |
| BulletinBoard.Board.BoardMouseUp | CommonSpaceWebsite/src/pages/BulletinBoard.tsx:312-339 | the drag ends; the dragged item, when found, is the one saved |
| BulletinBoard.BlankWhenTrimmedEmpty | CommonSpaceWebsite/src/pages/BulletinBoard.tsx:229 | text that trims to empty is all white space |
| Toast.Removed | CommonSpaceWebsite/src/components/Toast.tsx:66-68 | only toasts from the list with another id remain; with an unknown id the list is unchanged |
| Toast.RemovedExactly | CommonSpaceWebsite/src/components/Toast.tsx:67 | exactly the toasts with the id leave, and the others stay as often as listed |
| Toast.RemovedKeepsOrder | CommonSpaceWebsite/src/components/Toast.tsx:67 | increasing ids stay increasing after a removal |
| Toast.ShowThenRemove | CommonSpaceWebsite/src/components/Toast.tsx:66-73 | showing a toast and removing it restores the list |
| Toast.IdCounter.constructor | CommonSpaceWebsite/src/components/Toast.tsx:17 | the counter starts at 0 |
| Toast.ToastProvider.constructor | CommonSpaceWebsite/src/components/Toast.tsx:63-64 | an empty list over the shared counter |
| Toast.ToastProvider.ShowToast | CommonSpaceWebsite/src/components/Toast.tsx:70-73 | the new toast takes the counter's value, which goes up by one; exactly one toast, `info` by default, is appended; ids stay increasing and unique |
| Toast.ToastProvider.RemoveToast | CommonSpaceWebsite/src/components/Toast.tsx:66-68 | the list becomes `Removed`, and ids stay increasing |

## Left out

- Database and network calls are out of scope: the services' CRUD, the realtime channel, the
  authentication context and the member query of the expense page. Their results are
  inputs, and the model returns the requests a handler would send.
- IEEE-754 arithmetic is out of scope. Money and coordinates are exact `real`s, and
  `parseFloat` is an abstract `Parsed` outcome (NaN, a finite value or an infinity).
  `toFixed` display and canvas coordinate scaling are left out, and so is the canvas null
  check.
- `Date`, time zones and `toISOString` are out of scope. The weekday of the first of the
  month, the day texts, the start-time conversion used for sorting and the current time
  are parameters.
- Expenses.Balance: names outside the member list are excluded by a precondition. In the
  page such a name turns a balance into NaN. The member-only selectors of the form
  guarantee the condition.
- Expenses.Settle: the page's `[name, amount]` pairs, updated in place, are modelled as two
  `seq<real>` values that the loop reassigns, not as aliased arrays.
- Expenses.Settle: the creditors and debtors are sorted by a stable insertion sort, as the
  page's `sort` is, so equal balances keep the member order. `Settle` and `GetDebts` are
  proved equal to the recursive matching over these sorted lists, so the order of equal
  balances is pinned; no separate lemma states stability.
- Expenses.ParticipantPaysShare: proved for split lists without repeats, which the toggle
  keeps. Repeats are counted per occurrence by `ReceivedShares`.
- Expenses.HandleAddExpense: the `created` record from the server is a parameter (its id),
  and the `alert` on failure is left out.
- The settlement form (`handleSettlement`) and expense deletion are not modelled. Their only
  logic is an emptiness guard and an append or filter-by-id around a network call.
- Validation.IsValidPassword, Validation.IsValidEmail, Validation.SliceTo,
  Validation.SanitizeText and Register.RegisterError count lengths per code point, while
  JavaScript's `length` and `slice` count UTF-16 code units. For text with characters
  beyond U+FFFF the limits differ: "😀😀😀" has length 6 in the page, so it passes the
  6-character password minimum, but length 3 in the model. The page's `slice` can also
  split a surrogate pair, which the model cannot. Trimming agrees, since every white-space
  character is a single code unit.
- Cache.SetThenGet: the model stores the value itself, so it assumes the value survives
  `JSON.stringify` and `JSON.parse`. In the page, `undefined`, NaN and Infinity come back as
  null, and a `Date` comes back as a string.
- Cache.Lookup: stored expiries are assumed to be numbers. An entry such as
  `{"value":1,"expiresAt":"x"}` is returned as 1 forever in the page, because
  `Date.now() > "x"` is false (cache.ts:21); the model has no such entry.
- `debounce` is left out because it is a timer.
- Cache: exceptions thrown by the storage or by `JSON.stringify` are left out. `JSON.parse`
  of the stored text is given as its outcome, an `Item`.
- Calendar: the undeclared `setSelectedDate` and the service object the page imports but
  the data service does not define are left out. Calendar.InsertEvent states sortedness
  and the multiset, not stability.
- BulletinBoard: `drawCanvas` rendering, the drawing's save request and `Date.now()` ids
  are left out. The id is a parameter of `CanvasMouseUp`.
- Toast: the auto-dismiss timers are left out, and so is the 2^53 limit of the counter.
- Register: `JSON.parse` of the stored user list is assumed to succeed. The list is a field.
- Rendering, routing, the theme, and the chat, profile, task and shopping screens are not
  modelled. They only append or filter around storage or network calls.

## Findings

| source | as-written | input that shows it | evidently intended | confidence | as-written member | corrected member |
|---|---|---|---|---|---|---|
| CommonSpaceWebsite/src/services/api.ts:541 | `7 - (daysPassed % 7)` with JavaScript's truncating `%` | a rotation start date one day in the future: daysPassed = -1, so 8 days remain | a value in 1..7 days | not executed | Api.DaysRemaining, shown by Api.DaysRemainingOverflowExample | Api.DaysRemainingFloored |
| CommonSpaceWebsite/src/pages/BulletinBoard.tsx:217-218 | the reply handler sets `[...postIts, created]` from the list captured when the board was clicked | two post-its created by two clicks before either reply arrives: the second reply overwrites the first | each created post-it is appended to the current list | not executed | BulletinBoard.PostItReplyAsWritten, shown by BulletinBoard.QuickPostItsLoseOne | BulletinBoard.PostItReply, with BulletinBoard.RepliesKeepAll and BulletinBoard.DeletedPostItStaysDeleted |
| CommonSpaceWebsite/src/pages/BulletinBoard.tsx:237-245 | the reply handler sets `[...textItems, …]` from the list captured when `addText` ran | text items `[A]` when the text is added, then A deleted before the reply arrives: the reply puts A back | the created item is appended to the current list | not executed | BulletinBoard.TextReplyAsWritten, shown by BulletinBoard.DeletedTextReturns | BulletinBoard.TextReply, with BulletinBoard.DeletedTextStaysDeleted |
