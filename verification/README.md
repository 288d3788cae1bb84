# Happy Landing: ledger, week window, performance tracker and badges

A Dafny model of the logic behind the family web page in `script.js`. It covers four parts:

- **Ledger** (modules `Records`, `DisplayOrder`, `Ledger`). Each user keeps a list of
  `{date, amount, type}` records.
  - The balance is a left fold that adds `"income"` records and subtracts all others.
  - A record is added from the entry form only after the sign-in, date and amount checks pass.
  - A delete takes a position in the newest-first list. It sorts the records with the same
    stable comparator the list uses, splices that position out, and stores the sorted result
    as the new storage order.
- **Week window** (module `Calendar`). This gives the seven days, Monday to Sunday, of the week
  `offset` weeks away from the week of "now". Dates are integer day numbers, with day 0 =
  1970-01-01, a Thursday. "Now" is a parameter.
- **Performance tracker** (module `Tracker`). Each child has a sparse set of checked
  `(day, category)` cells over the categories school, care, study and sleep. The module has the
  toggle, the per-day count, the per-category weekly total and the weekly grand total. The week
  offset is an explicit parameter, not the page-wide `currentWeekOffset`.
- **Badges** (module `Achievements`). This is the declared list of eleven threshold rules:
  - five rules for each of the two children;
  - one shared rule.

  The list is evaluated in declaration order, for a given week. The page does this once, when
  the performance page loads.

Points where `script.js` behaves differently from what a reader of the page might expect:

- **Delete index.** `deleteRecord` never reports a bad index. It uses the semantics of
  `Array.prototype.splice`:
  - A negative index counts from the end.
  - An index at or past the end removes nothing.

  In both cases it still stores the records in display order (`Ledger.DeletePastEnd`).
- **Record type.** A record's type is any string, not a two-valued enum. Every type other than
  `"income"` subtracts.
- **Date check.** The add check only tests that the date field is non-empty. It does not test
  whether the date parses.

## Model

| member | source | states |
|---|---|---|
| Calendar.Week | script.js:383-401 | the window has exactly 7 days; it starts on a Monday; each day is one after the previous; it contains `now + 7*offset` |
| Calendar.MondayOnOrBefore | script.js:386-387 | the Monday shift (-6 for a Sunday, otherwise 1 - weekday) lands on a Monday at most six days before `now` |
| Calendar.ShiftByWeeks | script.js:391 | adding `7*offset` days keeps the day of the week, for offsets of either sign |
| Calendar.WeekMembership | script.js:394-398 | a day is in the window exactly when it lies between the window's Monday and the Sunday six days later |
| Calendar.NextWeek | script.js:391 | raising the offset by one moves every day of the window forward by exactly 7 days |
| Calendar.SameWeekSameWindow | script.js:385-391 | every day of the current week gives the same window, for every offset |
| Calendar.SameMonday | script.js:387 | two Mondays less than seven days apart are the same day, so the Monday of a week is unique |
| Calendar.WednesdayExample | script.js:383-401 | for a Wednesday, offset 0 runs from two days before to four days after; offset -1 starts 9 days before |
| DisplayOrder.SortDescPermutes | script.js:187 | the newest-first list holds exactly the stored records, counted with multiplicity |
| DisplayOrder.SortDescSorted | script.js:187 | the newest-first list never places an older date before a newer one |
| DisplayOrder.SortDescStable | script.js:187 | for every date, records of that date keep their stored relative order (stable sort) |
| DisplayOrder.SortDescCharacterized | script.js:187 | a list equals the display order iff it is newest first and keeps the stored order within each date |
| DisplayOrder.SortedDeterminedByDates | script.js:187 | two newest-first lists with the same records in the same order for each date are equal |
| DisplayOrder.SortDescOfSorted | script.js:212 | sorting a list that is already newest first returns it unchanged |
| DisplayOrder.InsertOnDate | script.js:187 | inserting a record places it before the records of its own date and leaves other dates unchanged |
| Ledger.BalanceIsIncomeMinusSpending | script.js:147-154 | the folded balance equals total income minus the amounts of all non-"income" records; it is 0 for no records |
| Ledger.BalanceIsSignedSum | script.js:149-153 | the left fold equals the sum of each record's signed amount |
| Ledger.BalancePermutation | script.js:147-154 | two record lists with the same multiset have the same balance |
| Ledger.SumOfPermutation | script.js:149-153 | any per-record sum is the same for every reordering of the records |
| Ledger.AddRecord | script.js:224-254 | adds iff signed in, the date is given and the amount parsed to a positive integer; errors are checked in that order; on success exactly one record `{date, amount, type}` (type defaults to "income") is appended after the unchanged old records |
| Ledger.AddRecordEffect | script.js:251-254 | a successful add keeps every stored amount positive and moves the balance by the new record's signed amount |
| Ledger.SpliceOne | script.js:213 | `splice(i, 1)` removes exactly element `i` for `0 <= i < n`; element `n + i` for `-n <= i < 0`; the first element for `i < -n` on a non-empty list; nothing for `i >= n`; the length drops by one exactly when something is removed |
| Ledger.Displayed | script.js:187 | the displayed list is newest first, is a permutation of the records and is stable within each date |
| Ledger.DeleteRecord | script.js:208-217 | an unconfirmed delete changes nothing; a confirmed delete always stores a newest-first list |
| Ledger.DeleteRemovesDisplayed | script.js:187-217 | deleting an in-range displayed position removes the record shown there; the length drops by one; the multiset loses exactly that record; the others keep their displayed order |
| Ledger.DeleteSplices | script.js:211-213 | a confirmed in-range delete stores the displayed list with that position spliced out |
| Ledger.RemoveKeepsSorted | script.js:212-213 | removing one record from a newest-first list keeps it newest first |
| Ledger.DeleteNegativeIndex | script.js:213 | a negative index in -n..-1 deletes the displayed position n + index |
| Ledger.DeletePastEnd | script.js:211-217 | an index at or past the end deletes nothing but stores the records in display order |
| Ledger.DeleteBalance | script.js:211-220 | deleting a displayed position lowers the balance by exactly that record's signed amount |
| Ledger.DeleteKeepsWellFormed | script.js:211-217 | deleting keeps every stored amount positive |
| Tracker.Toggle | script.js:422-432 | toggling flips the membership of that one cell; every other cell keeps its state |
| Tracker.ToggleTwice | script.js:426-430 | toggling the same cell twice restores the original set of checks |
| Tracker.CountForDate | script.js:437-447 | the per-day count lies in 0..4 |
| Tracker.CountForDateCells | script.js:439-444 | the per-day count is the number of checked cells among the four categories of that day |
| Tracker.CountForDateExtremes | script.js:437-447 | a day counts 4 iff all four categories are checked, and 0 iff none is |
| Tracker.ToggleCountForDate | script.js:422-447 | a toggle moves its own day's count by +1 or -1; no other day's count changes |
| Tracker.TotalForCategory | script.js:450-461 | a category's weekly total lies in 0..7 |
| Tracker.GrandTotal | script.js:464-473 | the weekly grand total lies in 0..28 |
| Tracker.SumCountsByCategory | script.js:450-473 | over any list of days, the sum of the per-day counts equals the sum of the four per-category counts |
| Tracker.GrandTotalIsCategorySum | script.js:450-473 | the grand total equals the sum of the four category totals of the same week |
| Tracker.SumCountsFull | script.js:464-473 | the summed counts reach 4 per day iff every cell of those days is checked |
| Tracker.PerfectWeekIffAllChecked | script.js:464-473 | the grand total is at least 28 iff all 28 cells of the week are checked |
| Tracker.ToggleCountDays | script.js:422-461 | when the days are distinct, toggling a cell moves its category's count by +1 or -1 if its day is listed (else 0); other categories do not change |
| Tracker.ToggleTotal | script.js:422-461 | toggling a cell of the week moves that category's weekly total by +1 or -1 |
| Tracker.ToggleStudyExample | script.js:422-461 | from no checks, toggling a day's study cell gives a study total of 1; toggling it again gives 0 |
| Achievements.KidAchievements | script.js:565-571 | a child's block has five badges: the perfect-week badge first, then one category badge each for school, care, study and sleep, in that order |
| Achievements.Definitions | script.js:563-579 | eleven badges, `combined_star` last; each child's block of five starts with their perfect-week badge, followed by school, care, study and sleep, Evelyn's block before Howie's |
| Achievements.DefinitionsCover | script.js:566-570 | every child has a badge for every category |
| Achievements.Evaluate | script.js:581-589 | one badge per definition, in declaration order, with the same id; each is unlocked iff its rule holds for the given week |
| Achievements.PerfectWeekMeansAllChecked | script.js:566 | a child's perfect-week badge is unlocked iff all 28 cells of that week are checked |
| Achievements.PerfectWeekUnlocksOthers | script.js:566-578 | a perfect week also unlocks each of that child's category badges and the shared badge |
| Achievements.CombinedIffCategoryTotals | script.js:575-578 | the shared badge is unlocked iff the eight category totals of both children (four each) sum to at least 20 |
| Achievements.CategoryGoalsUnlockCombined | script.js:567-578 | a child who unlocks all four category badges (5 days each) alone unlocks the shared badge |
| Achievements.NothingCheckedNoRuleHolds | script.js:563-579 | with no checks for either child, no rule holds |
| Achievements.NothingCheckedNothingUnlocked | script.js:581-589 | with no checks for either child, every evaluated badge is locked |

## Left out

- Storage:
  - Not modelled: `localStorage`/`sessionStorage` and JSON (`getRecords`, `saveRecords`,
    `getPerformanceRecords`, `savePerformanceRecords`).
  - The stored lists and sets are the model's values.
  - Per-user and per-child key names are not modelled.
- The signed-in user and the `confirm()` answer are boolean parameters: they come from the
  session and from a dialog.
- `deleteRecord` called with nobody signed in is not modelled. In that case
  `getCurrentUser().username` throws at script.js:216. Authentication and sessions are outside
  this model.
- Form input parsing is not modelled:
  - `parseInt` on the amount field is a parameter: `None` stands for `NaN`.
  - The date field is an optional day number: `None` stands for the empty string.
  - Date strings that do not parse are not modelled: the date field always yields a valid date
    or nothing.
- JavaScript number precision is not modelled. Amounts and balances are unbounded integers;
  sums past 2^53 would lose precision in the page.
- The time zone mismatch is not modelled. `formatDateISO` uses `toISOString` (UTC) while
  `getDay` uses local time, so away from UTC the stored keys can be a day off from the displayed
  weekday (east of UTC early in the day, west of UTC late in the day). Around a daylight-saving
  change it is worse: `setDate` keeps the local clock time while the key is formed in UTC, so two
  rows of one window can get the same key and another day of the window gets none. A click then
  toggles both rows, and a category total moves by 2. The model's window always has seven distinct
  days, which `Tracker.ToggleCountDays` needs, so it rules this case out. The model uses one day number for both.
- Presentation is not modelled: DOM rendering, `formatDate`, `toLocaleString`, toasts,
  `renderWeekTitle`, `renderKidTable`, and the badge icons and display names. Badge ids and
  rules are kept.
- `changeWeek` and the global `currentWeekOffset` are replaced by an explicit `offset` parameter.
- Achievements.Evaluate: takes any `offset`. The page evaluates the badges only once, in
  `checkLoginForPerformance` when the page loads, with offset 0. `toggleCheck` and `changeWeek`
  redraw the tables but not the badges, so the badges shown can go stale. The model does not
  track which badges are on screen.
- Out of scope because they are separate from the core:
  - the rules page (`addRule`, `deleteRule`, `escapeHtml`);
  - login and registration (`getUsers`, `registerUser`, `doLogin`, `isAdmin`);
  - the whack-a-mole game (timers and `Math.random`).
- Achievements.DefinitionsCover: does not state that the eleven badge ids are pairwise distinct.
  They are, but comparing the literal strings costs more than it shows.
