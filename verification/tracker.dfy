/** The weekly performance tracker of one child: a sparse set of checked
    (date, category) cells, the toggle that flips one cell, and the counts
    shown in the weekly table. The week is passed in as the reference day
    and the week offset instead of being read from page state. */
module Tracker {
  import opened Calendar

  datatype Category = School | Care | Study | Sleep

  /** The categories in the order the counts visit them. */
  const Categories: seq<Category> := [School, Care, Study, Sleep]

  /** The checked cells; a cell that is absent is unchecked. */
  type Checks = set<(Day, Category)>

  predicate IsChecked(checks: Checks, day: Day, cat: Category)
  {
    (day, cat) in checks
  }

  /** toggleCheck: removes the cell when it is checked, adds it otherwise. */
  function Toggle(checks: Checks, day: Day, cat: Category): (r: Checks)
    ensures IsChecked(r, day, cat) <==> !IsChecked(checks, day, cat)
    ensures forall d, c :: (d, c) != (day, cat) ==> (IsChecked(r, d, c) <==> IsChecked(checks, d, c))
  {
    if (day, cat) in checks then checks - {(day, cat)} else checks + {(day, cat)}
  }

  /** Toggling the same cell twice restores the original cells. */
  lemma ToggleTwice(checks: Checks, day: Day, cat: Category)
    ensures Toggle(Toggle(checks, day, cat), day, cat) == checks
  {
  }

  // ------------------------------------------------------------ per date

  /** Number of the categories `cats` checked on `day`. */
  function CountAmong(checks: Checks, day: Day, cats: seq<Category>): (n: nat)
    ensures n <= |cats|
  {
    if |cats| == 0 then 0
    else (if (day, cats[0]) in checks then 1 else 0) + CountAmong(checks, day, cats[1..])
  }

  /** getCheckCountForDate: the number of categories checked on `day`. */
  function CountForDate(checks: Checks, day: Day): (n: nat)
    ensures n <= 4
  {
    CountAmong(checks, day, Categories)
  }

  /** The count for a day is the sum of its four cells. */
  lemma CountForDateCells(checks: Checks, day: Day)
    ensures CountForDate(checks, day)
         == (if IsChecked(checks, day, School) then 1 else 0)
          + (if IsChecked(checks, day, Care) then 1 else 0)
          + (if IsChecked(checks, day, Study) then 1 else 0)
          + (if IsChecked(checks, day, Sleep) then 1 else 0)
  {
    var cats := [Care, Study, Sleep];
    assert Categories[1..] == cats;
    assert cats[1..] == [Study, Sleep];
    assert [Study, Sleep][1..] == [Sleep];
    assert [Sleep][1..] == [];
    assert CountAmong(checks, day, [Sleep]) == (if IsChecked(checks, day, Sleep) then 1 else 0);
    assert CountAmong(checks, day, [Study, Sleep])
        == (if IsChecked(checks, day, Study) then 1 else 0) + CountAmong(checks, day, [Sleep]);
    assert CountAmong(checks, day, cats)
        == (if IsChecked(checks, day, Care) then 1 else 0) + CountAmong(checks, day, [Study, Sleep]);
  }

  /** A day counts 4 exactly when all its categories are checked, and 0
      exactly when none is. */
  lemma CountForDateExtremes(checks: Checks, day: Day)
    ensures CountForDate(checks, day) == 4 <==> forall c: Category :: IsChecked(checks, day, c)
    ensures CountForDate(checks, day) == 0 <==> forall c: Category :: !IsChecked(checks, day, c)
  {
    CountForDateCells(checks, day);
    if IsChecked(checks, day, School) && IsChecked(checks, day, Care)
       && IsChecked(checks, day, Study) && IsChecked(checks, day, Sleep) {
      forall c: Category
        ensures IsChecked(checks, day, c)
      {
        match c
        case School =>
        case Care =>
        case Study =>
        case Sleep =>
      }
    }
    if !IsChecked(checks, day, School) && !IsChecked(checks, day, Care)
       && !IsChecked(checks, day, Study) && !IsChecked(checks, day, Sleep) {
      forall c: Category
        ensures !IsChecked(checks, day, c)
      {
        match c
        case School =>
        case Care =>
        case Study =>
        case Sleep =>
      }
    }
  }

  /** Toggling a cell moves its day's count by one and no other day's count. */
  lemma ToggleCountForDate(checks: Checks, day: Day, cat: Category, other: Day)
    ensures CountForDate(Toggle(checks, day, cat), day)
         == CountForDate(checks, day) + (if IsChecked(checks, day, cat) then -1 else 1)
    ensures other != day ==> CountForDate(Toggle(checks, day, cat), other) == CountForDate(checks, other)
  {
    var t := Toggle(checks, day, cat);
    CountForDateCells(checks, day);
    CountForDateCells(t, day);
    CountForDateCells(checks, other);
    CountForDateCells(t, other);
  }

  // ------------------------------------------------------------ per window

  /** Number of `days` on which `cat` is checked. */
  function CountDays(checks: Checks, days: seq<Day>, cat: Category): (n: nat)
    ensures n <= |days|
  {
    if |days| == 0 then 0
    else (if (days[0], cat) in checks then 1 else 0) + CountDays(checks, days[1..], cat)
  }

  /** Sum of the per-date counts over `days`. */
  function SumCounts(checks: Checks, days: seq<Day>): (n: nat)
    ensures n <= 4 * |days|
  {
    if |days| == 0 then 0 else CountForDate(checks, days[0]) + SumCounts(checks, days[1..])
  }

  /** getTotalForCategory: on how many days of the window `cat` is checked. */
  function TotalForCategory(checks: Checks, now: Day, offset: int, cat: Category): (n: nat)
    ensures n <= 7
  {
    CountDays(checks, Week(now, offset), cat)
  }

  /** getGrandTotal: the per-date counts summed over the window. */
  function GrandTotal(checks: Checks, now: Day, offset: int): (n: nat)
    ensures n <= 28
  {
    SumCounts(checks, Week(now, offset))
  }

  /** Summing per date equals summing per category. */
  lemma {:induction false} SumCountsByCategory(checks: Checks, days: seq<Day>)
    ensures SumCounts(checks, days)
         == CountDays(checks, days, School) + CountDays(checks, days, Care)
          + CountDays(checks, days, Study) + CountDays(checks, days, Sleep)
  {
    if |days| > 0 {
      SumCountsByCategory(checks, days[1..]);
      CountForDateCells(checks, days[0]);
    }
  }

  /** The grand total is the sum of the four category totals. */
  lemma GrandTotalIsCategorySum(checks: Checks, now: Day, offset: int)
    ensures GrandTotal(checks, now, offset)
         == TotalForCategory(checks, now, offset, School) + TotalForCategory(checks, now, offset, Care)
          + TotalForCategory(checks, now, offset, Study) + TotalForCategory(checks, now, offset, Sleep)
  {
    SumCountsByCategory(checks, Week(now, offset));
  }

  /** The counts over `days` reach their maximum exactly when every cell of
      those days is checked. */
  lemma {:induction false} SumCountsFull(checks: Checks, days: seq<Day>)
    ensures SumCounts(checks, days) == 4 * |days|
        <==> forall i, c: Category :: 0 <= i < |days| ==> IsChecked(checks, days[i], c)
  {
    if |days| > 0 {
      SumCountsFull(checks, days[1..]);
      CountForDateExtremes(checks, days[0]);
      if SumCounts(checks, days) == 4 * |days| {
        forall i, c: Category | 0 <= i < |days|
          ensures IsChecked(checks, days[i], c)
        {
          if i > 0 {
            assert days[i] == days[1..][i - 1];
          }
        }
      }
      if forall i, c: Category :: 0 <= i < |days| ==> IsChecked(checks, days[i], c) {
        forall i, c: Category | 0 <= i < |days| - 1
          ensures IsChecked(checks, days[1..][i], c)
        {
          assert days[1..][i] == days[i + 1];
        }
        assert forall c: Category :: IsChecked(checks, days[0], c);
      }
    }
  }

  /** A week's grand total is 28 exactly when all 28 cells of the window are
      checked; it can never exceed 28. */
  lemma PerfectWeekIffAllChecked(checks: Checks, now: Day, offset: int)
    ensures GrandTotal(checks, now, offset) >= 28
        <==> forall d, c: Category :: d in Week(now, offset) ==> IsChecked(checks, d, c)
  {
    var w := Week(now, offset);
    SumCountsFull(checks, w);
    if forall d, c: Category :: d in w ==> IsChecked(checks, d, c) {
      assert forall i, c: Category :: 0 <= i < |w| ==> IsChecked(checks, w[i], c);
    }
  }

  /** Toggling one cell moves `CountDays` for its category by one when the day
      occurs once in `days`, and leaves the other categories alone. */
  lemma {:induction false} ToggleCountDays(checks: Checks, days: seq<Day>, day: Day, cat: Category, other: Category)
    requires forall i, j :: 0 <= i < j < |days| ==> days[i] != days[j]
    ensures CountDays(Toggle(checks, day, cat), days, cat)
         == CountDays(checks, days, cat) + (if day !in days then 0 else if IsChecked(checks, day, cat) then -1 else 1)
    ensures other != cat ==> CountDays(Toggle(checks, day, cat), days, other) == CountDays(checks, days, other)
  {
    if |days| > 0 {
      ToggleCountDays(checks, days[1..], day, cat, other);
      assert days == [days[0]] + days[1..];
      if days[0] == day {
        assert day !in days[1..];
      }
    }
  }

  /** Toggling a cell of the window moves its category's weekly total by one. */
  lemma ToggleTotal(checks: Checks, now: Day, offset: int, day: Day, cat: Category)
    requires day in Week(now, offset)
    ensures TotalForCategory(Toggle(checks, day, cat), now, offset, cat)
         == TotalForCategory(checks, now, offset, cat) + (if IsChecked(checks, day, cat) then -1 else 1)
  {
    ToggleCountDays(checks, Week(now, offset), day, cat, cat);
  }

  /** Starting from no checks, toggling a window day's Study cell gives a
      Study total of 1, and toggling it again gives 0. */
  lemma ToggleStudyExample(now: Day, offset: int, day: Day)
    requires day in Week(now, offset)
    ensures TotalForCategory(Toggle({}, day, Study), now, offset, Study) == 1
    ensures TotalForCategory(Toggle(Toggle({}, day, Study), day, Study), now, offset, Study) == 0
  {
    ToggleTotal({}, now, offset, day, Study);
    ToggleTotal(Toggle({}, day, Study), now, offset, day, Study);
    EmptyTotal(Week(now, offset), Study);
  }

  /** With no checks, every category count is 0. */
  lemma {:induction false} EmptyTotal(days: seq<Day>, cat: Category)
    ensures CountDays({}, days, cat) == 0
  {
    if |days| > 0 {
      EmptyTotal(days[1..], cat);
    }
  }

  /** With no checks, the summed per-date counts are 0. */
  lemma {:induction false} SumCountsEmpty(days: seq<Day>)
    ensures SumCounts({}, days) == 0
  {
    if |days| > 0 {
      SumCountsEmpty(days[1..]);
      CountForDateCells({}, days[0]);
    }
  }
}
