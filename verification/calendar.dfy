/** Calendar days and the Monday-aligned seven-day window shown by the
    weekly performance page. A date is an integer day number, so crossing a
    month or year boundary is plain addition. */
module Calendar {

  /** Days since 1970-01-01 (negative before it). */
  type Day = int

  /** Day of the week, numbered as `Date.prototype.getDay` numbers it. */
  const Sunday: int := 0
  const Monday: int := 1
  const Wednesday: int := 3
  const Saturday: int := 6

  /** 1970-01-01 was a Thursday (day of week 4). */
  function DayOfWeek(d: Day): (w: int)
    ensures Sunday <= w <= Saturday
  {
    (d + 4) % 7
  }

  /** The number of days to add to a day of week `dow` to reach the Monday on
      or before it: a Sunday belongs to the week that started six days earlier. */
  function MondayShift(dow: int): int
  {
    if dow == Sunday then -6 else 1 - dow
  }

  /** First day (a Monday) of the window `offset` weeks away from the week of `now`. */
  function WeekStart(now: Day, offset: int): Day
  {
    now + MondayShift(DayOfWeek(now)) + offset * 7
  }

  /** The seven days of the window, Monday first. */
  function Week(now: Day, offset: int): (days: seq<Day>)
    ensures |days| == 7
    ensures DayOfWeek(days[0]) == Monday
    ensures forall i :: 0 <= i < 7 ==> days[i] == days[0] + i
    ensures days[0] <= now + 7 * offset <= days[6]
  {
    MondayOnOrBefore(now);
    ShiftByWeeks(now + MondayShift(DayOfWeek(now)), offset);
    seq(7, i => WeekStart(now, offset) + i)
  }

  /** Adding whole weeks does not change the day of the week. */
  lemma {:induction false} ShiftByWeeks(d: Day, k: int)
    ensures DayOfWeek(d + 7 * k) == DayOfWeek(d)
    decreases if k < 0 then -k else k
  {
    if k > 0 {
      ShiftByWeeks(d, k - 1);
      assert d + 7 * k == (d + 7 * (k - 1)) + 7;
    } else if k < 0 {
      ShiftByWeeks(d, k + 1);
      assert d + 7 * (k + 1) == (d + 7 * k) + 7;
    }
  }

  /** The shift lands on a Monday at most six days back. */
  lemma MondayOnOrBefore(now: Day)
    ensures DayOfWeek(now + MondayShift(DayOfWeek(now))) == Monday
    ensures now - 6 <= now + MondayShift(DayOfWeek(now)) <= now
  {
  }

  /** A day lies in the window exactly when it is between its Monday and its Sunday. */
  lemma WeekMembership(now: Day, offset: int, d: Day)
    ensures d in Week(now, offset) <==> Week(now, offset)[0] <= d <= Week(now, offset)[0] + 6
  {
    var w := Week(now, offset);
    if w[0] <= d <= w[0] + 6 {
      assert w[d - w[0]] == d;
    }
  }

  /** Moving one week forward moves every day of the window by exactly seven. */
  lemma NextWeek(now: Day, offset: int)
    ensures forall i :: 0 <= i < 7 ==> Week(now, offset + 1)[i] == Week(now, offset)[i] + 7
  {
  }

  /** The window does not depend on which day of its week `now` is: any day of
      the current window gives the same window for every offset. */
  lemma {:induction false} SameWeekSameWindow(now: Day, other: Day, offset: int)
    requires other in Week(now, 0)
    ensures Week(other, offset) == Week(now, offset)
  {
    var m := Week(now, 0)[0];
    WeekMembership(now, 0, other);
    MondayOnOrBefore(other);
    var m' := other + MondayShift(DayOfWeek(other));
    if m <= m' {
      SameMonday(m, m');
    } else {
      SameMonday(m', m);
    }
    assert WeekStart(other, offset) == WeekStart(now, offset);
  }

  /** Two Mondays less than a week apart are the same day. */
  lemma SameMonday(a: Day, b: Day)
    requires DayOfWeek(a) == Monday && DayOfWeek(b) == Monday
    requires a <= b < a + 7
    ensures a == b
  {
  }

  /** A Wednesday's window starts on the Monday two days before and ends on
      the Sunday after; the previous window starts exactly seven days earlier. */
  lemma WednesdayExample(now: Day)
    requires DayOfWeek(now) == Wednesday
    ensures Week(now, 0)[0] == now - 2
    ensures Week(now, 0)[6] == now + 4
    ensures Week(now, -1)[0] == now - 9
  {
  }
}
