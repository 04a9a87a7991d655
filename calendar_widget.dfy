/**
 * The date picker of the front end (`CalendarWidget` in main.py and
 * gui.py): the displayed month with its year wrap, the rule that greys out
 * day buttons, and the date the user picked.
 */
module Calendar {
  import opened Wrappers
  import opened DateCodec

  /** The month shown before `(year, month)`: January steps back to December of the year before. */
  function MonthBefore(year: int, month: int): (int, int) {
    if month - 1 < 1 then (year - 1, 12) else (year, month - 1)
  }

  /** The month shown after `(year, month)`: December steps on to January of the year after. */
  function MonthAfter(year: int, month: int): (int, int) {
    if month + 1 > 12 then (year + 1, 1) else (year, month + 1)
  }

  /** Months counted from January of year 0: the time line the two buttons walk along. */
  function MonthIndex(year: int, month: int): int {
    year * 12 + month - 1
  }

  /** A month index names exactly one (year, month) pair with the month in 1..12. */
  lemma MonthIndexDecodes(year: int, month: int)
    requires 1 <= month <= 12
    ensures MonthIndex(year, month) / 12 == year
    ensures MonthIndex(year, month) % 12 == month - 1
  {
    var i := MonthIndex(year, month);
    assert i == 12 * year + (month - 1);
    assert 0 <= month - 1 < 12;
  }

  lemma MonthIndexInjective(y1: int, m1: int, y2: int, m2: int)
    requires 1 <= m1 <= 12 && 1 <= m2 <= 12
    requires MonthIndex(y1, m1) == MonthIndex(y2, m2)
    ensures y1 == y2 && m1 == m2
  {
    MonthIndexDecodes(y1, m1);
    MonthIndexDecodes(y2, m2);
  }

  /** `<` moves exactly one month back on the time line and keeps the month in 1..12. */
  lemma MonthBeforeSpec(year: int, month: int)
    requires 1 <= month <= 12
    ensures var (y, m) := MonthBefore(year, month);
      && 1 <= m <= 12
      && MonthIndex(y, m) == MonthIndex(year, month) - 1
      && (month == 1 <==> (y, m) == (year - 1, 12))
  {
  }

  /** `>` moves exactly one month on along the time line and keeps the month in 1..12. */
  lemma MonthAfterSpec(year: int, month: int)
    requires 1 <= month <= 12
    ensures var (y, m) := MonthAfter(year, month);
      && 1 <= m <= 12
      && MonthIndex(y, m) == MonthIndex(year, month) + 1
      && (month == 12 <==> (y, m) == (year + 1, 1))
  {
  }

  /** The two buttons undo each other. */
  lemma MonthStepsInverse(year: int, month: int)
    requires 1 <= month <= 12
    ensures MonthAfter(MonthBefore(year, month).0, MonthBefore(year, month).1) == (year, month)
    ensures MonthBefore(MonthAfter(year, month).0, MonthAfter(year, month).1) == (year, month)
  {
    var (py, pm) := MonthBefore(year, month);
    var (ny, nm) := MonthAfter(year, month);
    MonthBeforeSpec(year, month);
    MonthAfterSpec(year, month);
    MonthAfterSpec(py, pm);
    MonthBeforeSpec(ny, nm);
    MonthIndexInjective(MonthAfter(py, pm).0, MonthAfter(py, pm).1, year, month);
    MonthIndexInjective(MonthBefore(ny, nm).0, MonthBefore(ny, nm).1, year, month);
  }

  /**
   * Whether the button of `date`, drawn in weekday column `column` (Monday
   * is 0), is disabled at clock reading `now`: on a Saturday or Sunday, or
   * when the date's midnight lies after `now`.
   */
  predicate DayDisabled(column: int, date: Date, now: Timestamp)
    requires ValidDate(date) && ValidDate(now.date)
  {
    column >= 5 || Micros(Midnight(date)) > Micros(now)
  }

  /**
   * A day is disabled exactly when it falls on a weekend column or on a
   * later calendar day than today's; today itself stays enabled at every
   * time of day.
   */
  lemma DayDisabledSpec(column: int, date: Date, now: Timestamp)
    requires ValidDate(date) && ValidTimestamp(now)
    ensures DayDisabled(column, date, now) <==> column >= 5 || Ordinal(date) > Ordinal(now.date)
    ensures DayDisabled(column, date, now) <==> column >= 5 || DateBefore(now.date, date)
  {
    var day := 86_400_000_000;
    var a, b := Ordinal(date), Ordinal(now.date);
    assert Micros(Midnight(date)) == a * day;
    assert Micros(now) == b * day + now.micros;
    if a > b {
      assert a * day >= (b + 1) * day;
    } else {
      assert a * day <= b * day;
    }
    if DateBefore(now.date, date) {
      OrdinalMonotone(now.date, date);
    } else if DateBefore(date, now.date) {
      OrdinalMonotone(date, now.date);
    } else {
      assert date == now.date;
    }
  }

  /** Any date the user can click is at most as new as today, so its age in days is not negative. */
  lemma EnabledDayIsPast(column: int, date: Date, now: Timestamp)
    requires ValidDate(date) && ValidTimestamp(now)
    requires !DayDisabled(column, date, now)
    ensures column < 5 && 0 <= AgeDays(date, now)
  {
    DayDisabledSpec(column, date, now);
    AgeDaysIsDayDifference(date, now);
  }

  /** The widget's state: the month on display and the date last clicked. */
  class CalendarWidget {
    var year: int
    var month: int
    var selectedDate: Option<Date>

    /** The month shown is a real month, and a selected date is one `datetime` can hold. */
    predicate Valid()
      reads this
    {
      && 1 <= month <= 12
      && (selectedDate.Some? ==> ValidDate(selectedDate.value))
    }

    /** The widget opens on the current month with nothing selected. */
    constructor (now: Timestamp)
      requires ValidTimestamp(now)
      ensures Valid()
      ensures year == now.date.year && month == now.date.month && selectedDate == None
    {
      year := now.date.year;
      month := now.date.month;
      selectedDate := None;
    }

    /** `_previous_month`. */
    method PreviousMonth()
      modifies this
      ensures (year, month) == MonthBefore(old(year), old(month))
      ensures selectedDate == old(selectedDate)
      ensures old(Valid()) ==> Valid() && MonthIndex(year, month) == MonthIndex(old(year), old(month)) - 1
    {
      month := month - 1;
      if month < 1 {
        month := 12;
        year := year - 1;
      }
    }

    /** `_next_month`. */
    method NextMonth()
      modifies this
      ensures (year, month) == MonthAfter(old(year), old(month))
      ensures selectedDate == old(selectedDate)
      ensures old(Valid()) ==> Valid() && MonthIndex(year, month) == MonthIndex(old(year), old(month)) + 1
    {
      month := month + 1;
      if month > 12 {
        month := 1;
        year := year + 1;
      }
    }

    /** `_select_date`: the click handler of a day button, whose date `datetime` built. */
    method SelectDate(date: Date)
      requires ValidDate(date)
      modifies this
      ensures selectedDate == Some(date)
      ensures year == old(year) && month == old(month)
      ensures old(Valid()) ==> Valid()
    {
      selectedDate := Some(date);
    }
  }
}
