/** The relative date windows offered by the dashboard's date dropdown, and
    the first day each one admits when counted back from an anchor day. The
    filter anchors to the latest post it keeps, the engagement card to today. */
module RelativeDates {
  import opened Wrappers
  import opened Calendar

  datatype Window = LastDays(days: nat) | LastMonths(months: nat) | LastYears(years: nat)

  const AllDates: string := "All Dates"

  /** The dropdown's options, in display order. */
  const DropdownLabels: seq<string> := ["Last 7 Days", "Last 15 Days", "Last 30 Days", "Last 60 Days",
                                       "Last 90 Days", "Last 6 Months", "Last 1 Year", AllDates]

  /** The window a dropdown label names; None for "All Dates" and any other text. */
  function WindowOf(text: string): (w: Option<Window>)
    ensures w.Some? <==> text in DropdownLabels && text != AllDates
    ensures text == "Last 7 Days" ==> w == Some(LastDays(7))
    ensures text == "Last 15 Days" ==> w == Some(LastDays(15))
    ensures text == "Last 30 Days" ==> w == Some(LastDays(30))
    ensures text == "Last 60 Days" ==> w == Some(LastDays(60))
    ensures text == "Last 90 Days" ==> w == Some(LastDays(90))
    ensures text == "Last 6 Months" ==> w == Some(LastMonths(6))
    ensures text == "Last 1 Year" ==> w == Some(LastYears(1))
  {
    if text == "Last 7 Days" then Some(LastDays(7))
    else if text == "Last 15 Days" then Some(LastDays(15))
    else if text == "Last 30 Days" then Some(LastDays(30))
    else if text == "Last 60 Days" then Some(LastDays(60))
    else if text == "Last 90 Days" then Some(LastDays(90))
    else if text == "Last 6 Months" then Some(LastMonths(6))
    else if text == "Last 1 Year" then Some(LastYears(1))
    else None
  }

  /** `anchor - DateOffset(...)` truncated to a date: days are subtracted
      outright, months and years by calendar, clamping the day of the month.
      None when the result would precede 0001-01-01. */
  function WindowStart(anchor: nat, w: Window): (r: Option<nat>)
    ensures r.Some? ==> r.value <= anchor
    ensures w.LastDays? ==> (r.Some? <==> w.days <= anchor) && (r.Some? ==> r.value + w.days == anchor)
  {
    match w
    case LastDays(k) => if k <= anchor then Some(anchor - k) else None
    case LastMonths(k) => MinusMonths(anchor, k)
    case LastYears(k) => MinusMonths(anchor, 12 * k)
  }

  /** A later anchor never moves a window's start earlier. */
  lemma WindowStartMonotone(a1: nat, a2: nat, w: Window)
    requires a1 <= a2
    requires WindowStart(a1, w).Some?
    ensures WindowStart(a2, w).Some? && WindowStart(a1, w).value <= WindowStart(a2, w).value
  {
    match w
    case LastDays(k) =>
    case LastMonths(k) => MinusMonthsMonotone(a1, a2, k);
    case LastYears(k) => MinusMonthsMonotone(a1, a2, 12 * k);
  }

  /** A month index `year * 12 + (month - 1)` determines its year and month. */
  lemma MonthIndexUnique(y1: int, m1: int, y2: int, m2: int)
    requires 0 <= m1 < 12 && 0 <= m2 < 12
    requires y1 * 12 + m1 == y2 * 12 + m2
    ensures y1 == y2 && m1 == m2
  {
  }

  /** A day of the month kept one year earlier: only 29 February has to move,
      to the 28th, because the year before a leap year is not one. */
  lemma DayAYearEarlier(d: Date)
    requires ValidDate(d) && d.year >= 2
    ensures Min(d.day, DaysInMonth(d.year - 1, d.month)) == if d.month == 2 && d.day == 29 then 28 else d.day
  {
    if d.month == 2 && d.day == 29 {
      assert IsLeap(d.year);
      assert (d.year - 1) % 4 == 3;
    }
  }

  /** "Last 1 Year" lands on the same month and day one year earlier, except
      that 29 February becomes 28 February. */
  lemma LastYearCalendar(anchor: nat)
    requires FromDay(anchor).year >= 2
    ensures WindowStart(anchor, LastYears(1)).Some?
    ensures var d := FromDay(anchor);
            var r := FromDay(WindowStart(anchor, LastYears(1)).value);
            r.year == d.year - 1 && r.month == d.month &&
            r.day == (if d.month == 2 && d.day == 29 then 28 else d.day)
  {
    var d := FromDay(anchor);
    assert WindowStart(anchor, LastYears(1)) == MinusMonths(anchor, 12);
    MinusMonthsCalendar(anchor, 12);
    var r := FromDay(MinusMonths(anchor, 12).value);
    MonthIndexUnique(r.year, r.month - 1, d.year - 1, d.month - 1);
    DayAYearEarlier(d);
  }
}
