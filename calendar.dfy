/** The proleptic Gregorian calendar on day numbers. Day 0 is 0001-01-01,
    the first day Python's `datetime.date` can represent; a date before it
    cannot be formed. */
module Calendar {
  import opened Wrappers

  predicate IsLeap(year: int) {
    year % 4 == 0 && (year % 100 != 0 || year % 400 == 0)
  }

  function DaysInYear(year: int): nat {
    if IsLeap(year) then 366 else 365
  }

  function DaysInMonth(year: int, month: int): nat
    requires 1 <= month <= 12
  {
    if month == 2 then (if IsLeap(year) then 29 else 28)
    else if month == 4 || month == 6 || month == 9 || month == 11 then 30
    else 31
  }

  /** Days of `year` that fall in the months before `month`. */
  function DaysBeforeMonth(year: int, month: int): nat
    requires 1 <= month <= 12
  {
    var common := [0, 31, 59, 90, 120, 151, 181, 212, 243, 273, 304, 334];
    common[month - 1] + (if month > 2 && IsLeap(year) then 1 else 0)
  }

  /** Days from 0001-01-01 to the first day of `year`. */
  function DaysBeforeYear(year: int): nat
    requires year >= 1
    decreases year
  {
    if year == 1 then 0 else DaysBeforeYear(year - 1) + DaysInYear(year - 1)
  }

  datatype Date = Date(year: int, month: int, day: int)

  predicate ValidDate(d: Date) {
    1 <= d.year && 1 <= d.month <= 12 && 1 <= d.day <= DaysInMonth(d.year, d.month)
  }

  /** The day number of a calendar date. */
  function ToDay(d: Date): nat
    requires ValidDate(d)
  {
    DaysBeforeYear(d.year) + DaysBeforeMonth(d.year, d.month) + d.day - 1
  }

  /** The calendar date of a day number: the inverse of ToDay. */
  function FromDay(n: nat): (d: Date)
    ensures ValidDate(d) && ToDay(d) == n
  {
    LocateYear(n, 1)
  }

  /** The date lying `rest` days after the first day of `year`. */
  function LocateYear(rest: nat, year: int): (d: Date)
    requires year >= 1
    ensures ValidDate(d) && ToDay(d) == DaysBeforeYear(year) + rest
    decreases rest
  {
    if rest < DaysInYear(year) then LocateMonth(rest, year, 1)
    else LocateYear(rest - DaysInYear(year), year + 1)
  }

  /** The date lying `rest` days after the first day of `month` in `year`. */
  function LocateMonth(rest: nat, year: int, month: int): (d: Date)
    requires year >= 1 && 1 <= month <= 12
    requires DaysBeforeMonth(year, month) + rest < DaysInYear(year)
    ensures ValidDate(d) && ToDay(d) == DaysBeforeYear(year) + DaysBeforeMonth(year, month) + rest
    decreases 12 - month
  {
    if rest < DaysInMonth(year, month) then Date(year, month, rest + 1)
    else LocateMonth(rest - DaysInMonth(year, month), year, month + 1)
  }

  /** A day of a month lies before the first day of the next month. */
  lemma MonthStep(year: int, month: int)
    requires 1 <= month < 12
    ensures DaysBeforeMonth(year, month + 1) == DaysBeforeMonth(year, month) + DaysInMonth(year, month)
  {
  }

  /** Earlier months of the same year start earlier, by at least their length. */
  lemma {:induction false} MonthsOrdered(year: int, m1: int, m2: int)
    requires 1 <= m1 < m2 <= 12
    ensures DaysBeforeMonth(year, m1) + DaysInMonth(year, m1) <= DaysBeforeMonth(year, m2)
    decreases m2 - m1
  {
    MonthStep(year, m1);
    if m1 + 1 < m2 {
      MonthsOrdered(year, m1 + 1, m2);
    }
  }

  /** Earlier years start earlier, by at least their length. */
  lemma {:induction false} YearsOrdered(y1: int, y2: int)
    requires 1 <= y1 < y2
    ensures DaysBeforeYear(y1) + DaysInYear(y1) <= DaysBeforeYear(y2)
    decreases y2 - y1
  {
    if y1 + 1 < y2 {
      YearsOrdered(y1 + 1, y2);
    }
  }

  /** A valid date's offset within its year is less than the year's length. */
  lemma WithinYear(d: Date)
    requires ValidDate(d)
    ensures DaysBeforeMonth(d.year, d.month) + d.day - 1 < DaysInYear(d.year)
  {
    if d.month < 12 {
      MonthsOrdered(d.year, d.month, 12);
    }
  }

  /** Lexicographic order of (year, month) pairs. */
  predicate MonthBefore(y1: int, m1: int, y2: int, m2: int) {
    y1 < y2 || (y1 == y2 && m1 < m2)
  }

  /** A date in an earlier month has a smaller day number, whatever the days of the month. */
  lemma {:induction false} EarlierMonthEarlierDay(a: Date, b: Date)
    requires ValidDate(a) && ValidDate(b)
    requires MonthBefore(a.year, a.month, b.year, b.month)
    ensures ToDay(a) < ToDay(b)
  {
    if a.year < b.year {
      WithinYear(a);
      YearsOrdered(a.year, b.year);
    } else {
      MonthsOrdered(a.year, a.month, b.month);
    }
  }

  /** Day numbers follow calendar order exactly. */
  lemma {:induction false} ToDayOrder(a: Date, b: Date)
    requires ValidDate(a) && ValidDate(b)
    ensures ToDay(a) < ToDay(b) <==> MonthBefore(a.year, a.month, b.year, b.month) || (a.year == b.year && a.month == b.month && a.day < b.day)
    ensures ToDay(a) == ToDay(b) <==> a == b
  {
    if MonthBefore(a.year, a.month, b.year, b.month) {
      EarlierMonthEarlierDay(a, b);
    } else if MonthBefore(b.year, b.month, a.year, a.month) {
      EarlierMonthEarlierDay(b, a);
    }
  }

  /** Converting a date to its day number and back gives the date itself. */
  lemma RoundTrip(d: Date)
    requires ValidDate(d)
    ensures FromDay(ToDay(d)) == d
  {
    ToDayOrder(FromDay(ToDay(d)), d);
  }

  function Min(a: int, b: int): int {
    if a <= b then a else b
  }

  /** pandas `DateOffset(months=k)` subtracted from day `n`: the month steps back
      `k` times, crossing year boundaries, and the day of the month is clamped to
      the length of the month reached. None when the result precedes year 1. */
  function MinusMonths(n: nat, k: nat): (r: Option<nat>)
    ensures r.Some? ==> r.value <= n
    ensures k > 0 && r.Some? ==> r.value < n
  {
    var d := FromDay(n);
    var index := d.year * 12 + (d.month - 1) - k;
    var year := index / 12;
    var month := index % 12 + 1;
    if year < 1 then None
    else
      var target := Date(year, month, Min(d.day, DaysInMonth(year, month)));
      assert k > 0 ==> ToDay(target) < n by {
        if k > 0 { EarlierMonthEarlierDay(target, d); }
      }
      Some(ToDay(target))
  }

  /** The calendar date MinusMonths lands on: `k` months earlier, the day of
      the month kept when that month has it and clamped to its last day otherwise. */
  lemma MinusMonthsCalendar(n: nat, k: nat)
    ensures var d := FromDay(n);
            var index := d.year * 12 + (d.month - 1) - k;
            (MinusMonths(n, k).Some? <==> index >= 12) &&
            (index >= 12 ==>
              var r := FromDay(MinusMonths(n, k).value);
              r.year * 12 + (r.month - 1) == index &&
              r.day == Min(d.day, DaysInMonth(r.year, r.month)))
  {
    var d := FromDay(n);
    var index := d.year * 12 + (d.month - 1) - k;
    if index >= 12 {
      var year, month := index / 12, index % 12 + 1;
      RoundTrip(Date(year, month, Min(d.day, DaysInMonth(year, month))));
    }
  }

  /** A later anchor never gives an earlier result. */
  lemma MinusMonthsMonotone(n1: nat, n2: nat, k: nat)
    requires n1 <= n2
    requires MinusMonths(n1, k).Some?
    ensures MinusMonths(n2, k).Some? && MinusMonths(n1, k).value <= MinusMonths(n2, k).value
  {
    var d1, d2 := FromDay(n1), FromDay(n2);
    ToDayOrder(d1, d2);
    var i1 := d1.year * 12 + (d1.month - 1) - k;
    var i2 := d2.year * 12 + (d2.month - 1) - k;
    assert i1 <= i2;
    MinusMonthsCalendar(n1, k);
    MinusMonthsCalendar(n2, k);
    var r1, r2 := FromDay(MinusMonths(n1, k).value), FromDay(MinusMonths(n2, k).value);
    ToDayOrder(r1, r2);
  }
}
