/**
 Day numbers to dates (`crates/orrch-core/src/release.rs`), against the closed count of Gregorian days from 1970-01-01.
 The leap rule is the one of Appendix C of RFC 3339, the month lengths those of its section 5.7. The two loops of the
 source take off whole years and then whole months; the date they end with is the only valid one with that day count.
 */
module Calendar {
  predicate IsLeap(y: nat) {
    (y % 4 == 0 && y % 100 != 0) || y % 400 == 0
  }

  function YearLength(y: nat): nat {
    if IsLeap(y) then 366 else 365
  }

  function MonthLength(y: nat, month: nat): nat
    requires 1 <= month <= 12
  {
    if month == 2 then if IsLeap(y) then 29 else 28
    else if month in {4, 6, 9, 11} then 30
    else 31
  }

  datatype Date = Date(year: nat, month: nat, day: nat)

  predicate ValidDate(d: Date) {
    d.year >= 1970 && 1 <= d.month <= 12 && 1 <= d.day <= MonthLength(d.year, d.month)
  }

  predicate Before(a: Date, b: Date) {
    a.year < b.year || (a.year == b.year && (a.month < b.month || (a.month == b.month && a.day < b.day)))
  }

  // ---- The count, without a loop ------------------------------------------------------------

  /** Leap years from year 1 up to and including `y`. */
  function LeapYearsThrough(y: nat): int {
    y / 4 - y / 100 + y / 400
  }

  const LEAP_YEARS_BEFORE_1970: int := 477

  function YearStart(y: nat): int
    requires y >= 1970
  {
    365 * (y - 1970) + LeapYearsThrough(y - 1) - LEAP_YEARS_BEFORE_1970
  }

  /** Days of the year before this month, in a year that is not a leap year. */
  const DAYS_BEFORE_MONTH := [0, 31, 59, 90, 120, 151, 181, 212, 243, 273, 304, 334, 365]

  function MonthStart(y: nat, month: nat): int
    requires 1 <= month <= 13
  {
    DAYS_BEFORE_MONTH[month - 1] + if IsLeap(y) && month > 2 then 1 else 0
  }

  /** Days from 1970-01-01 to this date. */
  function DayNumber(d: Date): int
    requires ValidDate(d)
  {
    YearStart(d.year) + MonthStart(d.year, d.month) + d.day - 1
  }

  lemma LeapYearCounts(y: nat)
    requires y > 0
    ensures LeapYearsThrough(y) == LeapYearsThrough(y - 1) + if IsLeap(y) then 1 else 0
  {
    Quotients(y, 4);
    Quotients(y, 100);
    Quotients(y, 400);
    Multiples(y);
  }

  lemma Multiples(y: nat)
    ensures y % 400 == 0 ==> y % 100 == 0
    ensures y % 100 == 0 ==> y % 4 == 0
  {
    if y % 400 == 0 {
      MultipleOf(100, 4 * (y / 400), y);
    }
    if y % 100 == 0 {
      MultipleOf(4, 25 * (y / 100), y);
    }
  }

  lemma MultipleOf(k: nat, q: nat, y: nat)
    requires (k == 4 || k == 100) && y == k * q
    ensures y % k == 0
  {
  }

  lemma Quotients(y: nat, k: nat)
    requires y > 0 && k in {4, 100, 400}
    ensures y / k == (y - 1) / k + if y % k == 0 then 1 else 0
  {
  }

  lemma NextYearStart(y: nat)
    requires y >= 1970
    ensures YearStart(y + 1) == YearStart(y) + YearLength(y)
  {
    LeapYearCounts(y);
  }

  lemma NextMonthStart(y: nat, month: nat)
    requires 1 <= month <= 12
    ensures MonthStart(y, month + 1) == MonthStart(y, month) + MonthLength(y, month)
  {
  }

  // ---- The source's loops -------------------------------------------------------------------

  /** The first loop: whole years are taken off. */
  method YearOf(dayNumber: nat) returns (year: nat, days: nat)
    ensures year >= 1970 && days < YearLength(year) && YearStart(year) + days == dayNumber
  {
    days := dayNumber;
    year := 1970;
    while true
      invariant year >= 1970 && YearStart(year) + days == dayNumber
      decreases days
    {
      var leap := IsLeap(year);
      var daysInYear := if leap then 366 else 365;
      if days < daysInYear {
        break;
      }
      NextYearStart(year);
      days := days - daysInYear;
      year := year + 1;
    }
  }

  /** The second loop: whole months of the year are taken off. */
  method MonthOf(year: nat, dayOfYear: nat) returns (month: nat, days: nat)
    requires dayOfYear < YearLength(year)
    ensures 1 <= month <= 12 && days < MonthLength(year, month) && MonthStart(year, month) + days == dayOfYear
  {
    var leap := IsLeap(year);
    var months := [31, if leap then 29 else 28, 31, 30, 31, 30, 31, 31, 30, 31, 30, 31];
    days := dayOfYear;
    month := 1;
    for i := 0 to 12
      invariant month == i + 1
      invariant MonthStart(year, month) + days == dayOfYear
    {
      var m := months[i];
      assert m == MonthLength(year, month);
      if days < m {
        return;
      }
      NextMonthStart(year, month);
      days := days - m;
      month := month + 1;
    }
  }

  /** Terminates for every day number, with the date that many days after 1970-01-01, and the only such date. */
  method DaysToYmd(dayNumber: nat) returns (year: nat, month: nat, day: nat)
    ensures ValidDate(Date(year, month, day)) && DayNumber(Date(year, month, day)) == dayNumber
    ensures forall d :: ValidDate(d) && DayNumber(d) == dayNumber ==> d == Date(year, month, day)
  {
    var days;
    year, days := YearOf(dayNumber);
    month, days := MonthOf(year, days);
    day := days + 1;
    var found := Date(year, month, day);
    forall d | ValidDate(d) && DayNumber(d) == dayNumber ensures d == found {
      OrderIsKept(d, found);
      OrderIsKept(found, d);
    }
  }

  // ---- Order --------------------------------------------------------------------------------

  lemma {:induction false} YearsGrow(a: nat, b: nat)
    requires 1970 <= a < b
    ensures YearStart(a) + YearLength(a) <= YearStart(b)
    decreases b
  {
    NextYearStart(b - 1);
    if a < b - 1 {
      YearsGrow(a, b - 1);
    }
  }

  lemma {:induction false} MonthsGrow(y: nat, a: nat, b: nat)
    requires 1 <= a < b <= 13
    ensures MonthStart(y, a) + MonthLength(y, a) <= MonthStart(y, b)
    decreases b
  {
    NextMonthStart(y, b - 1);
    if a < b - 1 {
      MonthsGrow(y, a, b - 1);
    }
  }

  /** Later dates have larger day numbers, and the other way round; no day number is negative. */
  lemma OrderIsKept(a: Date, b: Date)
    requires ValidDate(a) && ValidDate(b)
    ensures Before(a, b) <==> DayNumber(a) < DayNumber(b)
    ensures DayNumber(a) >= 0
  {
    InItsYear(a);
    InItsYear(b);
    if a.year < b.year {
      YearsGrow(a.year, b.year);
    } else if b.year < a.year {
      YearsGrow(b.year, a.year);
    } else if a.month < b.month {
      MonthsGrow(a.year, a.month, b.month);
    } else if b.month < a.month {
      MonthsGrow(a.year, b.month, a.month);
    }
    if a.year > 1970 {
      YearsGrow(1970, a.year);
    }
  }

  lemma InItsYear(d: Date)
    requires ValidDate(d)
    ensures YearStart(d.year) <= DayNumber(d) < YearStart(d.year) + YearLength(d.year)
  {
    MonthsGrow(d.year, d.month, 13);
    if d.month > 1 {
      MonthsGrow(d.year, 1, d.month);
    }
  }
}
