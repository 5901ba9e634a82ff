/** The part of Python's `calendar` module the date validation relies on:
    the proleptic Gregorian leap rule and the number of days in a month
    (the second component of `calendar.monthrange`). The first component,
    the weekday of the first day, is never used by the application. */
module Calendar {
  import opened Wrappers

  /** Days per month in a common year, indexed 1..12 (index 0 is unused). */
  const MonthDays: seq<int> := [0, 31, 28, 31, 30, 31, 30, 31, 31, 30, 31, 30, 31]

  /** Error raised by `monthrange` for a month outside 1..12
      (`calendar.IllegalMonthError`, a `ValueError`). */
  datatype CalendarError = IllegalMonth(month: int)

  /** Gregorian leap years. Python's `%` floors, which for the positive
      divisors used here agrees with Dafny's Euclidean `%` on every int. */
  predicate IsLeap(year: int) {
    year % 4 == 0 && (year % 100 != 0 || year % 400 == 0)
  }

  /** Number of days in `month` of `year`. */
  function DaysInMonth(year: int, month: int): (n: int)
    requires 1 <= month <= 12
    ensures month == 2 ==> n == (if IsLeap(year) then 29 else 28)
    ensures month != 2 ==> n == (if month in {4, 6, 9, 11} then 30 else 31)
  {
    MonthDays[month] + (if month == 2 && IsLeap(year) then 1 else 0)
  }

  /** `calendar.monthrange(year, month)[1]`: the month is checked first. */
  function MonthRange(year: int, month: int): (r: Result<int, CalendarError>)
    ensures r.Failure? <==> !(1 <= month <= 12)
    ensures r.Failure? ==> r.error == IllegalMonth(month)
    ensures r.Success? ==> r.value == DaysInMonth(year, month)
  {
    if !(1 <= month <= 12) then Failure(IllegalMonth(month))
    else Success(DaysInMonth(year, month))
  }

  /** Sum of the lengths of months `from`..12 of `year`. */
  function DaysFrom(year: int, from: int): int
    requires 1 <= from <= 13
    decreases 13 - from
  {
    if from == 13 then 0 else DaysInMonth(year, from) + DaysFrom(year, from + 1)
  }

  /** The month table adds up to the length of a Gregorian year. */
  lemma YearLength(year: int)
    ensures DaysFrom(year, 1) == if IsLeap(year) then 366 else 365
  {
    var leap := if IsLeap(year) then 1 else 0;
    assert DaysFrom(year, 13) == 0;
    assert DaysFrom(year, 12) == 31;
    assert DaysFrom(year, 11) == 61;
    assert DaysFrom(year, 10) == 92;
    assert DaysFrom(year, 9) == 122;
    assert DaysFrom(year, 8) == 153;
    assert DaysFrom(year, 7) == 184;
    assert DaysFrom(year, 6) == 214;
    assert DaysFrom(year, 5) == 245;
    assert DaysFrom(year, 4) == 275;
    assert DaysFrom(year, 3) == 306;
    assert DaysFrom(year, 2) == 334 + leap;
  }

  /** Year 0 and year 2000 are both leap years: substituting 2000 for a year
      of 0 never changes a month's length. */
  lemma YearZeroLikeTwoThousand(month: int)
    requires 1 <= month <= 12
    ensures DaysInMonth(0, month) == DaysInMonth(2000, month)
  {
  }
}
