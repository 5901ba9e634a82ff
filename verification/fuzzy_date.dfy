/** A date known to year, year-month or full year-month-day precision
    (`FuzzyDate` in app/models/base.py): validated construction, English
    display, component-wise equality and the precision-aware ordering. */
module FuzzyDates {
  import opened Wrappers
  import Calendar
  import Decimal

  /** The three nullable components, exactly as stored. */
  datatype FuzzyDate = FuzzyDate(year: Option<int>, month: Option<int>, day: Option<int>)

  /** The `ValueError`s raised by the constructor, one per check. */
  datatype DateError =
    | MonthWithoutYear
    | DayWithoutMonth
    | MonthOutOfRange(month: int)
    | DayOutOfRange(day: int, maxDay: int, month: int)

  const Empty: FuzzyDate := FuzzyDate(None, None, None)

  /** Precision nests: a month needs a year and a day needs a month. */
  predicate Nested(d: FuzzyDate) {
    && (d.month.Some? ==> d.year.Some?)
    && (d.day.Some? ==> d.month.Some?)
  }

  predicate MonthInRange(d: FuzzyDate) {
    d.month.Some? ==> 1 <= d.month.value <= 12
  }

  /** The declarative description of a well-formed date: nested precision,
      a calendar month, and a day that exists in that month of that year. */
  predicate Valid(d: FuzzyDate) {
    && Nested(d)
    && MonthInRange(d)
    && (d.day.Some? ==> 1 <= d.day.value <= Calendar.DaysInMonth(d.year.value, d.month.value))
  }

  /** Python's `year or 2000`: a missing year and the falsy year 0 both read as 2000. */
  function ReferenceYear(year: Option<int>): int {
    match year
    case None => 2000
    case Some(y) => if y == 0 then 2000 else y
  }

  /** `FuzzyDate.__init__`: the checks run in the source's order and the first
      one that fails decides the error. The constructor's re-check of a day
      without a month cannot be reached (the second check already rejects it)
      and has no counterpart here. */
  function New(year: Option<int>, month: Option<int>, day: Option<int>): (r: Result<FuzzyDate, DateError>)
    ensures r.Success? <==> Valid(FuzzyDate(year, month, day))
    ensures r.Success? ==> r.value == FuzzyDate(year, month, day)
    ensures month.Some? && year.None? ==> r == Failure(MonthWithoutYear)
    ensures day.Some? && month.None? ==> r == Failure(DayWithoutMonth)
    ensures year.Some? && month.Some? && !(1 <= month.value <= 12) ==> r == Failure(MonthOutOfRange(month.value))
    ensures Nested(FuzzyDate(year, month, day)) && MonthInRange(FuzzyDate(year, month, day)) && day.Some?
            && !(1 <= day.value <= Calendar.DaysInMonth(year.value, month.value)) ==>
              r == Failure(DayOutOfRange(day.value, Calendar.DaysInMonth(year.value, month.value), month.value))
    ensures r.Failure? && r.error.DayOutOfRange? ==>
              && year.Some? && month.Some? && 1 <= month.value <= 12 && day == Some(r.error.day)
              && r.error.month == month.value
              && r.error.maxDay == Calendar.DaysInMonth(year.value, month.value)
              && !(1 <= r.error.day <= r.error.maxDay)
  {
    if month.Some? && year.None? then Failure(MonthWithoutYear)
    else if day.Some? && month.None? then Failure(DayWithoutMonth)
    else if month.Some? && !(1 <= month.value <= 12) then Failure(MonthOutOfRange(month.value))
    else if day.Some? then
      var maxDay := Calendar.DaysInMonth(ReferenceYear(year), month.value);
      Calendar.YearZeroLikeTwoThousand(month.value);
      if !(1 <= day.value <= maxDay) then Failure(DayOutOfRange(day.value, maxDay, month.value))
      else Success(FuzzyDate(year, month, day))
    else Success(FuzzyDate(year, month, day))
  }

  /** `is_empty`: no information at all. For a valid date an absent year
      forces the other two components to be absent as well. */
  function IsEmpty(d: FuzzyDate): (r: bool)
    ensures Valid(d) ==> (r <==> d == Empty)
  {
    d.year.None?
  }

  const MonthNames: seq<string> := [
    "January", "February", "March", "April", "May", "June",
    "July", "August", "September", "October", "November", "December"
  ]

  /** English month names are capitalised words, none of them "Unknown". */
  function MonthName(month: int): (name: string)
    requires 1 <= month <= 12
    ensures |name| >= 3 && 'A' <= name[0] <= 'Z' && name[0] != 'U'
  {
    MonthNames[month - 1]
  }

  /** `__str__`: "Unknown", "2020", "June 2020" or "June 15, 2020". The month
      must be a calendar month so that the name table can be indexed; every
      constructed date satisfies this. */
  function Format(d: FuzzyDate): (r: string)
    requires MonthInRange(d)
    ensures |r| > 0
    ensures r == "Unknown" <==> d.year.None?
    ensures d.year.Some? ==> r[0] != 'U'
  {
    if d.year.None? then "Unknown"
    else if d.month.None? then Decimal.IntToString(d.year.value)
    else if d.day.None? then MonthName(d.month.value) + " " + Decimal.IntToString(d.year.value)
    else MonthName(d.month.value) + " " + Decimal.IntToString(d.day.value) + ", " + Decimal.IntToString(d.year.value)
  }

  /** `__eq__`: the tuples `(year, month, day)` are compared. */
  function Eq(a: FuzzyDate, b: FuzzyDate): (r: bool)
    ensures r <==> a == b
  {
    (a.year, a.month, a.day) == (b.year, b.month, b.day)
  }

  /** `__lt__`: decided at the first level where the dates differ, and false
      whenever that level is missing from either operand. */
  function Lt(a: FuzzyDate, b: FuzzyDate): (r: bool)
    ensures r ==> a != b
    ensures r ==> a.year.Some? && b.year.Some? && a.year.value <= b.year.value
    ensures a.year.Some? && b.year.Some? && a.year.value < b.year.value ==> r
    ensures r && a.year == b.year ==> a.month.Some? && b.month.Some? && a.month.value <= b.month.value
  {
    if a.year.None? || b.year.None? then false
    else if a.year != b.year then a.year.value < b.year.value
    else if a.month.None? || b.month.None? then false
    else if a.month != b.month then a.month.value < b.month.value
    else if a.day.None? || b.day.None? then false
    else a.day.value < b.day.value
  }

  /** `__le__`: equal or less. */
  function Le(a: FuzzyDate, b: FuzzyDate): (r: bool)
    ensures Lt(a, b) ==> r
    ensures r ==> !Lt(b, a)
    ensures a.year.None? || b.year.None? ==> (r <==> a == b)
  {
    Eq(a, b) || Lt(a, b)
  }

  /** `__gt__`: the operands of `<` swapped. */
  function Gt(a: FuzzyDate, b: FuzzyDate): (r: bool)
    ensures r ==> a != b && !Lt(a, b)
    ensures r ==> a.year.Some? && b.year.Some? && a.year.value >= b.year.value
  {
    Lt(b, a)
  }

  /** `__ge__`: equal or greater. */
  function Ge(a: FuzzyDate, b: FuzzyDate): (r: bool)
    ensures Gt(a, b) ==> r
    ensures r ==> !Lt(a, b)
    ensures a.year.None? || b.year.None? ==> (r <==> a == b)
  {
    Eq(a, b) || Gt(a, b)
  }
}
