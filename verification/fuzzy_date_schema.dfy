/** The request-schema copy of the FuzzyDate rules (`FuzzyDateSchema` in
    app/schemas/fuzzy_date.py): two field validators that see the fields
    validated before them, and a second copy of the display format. */
module FuzzyDateSchema {
  import opened Wrappers
  import Calendar
  import Decimal
  import FuzzyDates

  /** A key of the already-validated data: absent when that field failed
      validation, otherwise present with its (possibly null) value. */
  datatype Entry = Absent | Present(value: Option<int>)

  /** `info.data.get(key)`: an absent key reads as null. */
  function Get(e: Entry): Option<int> {
    match e
    case Absent => None
    case Present(v) => v
  }

  /** `info.data.get(key, default)`: only an absent key takes the default. */
  function GetOr(e: Entry, default: int): Option<int> {
    match e
    case Absent => Some(default)
    case Present(v) => v
  }

  datatype SchemaError =
    | MonthWithoutYear
    | MonthOutOfRange
    | DayWithoutMonth
      /** `calendar.IllegalMonthError` raised inside the day validator. */
    | IllegalMonth(month: int)
      /** `calendar.monthrange(None, month)` raises `TypeError`, which is not
          turned into a validation error but escapes the validator. */
    | YearIsNull
    | DayOutOfRange(maxDay: int, month: int)

  /** `validate_month`. */
  function ValidateMonth(v: Option<int>, year: Entry): (r: Result<Option<int>, SchemaError>)
    ensures r.Success? ==> r.value == v
    ensures r.Success? <==> v.None? || (Get(year).Some? && 1 <= v.value <= 12)
    ensures v.Some? && Get(year).None? ==> r == Failure(MonthWithoutYear)
    ensures v.Some? && Get(year).Some? && !(1 <= v.value <= 12) ==> r == Failure(MonthOutOfRange)
  {
    if v.Some? then
      if Get(year).None? then Failure(MonthWithoutYear)
      else if !(1 <= v.value <= 12) then Failure(MonthOutOfRange)
      else Success(v)
    else Success(v)
  }

  /** `validate_day`. The year defaults to 2000 only when its key is absent;
      a present null year reaches `calendar.monthrange` as `None`. */
  function ValidateDay(v: Option<int>, year: Entry, month: Entry): (r: Result<Option<int>, SchemaError>)
    ensures r.Success? ==> r.value == v
    ensures r.Success? <==>
              || v.None?
              || (&& Get(month).Some? && 1 <= Get(month).value <= 12
                  && GetOr(year, 2000).Some?
                  && 1 <= v.value <= Calendar.DaysInMonth(GetOr(year, 2000).value, Get(month).value))
    ensures v.Some? && Get(month).None? ==> r == Failure(DayWithoutMonth)
    ensures r == Failure(YearIsNull) ==> year == Present(None)
    ensures v.Some? && Get(month).Some? && 1 <= Get(month).value <= 12 && year == Present(None) ==>
              r == Failure(YearIsNull)
    ensures v.Some? && Get(month).Some? && !(1 <= Get(month).value <= 12) ==>
              r == Failure(IllegalMonth(Get(month).value))
    ensures v.Some? && Get(month).Some? && 1 <= Get(month).value <= 12 && GetOr(year, 2000).Some?
            && !(1 <= v.value <= Calendar.DaysInMonth(GetOr(year, 2000).value, Get(month).value)) ==>
              r == Failure(DayOutOfRange(Calendar.DaysInMonth(GetOr(year, 2000).value, Get(month).value),
                                         Get(month).value))
    ensures r.Failure? && r.error.IllegalMonth? ==> Get(month) == Some(r.error.month) && !(1 <= r.error.month <= 12)
  {
    if v.Some? then
      var month := Get(month);
      if month.None? then Failure(DayWithoutMonth)
      else
        var year := GetOr(year, 2000);
        if year.None? then
          // `monthrange` checks the month before it touches the year
          if !(1 <= month.value <= 12) then Failure(IllegalMonth(month.value)) else Failure(YearIsNull)
        else match Calendar.MonthRange(year.value, month.value)
          case Failure(e) => Failure(IllegalMonth(e.month))
          case Success(maxDay) =>
            if !(1 <= v.value <= maxDay) then Failure(DayOutOfRange(maxDay, month.value))
            else Success(v)
    else Success(v)
  }

  /** A validated schema instance. */
  datatype Schema = Schema(year: Option<int>, month: Option<int>, day: Option<int>)

  /** Validation of a whole instance: fields run in declaration order, a
      field that fails is left out of the data later validators see, and all
      failures are reported together. */
  function Validate(year: Option<int>, month: Option<int>, day: Option<int>): (r: Result<Schema, seq<SchemaError>>)
    ensures r.Success? ==> r.value == Schema(year, month, day)
    ensures r.Failure? ==> 1 <= |r.error| <= 2
    ensures month.Some? && year.None? ==> r.Failure? && MonthWithoutYear in r.error
    ensures day.Some? && ValidateMonth(month, Present(year)).Failure? ==> r.Failure? && DayWithoutMonth in r.error
  {
    var rm := ValidateMonth(month, Present(year));
    var monthEntry := if rm.Success? then Present(rm.value) else Absent;
    var rd := ValidateDay(day, Present(year), monthEntry);
    var errors := (if rm.Failure? then [rm.error] else []) + (if rd.Failure? then [rd.error] else []);
    if errors == [] then Success(Schema(year, month, day)) else Failure(errors)
  }

  /** `to_string`, the schema's own copy of the display format. */
  function ToString(s: Schema): (r: string)
    requires s.month.Some? ==> 1 <= s.month.value <= 12
    ensures r == "Unknown" <==> s.year.None?
    ensures s.year.Some? && s.month.None? ==> Decimal.ParseInt(r) == s.year
  {
    if s.year.None? then "Unknown"
    else if s.month.None? then
      Decimal.ParseIntRoundTrip(s.year.value);
      Decimal.IntToString(s.year.value)
    else
      var monthStr := FuzzyDates.MonthName(s.month.value);
      var text :=
        if s.day.None? then monthStr + " " + Decimal.IntToString(s.year.value)
        else monthStr + " " + Decimal.IntToString(s.day.value) + ", " + Decimal.IntToString(s.year.value);
      assert text[0] == monthStr[0] != "Unknown"[0];
      text
  }

  /** The schema accepts exactly the triples the FuzzyDate constructor
      accepts, so the two copies of the rules agree. In particular the day
      validator never meets a null year when the validators run in order. */
  lemma SchemaAgreesWithConstructor(year: Option<int>, month: Option<int>, day: Option<int>)
    ensures Validate(year, month, day).Success? <==> FuzzyDates.New(year, month, day).Success?
    ensures Validate(year, month, day).Failure? ==> YearIsNull !in Validate(year, month, day).error
  {
  }

  /** The two copies of the display format produce the same text. */
  lemma ToStringAgreesWithFormat(s: Schema)
    requires s.month.Some? ==> 1 <= s.month.value <= 12
    ensures ToString(s) == FuzzyDates.Format(FuzzyDates.FuzzyDate(s.year, s.month, s.day))
  {
  }
}
