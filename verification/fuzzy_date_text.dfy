/** Reading back the display string of a FuzzyDate. The application never
    parses these strings; the parser is the inverse that shows the display
    format loses no information: distinct valid dates display differently. */
module FuzzyDateText {
  import opened Wrappers
  import Decimal
  import opened FuzzyDates

  /** Position of the first `c` in `s`, or `|s|` when there is none. */
  function IndexOf(s: string, c: char): (i: nat)
    ensures i <= |s|
    ensures i < |s| ==> s[i] == c
    ensures forall j :: 0 <= j < i ==> s[j] != c
  {
    if |s| == 0 then 0
    else if s[0] == c then 0
    else 1 + IndexOf(s[1..], c)
  }

  /** The calendar month with the given English name. The twelve names are
      told apart by their length and their first and third letters; the
      candidate is then checked against the full name. */
  function MonthNumber(name: string): (r: Option<int>)
    ensures r.Some? ==> 1 <= r.value <= 12 && MonthName(r.value) == name
  {
    if |name| < 3 then None
    else
      var key := (|name|, name[0], name[2]);
      var k :=
        if key == (7, 'J', 'n') then 1 else if key == (8, 'F', 'b') then 2
        else if key == (5, 'M', 'r') then 3 else if key == (5, 'A', 'r') then 4
        else if key == (3, 'M', 'y') then 5 else if key == (4, 'J', 'n') then 6
        else if key == (4, 'J', 'l') then 7 else if key == (6, 'A', 'g') then 8
        else if key == (9, 'S', 'p') then 9 else if key == (7, 'O', 't') then 10
        else if key == (8, 'N', 'v') then 11 else if key == (8, 'D', 'c') then 12
        else 0;
      if 1 <= k <= 12 && MonthName(k) == name then Some(k) else None
  }

  /** Reads the four display shapes produced by `Format`. */
  function Parse(s: string): Option<FuzzyDate> {
    if s == "Unknown" then Some(Empty)
    else match Decimal.ParseInt(s)
      case Some(y) => Some(FuzzyDate(Some(y), None, None))
      case None =>
        var i := IndexOf(s, ' ');
        if i == |s| then None
        else match MonthNumber(s[..i])
          case None => None
          case Some(m) => ParseAfterMonth(m, s[i + 1..])
  }

  /** Reads "<Year>" or "<Day>, <Year>", the text after "<MonthName> ". */
  function ParseAfterMonth(m: int, rest: string): Option<FuzzyDate> {
    var j := IndexOf(rest, ',');
    if j == |rest| then
      match Decimal.ParseInt(rest)
      case Some(y) => Some(FuzzyDate(Some(y), Some(m), None))
      case None => None
    else if j + 1 < |rest| && rest[j + 1] == ' ' then
      match (Decimal.ParseInt(rest[..j]), Decimal.ParseInt(rest[j + 2..]))
      case (Some(d), Some(y)) => Some(FuzzyDate(Some(y), Some(m), Some(d)))
      case _ => None
    else None
  }

  lemma {:induction false} IndexOfConcat(a: string, b: string, c: char)
    requires forall k :: 0 <= k < |a| ==> a[k] != c
    ensures IndexOf(a + b, c) == |a| + IndexOf(b, c)
  {
    if |a| > 0 {
      var ab := a + b;
      assert ab[0] == a[0] && ab[1..] == a[1..] + b;
      IndexOfConcat(a[1..], b, c);
      assert IndexOf(ab, c) == 1 + IndexOf(ab[1..], c);
    } else {
      assert a + b == b;
    }
  }

  lemma NoCommaInInt(n: int)
    ensures forall k :: 0 <= k < |Decimal.IntToString(n)| ==> Decimal.IntToString(n)[k] != ','
  {
  }

  lemma MonthNameShape(m: int)
    requires 1 <= m <= 12
    ensures |MonthName(m)| > 0 && 'A' <= MonthName(m)[0] <= 'Z' && MonthName(m)[0] != 'U'
    ensures forall k :: 0 <= k < |MonthName(m)| ==> MonthName(m)[k] != ' '
    ensures MonthNumber(MonthName(m)) == Some(m)
  {
    if m == 1 {
    } else if m == 2 {
    } else if m == 3 {
    } else if m == 4 {
    } else if m == 5 {
    } else if m == 6 {
    } else if m == 7 {
    } else if m == 8 {
    } else if m == 9 {
    } else if m == 10 {
    } else if m == 11 {
    } else {
    }
  }

  lemma ParseYearMonth(m: int, y: int)
    ensures ParseAfterMonth(m, Decimal.IntToString(y)) == Some(FuzzyDate(Some(y), Some(m), None))
  {
    var ys := Decimal.IntToString(y);
    NoCommaInInt(y);
    IndexOfConcat(ys, "", ',');
    assert ys + "" == ys;
    Decimal.ParseIntRoundTrip(y);
  }

  lemma ParseFullDate(m: int, d: int, y: int)
    ensures ParseAfterMonth(m, Decimal.IntToString(d) + ", " + Decimal.IntToString(y))
         == Some(FuzzyDate(Some(y), Some(m), Some(d)))
  {
    var ds, ys := Decimal.IntToString(d), Decimal.IntToString(y);
    var rest := ds + ", " + ys;
    NoCommaInInt(d);
    assert rest == ds + (", " + ys);
    IndexOfConcat(ds, ", " + ys, ',');
    assert rest[..|ds|] == ds;
    assert rest[|ds| + 2..] == ys;
    Decimal.ParseIntRoundTrip(d);
    Decimal.ParseIntRoundTrip(y);
  }

  lemma ParseMonthPrefix(m: int, rest: string)
    requires 1 <= m <= 12
    requires |rest| > 0 && (rest[0] == '-' || Decimal.IsDigit(rest[0]))
    ensures Parse(MonthName(m) + " " + rest) == ParseAfterMonth(m, rest)
  {
    var name := MonthName(m);
    var s := name + " " + rest;
    MonthNameShape(m);
    assert s[0] == name[0];
    assert s != "Unknown" && Decimal.ParseInt(s) == None;
    assert s == name + (" " + rest);
    IndexOfConcat(name, " " + rest, ' ');
    assert IndexOf(s, ' ') == |name| < |s|;
    assert s[..|name|] == name;
    assert s[|name| + 1..] == rest;
  }

  /** Every valid date is read back from its display string. */
  lemma ParseFormat(d: FuzzyDate)
    requires Valid(d)
    ensures Parse(Format(d)) == Some(d)
  {
    if d.year.None? {
    } else if d.month.None? {
      Decimal.ParseIntRoundTrip(d.year.value);
    } else if d.day.None? {
      ParseMonthPrefix(d.month.value, Decimal.IntToString(d.year.value));
      ParseYearMonth(d.month.value, d.year.value);
    } else {
      var rest := Decimal.IntToString(d.day.value) + ", " + Decimal.IntToString(d.year.value);
      assert rest[0] == Decimal.IntToString(d.day.value)[0];
      assert Format(d) == MonthName(d.month.value) + " " + rest;
      ParseMonthPrefix(d.month.value, rest);
      ParseFullDate(d.month.value, d.day.value, d.year.value);
    }
  }

  /** Display strings identify valid dates. */
  lemma FormatInjective(a: FuzzyDate, b: FuzzyDate)
    requires Valid(a) && Valid(b)
    ensures Format(a) == Format(b) ==> a == b
  {
    ParseFormat(a);
    ParseFormat(b);
  }
}
