/** Laws of the FuzzyDate comparison operators, and what `<` means: a date is
    "less" exactly when every calendar day it may denote comes before every
    calendar day the other may denote. */
module FuzzyDateOrder {
  import opened Wrappers
  import Calendar
  import opened FuzzyDates

  /** A fully known calendar day. */
  datatype Day = Day(year: int, month: int, day: int)

  predicate IsCalendarDay(x: Day) {
    1 <= x.month <= 12 && 1 <= x.day <= Calendar.DaysInMonth(x.year, x.month)
  }

  /** Chronological order of calendar days. */
  predicate Before(x: Day, y: Day) {
    || x.year < y.year
    || (x.year == y.year && x.month < y.month)
    || (x.year == y.year && x.month == y.month && x.day < y.day)
  }

  /** `x` is one of the days the fuzzy date `d` may stand for. */
  predicate Completes(x: Day, d: FuzzyDate) {
    && IsCalendarDay(x)
    && (d.year.Some? ==> x.year == d.year.value)
    && (d.month.Some? ==> x.month == d.month.value)
    && (d.day.Some? ==> x.day == d.day.value)
  }

  /** Whatever days `a` and `b` turn out to be, `a` is the earlier one. */
  ghost predicate DefinitelyBefore(a: FuzzyDate, b: FuzzyDate) {
    forall x: Day, y: Day :: Completes(x, a) && Completes(y, b) ==> Before(x, y)
  }

  /** The first day a fuzzy date may denote (an unknown year reads as 2000). */
  function Earliest(d: FuzzyDate): (x: Day)
    requires Valid(d)
    ensures Completes(x, d)
  {
    Day(if d.year.Some? then d.year.value else 2000,
        if d.month.Some? then d.month.value else 1,
        if d.day.Some? then d.day.value else 1)
  }

  /** `<` is sound and complete for "definitely earlier": when it answers
      false, either the two dates may denote the same day, or `a` is certainly
      not earlier. */
  lemma LtMeansDefinitelyBefore(a: FuzzyDate, b: FuzzyDate)
    requires Valid(a) && Valid(b)
    ensures Lt(a, b) <==> DefinitelyBefore(a, b)
  {
    if !Lt(a, b) {
      var ea, eb := Earliest(a), Earliest(b);
      if Completes(eb, a) {
        assert !Before(eb, eb);
      } else if Completes(ea, b) {
        assert !Before(ea, ea);
      } else {
        assert !Before(ea, eb);
      }
    }
  }

  /** When `<` answers false both ways, the two dates may denote the same
      calendar day: the first day of one of them is a completion of both. */
  lemma IncomparableOverlap(a: FuzzyDate, b: FuzzyDate)
    requires Valid(a) && Valid(b) && !Lt(a, b) && !Lt(b, a)
    ensures exists x :: Completes(x, a) && Completes(x, b)
  {
    var ea, eb := Earliest(a), Earliest(b);
    if Completes(eb, a) {
      assert Completes(eb, a) && Completes(eb, b);
    } else {
      assert Completes(ea, a) && Completes(ea, b);
    }
  }

  lemma LtIrreflexive(a: FuzzyDate)
    ensures !Lt(a, a)
  {
  }

  lemma LtAsymmetric(a: FuzzyDate, b: FuzzyDate)
    ensures Lt(a, b) ==> !Lt(b, a)
  {
  }

  lemma LtTransitive(a: FuzzyDate, b: FuzzyDate, c: FuzzyDate)
    ensures Lt(a, b) && Lt(b, c) ==> Lt(a, c)
  {
  }

  /** `>=` is the converse of `<=`; `>` and `<=` exclude each other, and
      `<=` together with `>=` forces equality. */
  lemma Converses(a: FuzzyDate, b: FuzzyDate)
    ensures Ge(a, b) <==> Le(b, a)
    ensures !(Gt(a, b) && Le(a, b))
    ensures Ge(a, b) && Le(a, b) ==> a == b
  {
  }

  /** Equality is an equivalence, and two empty dates are equal. */
  lemma EqIsEquivalence(a: FuzzyDate, b: FuzzyDate, c: FuzzyDate)
    ensures Eq(a, a)
    ensures Eq(a, b) ==> Eq(b, a)
    ensures Eq(a, b) && Eq(b, c) ==> Eq(a, c)
    ensures Eq(Empty, Empty)
  {
  }

  /** `<=` is a partial order: reflexive, antisymmetric and transitive. */
  lemma LeIsPartialOrder(a: FuzzyDate, b: FuzzyDate, c: FuzzyDate)
    ensures Le(a, a)
    ensures Le(a, b) && Le(b, a) ==> a == b
    ensures Le(a, b) && Le(b, c) ==> Le(a, c)
  {
  }

  /** The order is not total: a year and a month of that year are neither
      less, greater nor equal. */
  lemma NotTotal()
    ensures var a, b := FuzzyDate(Some(2020), None, None), FuzzyDate(Some(2020), Some(5), None);
            Valid(a) && Valid(b) && !Lt(a, b) && !Gt(a, b) && !Eq(a, b) && !Le(a, b) && !Ge(a, b)
  {
  }

  /** Incomparability is not transitive, so `<` is not a strict weak order
      and a comparison sort cannot rely on it: January and December 2020 are
      each incomparable with 2020, yet January is less than December. */
  lemma IncomparabilityNotTransitive()
    ensures var jan, year, dec := FuzzyDate(Some(2020), Some(1), None), FuzzyDate(Some(2020), None, None),
                                  FuzzyDate(Some(2020), Some(12), None);
            && !Lt(jan, year) && !Lt(year, jan)
            && !Lt(year, dec) && !Lt(dec, year)
            && Lt(jan, dec)
  {
  }
}
