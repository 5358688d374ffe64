/** Decimal digits of a fixed width. */
module Decimal {
  import TextOrder

  predicate IsDigit(c: char) { '0' <= c <= '9' }

  function Value(s: string): nat
    requires forall i :: 0 <= i < |s| ==> IsDigit(s[i])
  {
    if s == "" then 0
    else
      assert IsDigit(s[|s| - 1]);
      10 * Value(s[..|s| - 1]) + (s[|s| - 1] as int - '0' as int)
  }

  function Digits(n: nat, width: nat): (s: string)
    ensures |s| == width && forall i :: 0 <= i < |s| ==> IsDigit(s[i])
  {
    if width == 0 then "" else Digits(n / 10, width - 1) + [('0' as int + n % 10) as char]
  }

  function Power(width: nat): nat {
    if width == 0 then 1 else 10 * Power(width - 1)
  }

  lemma {:induction false} ValueOfDigits(n: nat, width: nat)
    requires n < Power(width)
    ensures Value(Digits(n, width)) == n
  {
    if width > 0 {
      ValueOfDigits(n / 10, width - 1);
      var s := Digits(n, width);
      assert s[..|s| - 1] == Digits(n / 10, width - 1);
    }
  }

  lemma LastDigit(v: nat, c: char)
    requires IsDigit(c)
    ensures var n := 10 * v + (c as int - '0' as int); n / 10 == v && ('0' as int + n % 10) as char == c
  {
  }

  lemma {:induction false} DigitsOfValue(s: string)
    requires forall i :: 0 <= i < |s| ==> IsDigit(s[i])
    ensures Digits(Value(s), |s|) == s && Value(s) < Power(|s|)
  {
    if s != "" {
      var front, c := s[..|s| - 1], s[|s| - 1];
      assert IsDigit(c);
      DigitsOfValue(front);
      LastDigit(Value(front), c);
      assert s == front + [c];
    }
  }

  /** Texts of different fixed-width beginnings compare as the beginnings do. */
  lemma {:induction false} SameWidth(p: string, q: string, x: string, y: string)
    requires |p| == |q| && p != q
    ensures TextOrder.Less(p + x, q + y) == TextOrder.Less(p, q)
  {
    assert (p + x)[0] == p[0] && (q + y)[0] == q[0];
    if p[0] == q[0] {
      assert p == [p[0]] + p[1..] && q == [q[0]] + q[1..];
      assert (p + x)[1..] == p[1..] + x && (q + y)[1..] == q[1..] + y;
      SameWidth(p[1..], q[1..], x, y);
    }
  }

  lemma {:induction false} DigitsOrder(a: nat, b: nat, width: nat)
    requires a < Power(width) && b < Power(width)
    ensures TextOrder.Less(Digits(a, width), Digits(b, width)) <==> a < b
    ensures Digits(a, width) == Digits(b, width) <==> a == b
  {
    if width > 0 {
      var p, q := Digits(a / 10, width - 1), Digits(b / 10, width - 1);
      var x, y := [('0' as int + a % 10) as char], [('0' as int + b % 10) as char];
      DigitsOrder(a / 10, b / 10, width - 1);
      assert (p + x)[..width - 1] == p && (q + y)[..width - 1] == q;
      assert (p + x)[width - 1] == x[0] && (q + y)[width - 1] == y[0];
      if p == q {
        TextOrder.CommonPrefix(p, x, y);
      } else {
        SameWidth(p, q, x, y);
      }
    }
  }

  /** A fixed-width number decides, or leaves the decision to what follows it. */
  lemma FieldOrder(a: nat, b: nat, width: nat, x: string, y: string)
    requires a < Power(width) && b < Power(width)
    ensures TextOrder.Less(Digits(a, width) + x, Digits(b, width) + y) <==> a < b || (a == b && TextOrder.Less(x, y))
  {
    DigitsOrder(a, b, width);
    if a == b {
      TextOrder.CommonPrefix(Digits(a, width), x, y);
    } else {
      SameWidth(Digits(a, width), Digits(b, width), x, y);
    }
  }
}

/** The civil calendar of UTC and the instants of its years 0 to 9999, in nanoseconds. */
module Calendar {

  const DAY := 86_400
  const SECOND := 1_000_000_000

  predicate Leap(y: nat) { y % 4 == 0 && (y % 100 != 0 || y % 400 == 0) }

  function YearDays(y: nat): nat { if Leap(y) then 366 else 365 }

  function MonthDays(y: nat, m: nat): nat {
    if m == 2 then (if Leap(y) then 29 else 28) else if m in {4, 6, 9, 11} then 30 else 31
  }

  function DaysBeforeYear(y: nat): nat {
    if y == 0 then 0 else DaysBeforeYear(y - 1) + YearDays(y - 1)
  }

  function DaysBeforeMonth(y: nat, m: nat): nat
    requires 1 <= m <= 13
  {
    if m == 1 then 0 else DaysBeforeMonth(y, m - 1) + MonthDays(y, m - 1)
  }

  datatype Civil = Civil(year: nat, month: nat, day: nat, hour: nat, minute: nat, second: nat, nanos: nat)

  predicate Valid(c: Civil) {
    && c.year <= 9999 && 1 <= c.month <= 12 && 1 <= c.day <= MonthDays(c.year, c.month)
    && c.hour < 24 && c.minute < 60 && c.second < 60 && c.nanos < SECOND
  }

  function DayNumber(c: Civil): nat
    requires Valid(c)
  {
    DaysBeforeYear(c.year) + DaysBeforeMonth(c.year, c.month) + c.day - 1
  }

  function Seconds(c: Civil): nat
    requires Valid(c)
  {
    DayNumber(c) * DAY + c.hour * 3600 + c.minute * 60 + c.second
  }

  function Instant(c: Civil): nat
    requires Valid(c)
  {
    Seconds(c) * SECOND + c.nanos
  }

  lemma {:induction false} YearsAdvance(a: nat, b: nat)
    requires a < b
    ensures DaysBeforeYear(a) + YearDays(a) <= DaysBeforeYear(b)
    decreases b
  {
    if a + 1 < b {
      YearsAdvance(a, b - 1);
    }
  }

  lemma {:induction false} MonthsAdvance(y: nat, a: nat, b: nat)
    requires 1 <= a < b <= 13
    ensures DaysBeforeMonth(y, a) + MonthDays(y, a) <= DaysBeforeMonth(y, b)
    decreases b
  {
    if a + 1 < b {
      MonthsAdvance(y, a, b - 1);
    }
  }

  lemma TwelveMonths(y: nat)
    ensures DaysBeforeMonth(y, 13) == YearDays(y)
  {
    assert DaysBeforeMonth(y, 2) == 31;
    assert DaysBeforeMonth(y, 3) == 31 + MonthDays(y, 2);
    assert DaysBeforeMonth(y, 5) == DaysBeforeMonth(y, 3) + 61;
    assert DaysBeforeMonth(y, 7) == DaysBeforeMonth(y, 5) + 61;
    assert DaysBeforeMonth(y, 9) == DaysBeforeMonth(y, 7) + 62;
    assert DaysBeforeMonth(y, 11) == DaysBeforeMonth(y, 9) + 61;
  }

  lemma DayInYear(c: Civil)
    requires Valid(c)
    ensures DaysBeforeYear(c.year) <= DayNumber(c) < DaysBeforeYear(c.year) + YearDays(c.year)
  {
    TwelveMonths(c.year);
    MonthsAdvance(c.year, c.month, 13);
  }

  /** Dates in calendar order have increasing day numbers. */
  lemma DaysAdvance(a: Civil, b: Civil)
    requires Valid(a) && Valid(b)
    requires a.year < b.year || (a.year == b.year && (a.month < b.month || (a.month == b.month && a.day < b.day)))
    ensures DayNumber(a) < DayNumber(b)
  {
    if a.year < b.year {
      DayInYear(a);
      DayInYear(b);
      YearsAdvance(a.year, b.year);
    } else if a.month < b.month {
      MonthsAdvance(a.year, a.month, b.month);
    }
  }

  predicate DateBefore(a: Civil, b: Civil) {
    a.year < b.year || (a.year == b.year && (a.month < b.month || (a.month == b.month && a.day < b.day)))
  }

  predicate TimeBefore(a: Civil, b: Civil) {
    a.hour < b.hour || (a.hour == b.hour && (a.minute < b.minute || (a.minute == b.minute && a.second < b.second)))
  }

  predicate SameDate(a: Civil, b: Civil) { a.year == b.year && a.month == b.month && a.day == b.day }

  predicate SameTime(a: Civil, b: Civil) { a.hour == b.hour && a.minute == b.minute && a.second == b.second }

  predicate SameSecond(a: Civil, b: Civil) {
    SameDate(a, b) && SameTime(a, b)
  }

  lemma SecondsAdvance(a: Civil, b: Civil)
    requires Valid(a) && Valid(b) && (DateBefore(a, b) || (SameDate(a, b) && TimeBefore(a, b)))
    ensures Seconds(a) < Seconds(b)
  {
    if DateBefore(a, b) {
      DaysAdvance(a, b);
    }
  }

  /** Field by field comparison of two civil times is comparison of their instants. */
  lemma CivilOrder(a: Civil, b: Civil)
    requires Valid(a) && Valid(b)
    ensures Seconds(a) < Seconds(b) <==> DateBefore(a, b) || (SameDate(a, b) && TimeBefore(a, b))
    ensures Seconds(a) == Seconds(b) <==> SameSecond(a, b)
  {
    if DateBefore(a, b) || (SameDate(a, b) && TimeBefore(a, b)) {
      SecondsAdvance(a, b);
    } else if !SameSecond(a, b) {
      SecondsAdvance(b, a);
    }
  }

  // ---- From instants to civil times ----

  function YearFrom(day: nat, y: nat): (r: (nat, nat))
    ensures r.0 >= y && r.1 < YearDays(r.0) && DaysBeforeYear(r.0) + r.1 == DaysBeforeYear(y) + day
    decreases day
  {
    if day < YearDays(y) then (y, day) else YearFrom(day - YearDays(y), y + 1)
  }

  function MonthFrom(y: nat, day: nat, m: nat): (r: (nat, nat))
    requires 1 <= m <= 12 && DaysBeforeMonth(y, m) + day < DaysBeforeMonth(y, 13)
    ensures m <= r.0 <= 12 && r.1 < MonthDays(y, r.0) && DaysBeforeMonth(y, r.0) + r.1 == DaysBeforeMonth(y, m) + day
    decreases 12 - m
  {
    if day < MonthDays(y, m) then (m, day) else MonthFrom(y, day - MonthDays(y, m), m + 1)
  }

  /** The first instant of the year 10000. */
  const END := 3_652_425 * DAY * SECOND

  /** The civil UTC time of an instant. */
  function ToCivil(t: nat): (c: Civil)
    requires t < END
    ensures Valid(c) && Instant(c) == t
  {
    var seconds := t / SECOND;
    var day := seconds / DAY;
    var rest := seconds % DAY;
    var year := YearFrom(day, 0);
    TwelveMonths(year.0);
    var month := MonthFrom(year.0, year.1, 1);
    YearsBeyond(year.0);
    Civil(year.0, month.0, month.1 + 1, rest / 3600, rest / 60 % 60, rest % 60, t % SECOND)
  }

  /** How many years before `y` are multiples of 4, 100 and 400. */
  function Fourths(y: nat): nat { (y + 3) / 4 }

  function Hundredths(y: nat): nat { (y + 99) / 100 }

  function FourHundredths(y: nat): nat { (y + 399) / 400 }

  lemma NextFourth(y: nat)
    ensures Fourths(y + 1) == Fourths(y) + (if y % 4 == 0 then 1 else 0)
  {
  }

  lemma NextHundredth(y: nat)
    ensures Hundredths(y + 1) == Hundredths(y) + (if y % 100 == 0 then 1 else 0)
  {
  }

  lemma NextFourHundredth(y: nat)
    ensures FourHundredths(y + 1) == FourHundredths(y) + (if y % 400 == 0 then 1 else 0)
  {
  }

  lemma LeapCount(y: nat)
    ensures YearDays(y) == 365 + (if y % 4 == 0 then 1 else 0) - (if y % 100 == 0 then 1
        else 0) + (if y % 400 == 0 then 1 else 0)
  {
    assert y % 100 == 0 ==> y % 4 == 0;
    assert y % 400 == 0 ==> y % 100 == 0;
  }

  /** Leap years before `y`: every fourth, less every hundredth, plus every four-hundredth. */
  lemma {:induction false} DaysInClosedForm(y: nat)
    ensures DaysBeforeYear(y) == 365 * y + Fourths(y) - Hundredths(y) + FourHundredths(y)
  {
    if y > 0 {
      DaysInClosedForm(y - 1);
      LeapCount(y - 1);
      NextFourth(y - 1);
      NextHundredth(y - 1);
      NextFourHundredth(y - 1);
    }
  }

  lemma EndOfYears(end: nat)
    requires end == 10000
    ensures DaysBeforeYear(end) == 3_652_425
  {
    DaysInClosedForm(end);
  }

  lemma YearsBeyond(y: nat)
    ensures y <= 9999 <==> DaysBeforeYear(y) < 3_652_425
    ensures y <= 9999 ==> DaysBeforeYear(y) + YearDays(y) <= 3_652_425
  {
    var end: nat :| end == 10000;
    EndOfYears(end);
    if y < end {
      YearsAdvance(y, end);
    } else if y > end {
      YearsAdvance(end, y);
    }
  }

  lemma InstantBelowEnd(c: Civil)
    requires Valid(c)
    ensures Instant(c) < END
  {
    DayInYear(c);
    YearsBeyond(c.year);
    assert DayNumber(c) + 1 <= 3_652_425;
    assert Seconds(c) + 1 <= 3_652_425 * DAY;
  }

  lemma SameInstant(a: Civil, b: Civil)
    requires Valid(a) && Valid(b) && Instant(a) == Instant(b)
    ensures a == b
  {
    assert Seconds(a) == Seconds(b) && a.nanos == b.nanos;
    CivilOrder(a, b);
  }

  /** The days before each month of a year. */
  lemma MonthStarts(y: nat)
    ensures var leap := if y % 4 == 0 && (y % 100 != 0 || y % 400 == 0) then 1 else 0;
            && DaysBeforeMonth(y, 1) == 0 && DaysBeforeMonth(y, 2) == 31
            && DaysBeforeMonth(y, 3) == 59 + leap && DaysBeforeMonth(y, 4) == 90 + leap
            && DaysBeforeMonth(y, 5) == 120 + leap && DaysBeforeMonth(y, 6) == 151 + leap
            && DaysBeforeMonth(y, 7) == 181 + leap && DaysBeforeMonth(y, 8) == 212 + leap
            && DaysBeforeMonth(y, 9) == 243 + leap && DaysBeforeMonth(y, 10) == 273 + leap
            && DaysBeforeMonth(y, 11) == 304 + leap && DaysBeforeMonth(y, 12) == 334 + leap
            && DaysBeforeMonth(y, 13) == 365 + leap
  {
    assert DaysBeforeMonth(y, 2) == 31;
    assert DaysBeforeMonth(y, 4) == DaysBeforeMonth(y, 3) + 31;
    assert DaysBeforeMonth(y, 6) == DaysBeforeMonth(y, 5) + 31;
    assert DaysBeforeMonth(y, 8) == DaysBeforeMonth(y, 7) + 31;
    assert DaysBeforeMonth(y, 10) == DaysBeforeMonth(y, 9) + 30;
    assert DaysBeforeMonth(y, 12) == DaysBeforeMonth(y, 11) + 30;
  }

  /** The date after a date: the next day of the month, or the first of the next month or year. */
  function NextDate(c: Civil): Civil
    requires Valid(c)
  {
    if c.day < MonthDays(c.year, c.month) then c.(day := c.day + 1)
    else if c.month < 12 then c.(month := c.month + 1, day := 1)
    else c.(year := c.year + 1, month := 1, day := 1)
  }

  lemma NextDateNumber(c: Civil)
    requires Valid(c) && Valid(NextDate(c))
    ensures DayNumber(NextDate(c)) == DayNumber(c) + 1
  {
    if c.day == MonthDays(c.year, c.month) && c.month == 12 {
      TwelveMonths(c.year);
      assert DaysBeforeMonth(c.year + 1, 1) == 0;
    }
  }

  /** A day later it is the same time of the next date. */
  lemma DayLater(c: Civil)
    requires Valid(c) && Instant(c) + DAY * SECOND < END
    ensures ToCivil(Instant(c) + DAY * SECOND) == NextDate(c)
  {
    NextDateValid(c);
    NextDateInstant(c);
    ToCivilUnique(NextDate(c));
  }

  lemma NextDateValid(c: Civil)
    requires Valid(c) && Instant(c) + DAY * SECOND < END
    ensures Valid(NextDate(c))
  {
    if c.year == 9999 && c.month == 12 && c.day == 31 {
      LastDay(c);
    }
  }

  lemma NextDateInstant(c: Civil)
    requires Valid(c) && Valid(NextDate(c))
    ensures Instant(NextDate(c)) == Instant(c) + DAY * SECOND
  {
    NextDateNumber(c);
    assert Seconds(NextDate(c)) == Seconds(c) + DAY;
  }

  lemma LastDay(c: Civil)
    requires Valid(c) && c.year == 9999 && c.month == 12 && c.day == 31
    ensures Instant(c) + DAY * SECOND >= END
  {
    var end: nat :| end == 10000;
    EndOfYears(end);
    TwelveMonths(c.year);
  }

  /** The beginning of the year 1970, 719528 days after the beginning of the year 0. */
  lemma Year1970()
    ensures ToCivil(719_528 * DAY * SECOND) == Civil(1970, 1, 1, 0, 0, 0, 0)
  {
    var c := Civil(1970, 1, 1, 0, 0, 0, 0);
    DaysInClosedForm(c.year);
    ToCivilUnique(c);
  }

  /** The calendar is exact: one civil time per instant. */
  lemma ToCivilUnique(c: Civil)
    requires Valid(c)
    ensures Instant(c) < END && ToCivil(Instant(c)) == c
  {
    InstantBelowEnd(c);
    SameInstant(ToCivil(Instant(c)), c);
  }
}
