/**
 * Calendar dates as Python's `datetime.date` represents them: the proleptic
 * Gregorian calendar from 0001-01-01 to 9999-12-31. A date is identified by its
 * ordinal (`date.toordinal()`), day 1 being Monday 0001-01-01, so adding a
 * `timedelta` of whole days is integer addition and `date.weekday()` is
 * `(ordinal + 6) % 7`. The year/month/day view, the ISO text form
 * (`date.isoformat()`) and the decimal text of a year (`str(year)`) are
 * computed from the ordinal.
 */
module Dates {

  const MinYear := 1
  const MaxYear := 9999
  /** The ordinal of 9999-12-31, the last date `datetime.date` can hold. */
  const MaxOrdinal := 3652059

  /** A representable date, as its ordinal. */
  type Day = n: int | 1 <= n <= MaxOrdinal witness 1

  datatype Ymd = Ymd(year: int, month: int, day: int)

  predicate IsLeap(y: int) {
    y % 4 == 0 && (y % 100 != 0 || y % 400 == 0)
  }

  function DaysInMonth(y: int, m: int): (r: int)
    requires 1 <= m <= 12
    ensures 28 <= r <= 31
    ensures r == 29 <==> m == 2 && IsLeap(y)
  {
    if m == 2 then (if IsLeap(y) then 29 else 28)
    else if m == 4 || m == 6 || m == 9 || m == 11 then 30
    else 31
  }

  function DaysInYear(y: int): (r: int)
    ensures r == 365 || r == 366
  {
    if IsLeap(y) then 366 else 365
  }

  /** The number of days of year `y` that come before the first of month `m`. */
  function DaysBeforeMonth(y: int, m: int): (r: int)
    requires 1 <= m <= 12
    ensures 0 <= r <= 335
    ensures m == 1 ==> r == 0
    ensures m == 12 ==> r + DaysInMonth(y, m) == DaysInYear(y)
  {
    [0, 31, 59, 90, 120, 151, 181, 212, 243, 273, 304, 334][m - 1]
      + (if m > 2 && IsLeap(y) then 1 else 0)
  }

  lemma DaysBeforeNextMonth(y: int, m: int)
    requires 1 <= m < 12
    ensures DaysBeforeMonth(y, m + 1) == DaysBeforeMonth(y, m) + DaysInMonth(y, m)
  {
  }

  /** The number of days in the years 1 .. y-1. */
  function DaysBeforeYear(y: int): int
    requires y >= 1
  {
    var p := y - 1;
    p * 365 + p / 4 - p / 100 + p / 400
  }

  /** How the counts of multiples of 4, 100 and 400 up to `p` grow by one step. */
  lemma MultiplesStep(p: int)
    requires 0 <= p
    ensures (p + 1) / 4 == p / 4 + (if (p + 1) % 4 == 0 then 1 else 0)
    ensures (p + 1) / 100 == p / 100 + (if (p + 1) % 100 == 0 then 1 else 0)
    ensures (p + 1) / 400 == p / 400 + (if (p + 1) % 400 == 0 then 1 else 0)
  {
    var q4, q100, q400 := p / 4, p / 100, p / 400;
    assert p == 4 * q4 + p % 4 && p == 100 * q100 + p % 100 && p == 400 * q400 + p % 400;
  }

  lemma DaysBeforeNextYear(y: int)
    requires y >= 1
    ensures DaysBeforeYear(y + 1) == DaysBeforeYear(y) + DaysInYear(y)
  {
    MultiplesStep(y - 1);
  }

  lemma {:induction false} DaysBeforeYearGrows(a: int, b: int)
    requires 1 <= a <= b
    ensures DaysBeforeYear(a) <= DaysBeforeYear(b)
    decreases b - a
  {
    if a < b {
      DaysBeforeNextYear(a);
      DaysBeforeYearGrows(a + 1, b);
    }
  }

  predicate ValidYmd(d: Ymd) {
    MinYear <= d.year <= MaxYear && 1 <= d.month <= 12 && 1 <= d.day <= DaysInMonth(d.year, d.month)
  }

  function ToOrdinal(d: Ymd): int
    requires ValidYmd(d)
  {
    DaysBeforeYear(d.year) + DaysBeforeMonth(d.year, d.month) + d.day
  }

  /**
   * The year holding the day `n` days (counted from 0) after the first of
   * year `y`, and that day's place in its year, found by walking year by year.
   */
  function YearFrom(y: int, n: int): (r: (int, int))
    requires 1 <= y && 0 <= n
    ensures y <= r.0 && 0 <= r.1 < DaysInYear(r.0)
    ensures DaysBeforeYear(r.0) + r.1 == DaysBeforeYear(y) + n
    decreases n
  {
    if n < DaysInYear(y) then (y, n)
    else
      DaysBeforeNextYear(y);
      YearFrom(y + 1, n - DaysInYear(y))
  }

  /**
   * The month holding the day `r` days (counted from 0) after the first of
   * month `m` of year `y`, and that day's place in its month.
   */
  function MonthFrom(y: int, m: int, r: int): (res: (int, int))
    requires 1 <= m <= 12 && 0 <= r
    requires DaysBeforeMonth(y, m) + r < DaysInYear(y)
    ensures m <= res.0 <= 12 && 0 <= res.1 < DaysInMonth(y, res.0)
    ensures DaysBeforeMonth(y, res.0) + res.1 == DaysBeforeMonth(y, m) + r
    decreases 12 - m
  {
    if r < DaysInMonth(y, m) then (m, r)
    else
      DaysBeforeNextMonth(y, m);
      MonthFrom(y, m + 1, r - DaysInMonth(y, m))
  }

  /** `date.fromordinal`: the year, month and day of a representable date. */
  function FromOrdinal(n: Day): (d: Ymd)
    ensures ValidYmd(d)
    ensures ToOrdinal(d) == n
  {
    var (year, r) := YearFrom(1, n - 1);
    assert year <= MaxYear by {
      if year > MaxYear {
        DaysBeforeYearGrows(MaxYear + 1, year);
      }
    }
    var (month, day0) := MonthFrom(year, 1, r);
    Ymd(year, month, day0 + 1)
  }

  function YearOf(n: Day): (y: int)
    ensures MinYear <= y <= MaxYear
  {
    FromOrdinal(n).year
  }

  /** The days of year `y` before month `m` and the days of `m` itself fit in the year. */
  lemma {:induction false} MonthEndsWithinYear(y: int, m: int)
    requires 1 <= m <= 12
    ensures DaysBeforeMonth(y, m) + DaysInMonth(y, m) <= DaysInYear(y)
    decreases 12 - m
  {
    if m < 12 {
      DaysBeforeNextMonth(y, m);
      MonthEndsWithinYear(y, m + 1);
    }
  }

  /** A later month starts no earlier than the end of an earlier one. */
  lemma {:induction false} LaterMonthStartsAfter(y: int, m: int, k: int)
    requires 1 <= m < k <= 12
    ensures DaysBeforeMonth(y, m) + DaysInMonth(y, m) <= DaysBeforeMonth(y, k)
    decreases k - m
  {
    DaysBeforeNextMonth(y, m);
    if m + 1 < k {
      LaterMonthStartsAfter(y, m + 1, k);
    }
  }

  /** Every valid year/month/day names a representable date. */
  lemma ToOrdinalInRange(d: Ymd)
    requires ValidYmd(d)
    ensures 1 <= ToOrdinal(d) <= MaxOrdinal
  {
    MonthEndsWithinYear(d.year, d.month);
    DaysBeforeNextYear(d.year);
    DaysBeforeYearGrows(d.year + 1, MaxYear + 1);
  }

  /** Different valid year/month/day triples have different ordinals. */
  lemma ToOrdinalInjective(a: Ymd, b: Ymd)
    requires ValidYmd(a) && ValidYmd(b)
    requires ToOrdinal(a) == ToOrdinal(b)
    ensures a == b
  {
    MonthEndsWithinYear(a.year, a.month);
    MonthEndsWithinYear(b.year, b.month);
    if a.year < b.year {
      DaysBeforeNextYear(a.year);
      DaysBeforeYearGrows(a.year + 1, b.year);
    } else if b.year < a.year {
      DaysBeforeNextYear(b.year);
      DaysBeforeYearGrows(b.year + 1, a.year);
    } else if a.month < b.month {
      LaterMonthStartsAfter(a.year, a.month, b.month);
    } else if b.month < a.month {
      LaterMonthStartsAfter(a.year, b.month, a.month);
    }
  }

  /** `date(y, m, d).toordinal()` followed by `date.fromordinal` gives back `y`, `m` and `d`. */
  lemma FromToOrdinal(d: Ymd)
    requires ValidYmd(d)
    ensures 1 <= ToOrdinal(d) <= MaxOrdinal && FromOrdinal(ToOrdinal(d)) == d
  {
    ToOrdinalInRange(d);
    ToOrdinalInjective(FromOrdinal(ToOrdinal(d)), d);
  }

  /** `date.weekday()`: Monday is 0 and Sunday is 6. */
  function Weekday(n: Day): (w: int)
    ensures 0 <= w < 7
  {
    (n + 6) % 7
  }

  function Digit(k: int): (c: char)
    requires 0 <= k < 10
    ensures '0' <= c <= '9'
  {
    (48 + k) as char
  }

  /**
   * The text YYYY-MM-DD of a valid date: the year zero-padded to four digits
   * (`%04d`), the month and the day to two (`%02d`).
   */
  function FormatYmd(d: Ymd): (s: string)
    requires ValidYmd(d)
    ensures |s| == 10 && s[4] == '-' && s[7] == '-'
  {
    [Digit(d.year / 10 / 10 / 10), Digit(d.year / 10 / 10 % 10), Digit(d.year / 10 % 10), Digit(d.year % 10), '-',
     Digit(d.month / 10), Digit(d.month % 10), '-',
     Digit(d.day / 10), Digit(d.day % 10)]
  }

  /** `date.isoformat()`: the text YYYY-MM-DD. */
  function IsoFormat(n: Day): (s: string)
    ensures |s| == 10 && s[4] == '-' && s[7] == '-'
  {
    FormatYmd(FromOrdinal(n))
  }

  /** The ISO text of the date `d` is `d` written as YYYY-MM-DD. */
  lemma IsoFormatOfYmd(d: Ymd)
    requires ValidYmd(d)
    ensures 1 <= ToOrdinal(d) <= MaxOrdinal && IsoFormat(ToOrdinal(d)) == FormatYmd(d)
  {
    FromToOrdinal(d);
  }

  /** Years, months and days are zero-padded to four, two and two digits. */
  lemma FormatYmdPads()
    ensures FormatYmd(Ymd(2026, 2, 5)) == "2026-02-05"
    ensures FormatYmd(Ymd(987, 10, 31)) == "0987-10-31"
  {
  }

  /** Python's own example: 2002-12-04 is a Wednesday, and 0001-01-01 a Monday. */
  lemma WeekdayOfKnownDates()
    ensures Weekday(ToOrdinal(Ymd(2002, 12, 4))) == 2
    ensures Weekday(ToOrdinal(Ymd(1, 1, 1))) == 0
  {
    assert ToOrdinal(Ymd(2002, 12, 4)) == 731188;
  }

  /** `str(n)` for a non-negative integer: its decimal digits, without padding. */
  function Decimal(n: nat): (s: string)
    ensures 1 <= |s|
    ensures |s| == 1 <==> n < 10
  {
    if n < 10 then [Digit(n)] else Decimal(n / 10) + [Digit(n % 10)]
  }

  /** A number below 10000 is fixed by its four decimal digits. */
  lemma FourDigitsDetermine(u: int, v: int)
    requires 0 <= u < 10000 && 0 <= v < 10000
    requires u / 10 / 10 / 10 == v / 10 / 10 / 10 && u / 10 / 10 % 10 == v / 10 / 10 % 10
    requires u / 10 % 10 == v / 10 % 10 && u % 10 == v % 10
    ensures u == v
  {
    var u1, v1 := u / 10, v / 10;
    var u2, v2 := u1 / 10, v1 / 10;
    assert u2 == 10 * (u2 / 10) + u2 % 10 && v2 == 10 * (v2 / 10) + v2 % 10;
    assert u1 == 10 * u2 + u1 % 10 && v1 == 10 * v2 + v1 % 10;
    assert u == 10 * u1 + u % 10 && v == 10 * v1 + v % 10;
  }

  lemma DigitInjective(j: int, k: int)
    requires 0 <= j < 10 && 0 <= k < 10
    requires Digit(j) == Digit(k)
    ensures j == k
  {
  }

  /** A number below 100 is fixed by its two decimal digits. */
  lemma TwoDigitsDetermine(u: int, v: int)
    requires 0 <= u < 100 && 0 <= v < 100
    requires u / 10 == v / 10 && u % 10 == v % 10
    ensures u == v
  {
    assert u == 10 * (u / 10) + u % 10 && v == 10 * (v / 10) + v % 10;
  }

  /** Different valid dates have different YYYY-MM-DD texts. */
  lemma {:induction false} FormatYmdInjective(a: Ymd, b: Ymd)
    requires ValidYmd(a) && ValidYmd(b)
    requires FormatYmd(a) == FormatYmd(b)
    ensures a == b
  {
    var s, t := FormatYmd(a), FormatYmd(b);
    assert s[0] == t[0] && s[1] == t[1] && s[2] == t[2] && s[3] == t[3];
    DigitInjective(a.year / 10 / 10 / 10, b.year / 10 / 10 / 10);
    DigitInjective(a.year / 10 / 10 % 10, b.year / 10 / 10 % 10);
    DigitInjective(a.year / 10 % 10, b.year / 10 % 10);
    DigitInjective(a.year % 10, b.year % 10);
    FourDigitsDetermine(a.year, b.year);
    assert s[5] == t[5] && s[6] == t[6];
    DigitInjective(a.month / 10, b.month / 10);
    DigitInjective(a.month % 10, b.month % 10);
    TwoDigitsDetermine(a.month, b.month);
    assert s[8] == t[8] && s[9] == t[9];
    DigitInjective(a.day / 10, b.day / 10);
    DigitInjective(a.day % 10, b.day % 10);
    TwoDigitsDetermine(a.day, b.day);
  }

  /** Different dates have different ISO texts. */
  lemma {:induction false} IsoFormatInjective(m: Day, n: Day)
    requires IsoFormat(m) == IsoFormat(n)
    ensures m == n
  {
    FormatYmdInjective(FromOrdinal(m), FromOrdinal(n));
  }

  /** `str(n)` is made of decimal digits and starts with `0` only for zero. */
  lemma {:induction false} DecimalDigits(n: nat)
    ensures forall i :: 0 <= i < |Decimal(n)| ==> '0' <= Decimal(n)[i] <= '9'
    ensures Decimal(n)[0] == '0' <==> n == 0
  {
    if 10 <= n {
      DecimalDigits(n / 10);
      assert Decimal(n)[0] == Decimal(n / 10)[0];
    }
  }

  /** Different non-negative integers have different decimal texts. */
  lemma {:induction false} DecimalInjective(m: nat, n: nat)
    requires Decimal(m) == Decimal(n)
    ensures m == n
  {
    if 10 <= m && 10 <= n {
      var s, t := Decimal(m), Decimal(n);
      assert s[..|s| - 1] == Decimal(m / 10) && t[..|t| - 1] == Decimal(n / 10);
      DecimalInjective(m / 10, n / 10);
      assert Digit(m % 10) == s[|s| - 1] == t[|t| - 1] == Digit(n % 10);
    } else {
      assert Decimal(m)[0] == Decimal(n)[0];
    }
  }

  /** A four-digit number's decimal text is its four digits, as the year opens an ISO date. */
  lemma DecimalOfFourDigits(v: int)
    requires 1000 <= v < 10000
    ensures Decimal(v) == [Digit(v / 10 / 10 / 10), Digit(v / 10 / 10 % 10), Digit(v / 10 % 10), Digit(v % 10)]
  {
    var v1 := v / 10;
    var v2 := v1 / 10;
    assert Decimal(v) == Decimal(v1) + [Digit(v % 10)];
    assert Decimal(v1) == Decimal(v2) + [Digit(v1 % 10)];
    assert Decimal(v2) == [Digit(v2 / 10), Digit(v2 % 10)];
  }
}
