/**
 * Proleptic Gregorian dates as Python's `datetime.date` has them (years 1 to
 * 9999), stepping by one day, and the parser `datetime.strptime(s,
 * "%Y-%m-%d").date()` used for the `--from-date` argument.
 */
module Calendar {
  import opened Wrappers
  import opened Text

  datatype Date = Date(year: int, month: int, day: int)

  predicate IsLeapYear(y: int) {
    y % 4 == 0 && (y % 100 != 0 || y % 400 == 0)
  }

  function DaysInMonth(y: int, m: int): int
    requires 1 <= m <= 12
  {
    if m == 2 then (if IsLeapYear(y) then 29 else 28)
    else if m == 4 || m == 6 || m == 9 || m == 11 then 30
    else 31
  }

  /** A date `datetime.date` accepts. */
  predicate Valid(d: Date) {
    1 <= d.year <= 9999 && 1 <= d.month <= 12 && 1 <= d.day <= DaysInMonth(d.year, d.month)
  }

  /** `a < b` on dates. */
  predicate Before(a: Date, b: Date) {
    a.year < b.year
    || (a.year == b.year && (a.month < b.month || (a.month == b.month && a.day < b.day)))
  }

  /** `a <= b` on dates. */
  predicate NotAfter(a: Date, b: Date) {
    a == b || Before(a, b)
  }

  /** `d + timedelta(days=1)`; the result is a valid date except after 9999-12-31. */
  function NextDay(d: Date): (n: Date)
    requires Valid(d)
    ensures Before(d, n)
    ensures d.year < 9999 ==> Valid(n)
  {
    if d.day < DaysInMonth(d.year, d.month) then Date(d.year, d.month, d.day + 1)
    else if d.month < 12 then Date(d.year, d.month + 1, 1)
    else Date(d.year + 1, 1, 1)
  }

  /** `d - timedelta(days=1)`, defined for every valid date after 0001-01-01. */
  function PrevDay(d: Date): (p: Date)
    requires Valid(d) && d != Date(1, 1, 1)
    ensures Valid(p) && Before(p, d)
  {
    if d.day > 1 then Date(d.year, d.month, d.day - 1)
    else if d.month > 1 then Date(d.year, d.month - 1, DaysInMonth(d.year, d.month - 1))
    else Date(d.year - 1, 12, 31)
  }

  /** Stepping forward and then back returns to the same day. */
  lemma PrevOfNext(d: Date)
    requires Valid(d) && d.year < 9999
    ensures NextDay(d) != Date(1, 1, 1) && PrevDay(NextDay(d)) == d
  {
  }

  /** No valid date lies strictly between `d` and the day after it. */
  lemma NothingBetween(d: Date, x: Date)
    requires Valid(d) && Valid(x)
    ensures Before(x, NextDay(d)) <==> NotAfter(x, d)
  {
  }

  /** Days from 0001-01-01, so that 0001-01-01 is day 0. */
  function DaysBeforeYear(y: int): int {
    var k := y - 1;
    k * 365 + k / 4 - k / 100 + k / 400
  }

  function DaysBeforeMonth(y: int, m: int): int
    requires 1 <= m <= 12
  {
    if m == 1 then 0 else DaysBeforeMonth(y, m - 1) + DaysInMonth(y, m - 1)
  }

  /** Python's `d.toordinal() - 1`: the number of days since 0001-01-01. */
  function DayNumber(d: Date): int
    requires Valid(d)
  {
    DaysBeforeYear(d.year) + DaysBeforeMonth(d.year, d.month) + d.day - 1
  }

  /** A year has 366 days exactly when it is a leap year. */
  lemma YearLength(y: int)
    ensures DaysBeforeYear(y + 1) - DaysBeforeYear(y) == if IsLeapYear(y) then 366 else 365
  {
    DivStep(y, 4);
    DivStep(y, 100);
    DivStep(y, 400);
  }

  /** Going from `y - 1` to `y` passes a multiple of `n` exactly when `y` is one. */
  lemma DivStep(y: int, n: int)
    requires n == 4 || n == 100 || n == 400
    ensures y / n - (y - 1) / n == if y % n == 0 then 1 else 0
  {
    if n == 4 {
      assert y / 4 - (y - 1) / 4 == if y % 4 == 0 then 1 else 0;
    } else if n == 100 {
      assert y / 100 - (y - 1) / 100 == if y % 100 == 0 then 1 else 0;
    } else {
      assert y / 400 - (y - 1) / 400 == if y % 400 == 0 then 1 else 0;
    }
  }

  /** The next day is numbered one higher. */
  lemma {:induction false} DayNumberNext(d: Date)
    requires Valid(d) && d.year < 9999
    ensures DayNumber(NextDay(d)) == DayNumber(d) + 1
  {
    if d.day == DaysInMonth(d.year, d.month) && d.month == 12 {
      YearLength(d.year);
      var y := d.year;
      var feb := DaysInMonth(y, 2);
      assert DaysBeforeMonth(y, 2) == 31;
      assert DaysBeforeMonth(y, 3) == 31 + feb;
      assert DaysBeforeMonth(y, 4) == 62 + feb;
      assert DaysBeforeMonth(y, 5) == 92 + feb;
      assert DaysBeforeMonth(y, 6) == 123 + feb;
      assert DaysBeforeMonth(y, 7) == 153 + feb;
      assert DaysBeforeMonth(y, 8) == 184 + feb;
      assert DaysBeforeMonth(y, 9) == 215 + feb;
      assert DaysBeforeMonth(y, 10) == 245 + feb;
      assert DaysBeforeMonth(y, 11) == 276 + feb;
      assert DaysBeforeMonth(y, 12) == 306 + feb;
    }
  }

  /** `%m` of `strptime`: `1[0-2]|0[1-9]|[1-9]`. */
  predicate IsMonthToken(t: string) {
    (|t| == 1 && '1' <= t[0] <= '9')
    || (|t| == 2 && ((t[0] == '0' && '1' <= t[1] <= '9') || (t[0] == '1' && '0' <= t[1] <= '2')))
  }

  /** `%d` of `strptime`: `3[01]|[12]\d|0[1-9]|[1-9]| [1-9]`. */
  predicate IsDayToken(t: string) {
    (|t| == 1 && '1' <= t[0] <= '9')
    || (|t| == 2 && ((t[0] == '0' && '1' <= t[1] <= '9')
                     || ((t[0] == '1' || t[0] == '2') && IsDigit(t[1]))
                     || (t[0] == '3' && (t[1] == '0' || t[1] == '1'))
                     || (t[0] == ' ' && '1' <= t[1] <= '9')))
  }

  /** The value of a `%m` or `%d` token; a leading space is ignored. */
  function TokenValue(t: string): nat
    requires IsMonthToken(t) || IsDayToken(t)
  {
    if t[0] == ' ' then DecimalValue(t[1..]) else DecimalValue(t)
  }

  /**
   * `datetime.strptime(s, "%Y-%m-%d").date()`: four digits, a dash, a month
   * token, a dash and a day token filling the whole string, naming a date
   * that exists; `None` where Python raises `ValueError`.
   */
  function ParseIsoDate(s: string): (r: Option<Date>)
    ensures r.Some? ==> Valid(r.value)
  {
    if |s| < 5 || !AllDigits(s[..4]) || s[4] != '-' then None
    else
      var parts := Split(s[5..], '-');
      if |parts| != 2 || !IsMonthToken(parts[0]) || !IsDayToken(parts[1]) then None
      else
        var d := Date(DecimalValue(s[..4]), TokenValue(parts[0]), TokenValue(parts[1]));
        if Valid(d) then Some(d) else None
  }

  /** Two zero-padded digits. */
  function Pad2(n: nat): (s: string)
    requires n < 100
    ensures |s| == 2 && AllDigits(s) && DecimalValue(s) == n
  {
    var digits := [DigitChar(n / 10), DigitChar(n % 10)];
    assert digits[..1] == [DigitChar(n / 10)] && digits[..1][..0] == [];
    assert DecimalValue(digits[..1]) == n / 10;
    assert n == (n / 10) * 10 + n % 10;
    digits
  }

  /** Four zero-padded digits. */
  function Pad4(n: nat): (s: string)
    requires n < 10000
    ensures |s| == 4 && AllDigits(s) && DecimalValue(s) == n
  {
    var hi := Pad2(n / 100);
    var lo := Pad2(n % 100);
    DecimalValueConcat(hi, lo);
    assert Pow10(2) == 100;
    assert n == (n / 100) * 100 + n % 100;
    hi + lo
  }

  /** `d.isoformat()`: `YYYY-MM-DD`. */
  function FormatIsoDate(d: Date): (s: string)
    requires Valid(d)
    ensures |s| == 10
  {
    Pad4(d.year) + "-" + Pad2(d.month) + "-" + Pad2(d.day)
  }

  /** The date parser reads back every date written in ISO format. */
  lemma ParseFormat(d: Date)
    requires Valid(d)
    ensures ParseIsoDate(FormatIsoDate(d)) == Some(d)
  {
    var s := FormatIsoDate(d);
    var m := Pad2(d.month);
    var dd := Pad2(d.day);
    assert s[..4] == Pad4(d.year);
    assert s[5..] == m + ['-'] + dd;
    assert '-' !in m && '-' !in dd;
    SplitAtFirst(m, '-', dd);
    SplitWithoutSep(dd, '-');
    assert Split(s[5..], '-') == [m, dd];
  }
}
