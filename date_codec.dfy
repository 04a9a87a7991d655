/**
 * The Julian token of a log date (`pad` and `ordinal_date` in utils.py):
 * an age suffix, the two-digit year and the three-digit day of the year.
 */
module DateCodec {
  import opened Strings
  import opened Wrappers

  /** A `datetime` at midnight: the only kind the calendar hands out. */
  datatype Date = Date(year: int, month: int, day: int)

  /** A reading of the clock: a calendar date and the microseconds elapsed since its midnight. */
  datatype Timestamp = Timestamp(date: Date, micros: int)

  predicate IsLeapYear(y: int) {
    y % 4 == 0 && (y % 100 != 0 || y % 400 == 0)
  }

  function DaysInYear(y: int): int {
    if IsLeapYear(y) then 366 else 365
  }

  function DaysInMonth(y: int, m: int): int
    requires 1 <= m <= 12
  {
    if m == 2 then (if IsLeapYear(y) then 29 else 28)
    else if m == 4 || m == 6 || m == 9 || m == 11 then 30
    else 31
  }

  /** The dates `datetime` can represent (years 1 to 9999). */
  predicate ValidDate(d: Date) {
    1 <= d.year <= 9999 && 1 <= d.month <= 12 && 1 <= d.day <= DaysInMonth(d.year, d.month)
  }

  predicate ValidTimestamp(t: Timestamp) {
    ValidDate(t.date) && 0 <= t.micros < 86_400_000_000
  }

  /** Days of the year `y` before the first of month `m` (`m == 13` gives the whole year). */
  function DaysBeforeMonth(y: int, m: int): int
    requires 1 <= m <= 13
  {
    if m == 1 then 0 else DaysBeforeMonth(y, m - 1) + DaysInMonth(y, m - 1)
  }

  function DaysBeforeYear(y: int): int
    requires y >= 1
  {
    var p := y - 1;
    365 * p + p / 4 - p / 100 + p / 400
  }

  /** Proleptic Gregorian day number, 1 for 0001-01-01 (`date.toordinal()`). */
  function Ordinal(d: Date): int
    requires ValidDate(d)
  {
    DaysBeforeYear(d.year) + DaysBeforeMonth(d.year, d.month) + d.day
  }

  /** Position of a timestamp on the time line, in microseconds. */
  function Micros(t: Timestamp): int
    requires ValidDate(t.date)
  {
    Ordinal(t.date) * 86_400_000_000 + t.micros
  }

  /** `d` as a `datetime` at midnight. */
  function Midnight(d: Date): Timestamp {
    Timestamp(d, 0)
  }

  /** `(now - date).days`: `timedelta` normalises to whole days rounded down. */
  function AgeDays(date: Date, now: Timestamp): int
    requires ValidDate(date) && ValidDate(now.date)
  {
    (Micros(now) - Micros(Midnight(date))) / 86_400_000_000
  }

  /** `(date - datetime(date.year, 1, 1)).days + 1`. */
  function DayOfYear(d: Date): int
    requires ValidDate(d)
  {
    AgeDays(Date(d.year, 1, 1), Midnight(d)) + 1
  }

  /** The freshness suffix of a dataset; it changes as the date ages. */
  function AgeSuffix(ageDays: int): string {
    if ageDays <= 5 then "G0" else if ageDays <= 10 then "GZ" else "GY"
  }

  /**
   * `pad(number, width)`: `str(number).zfill(width)`. Zero-padding keeps the
   * value, and a number wider than `width` is never cut.
   */
  function Pad(number: int, width: nat): (r: string)
    ensures |r| == if width <= |Str(number)| then |Str(number)| else width
    ensures number >= 0 ==> AllDigits(r) && DigitsValue(r) == number
    ensures number < 0 ==> r[0] == '-' && AllDigits(r[1..]) && DigitsValue(r[1..]) == -number
  {
    ZFillKeepsValue(number, width);
    ZFill(Str(number), width)
  }

  lemma ZFillKeepsValue(number: int, width: nat)
    ensures var r := ZFill(Str(number), width);
            && |r| == (if width <= |Str(number)| then |Str(number)| else width)
            && (number >= 0 ==> AllDigits(r) && DigitsValue(r) == number)
            && (number < 0 ==> r[0] == '-' && AllDigits(r[1..]) && DigitsValue(r[1..]) == -number)
  {
    if number >= 0 {
      ZFillNatural(number, width);
    } else {
      ZFillNegative(number, width);
    }
  }

  lemma ZFillNatural(n: nat, width: nat)
    ensures var r := ZFill(Str(n), width);
            |r| == (if width <= |Str(n)| then |Str(n)| else width) && AllDigits(r) && DigitsValue(r) == n
  {
    DecimalDigits(n);
    var s := Decimal(n);
    assert Str(n) == s;
    assert s[0] != '+' && s[0] != '-' by { assert IsDigit(s[0]); }
    if |s| < width { LeadingZerosValue(width - |s|, s); }
  }

  lemma ZFillNegative(number: int, width: nat)
    requires number < 0
    ensures var r := ZFill(Str(number), width);
            && |r| == (if width <= |Str(number)| then |Str(number)| else width)
            && r[0] == '-' && AllDigits(r[1..]) && DigitsValue(r[1..]) == -number
  {
    var d := Decimal(-number);
    DecimalDigits(-number);
    assert Str(number) == "-" + d;
    ZFillSigned(d, width);
  }

  /** `zfill` on a negative number's text keeps the sign first and pads the digits after it. */
  lemma ZFillSigned(d: string, width: nat)
    requires AllDigits(d)
    ensures var r := ZFill("-" + d, width);
            && |r| == (if width <= |d| + 1 then |d| + 1 else width)
            && r[0] == '-' && AllDigits(r[1..]) && DigitsValue(r[1..]) == DigitsValue(d)
  {
    var s := "-" + d;
    assert s[0] == '-' && s[1..] == d;
    if |s| < width {
      var z := Zeros(width - |s|);
      LeadingZerosValue(width - |s|, d);
      var r := [s[0]] + z + s[1..];
      assert r[0] == '-';
      assert r[1..] == z + d;
    }
  }

  /** `ordinal_date(date)` evaluated at clock reading `now`. */
  function OrdinalDate(date: Date, now: Timestamp): string
    requires ValidDate(date) && ValidTimestamp(now)
  {
    AgeSuffix(AgeDays(date, now)) + Pad(date.year % 100, 2) + Pad(DayOfYear(date), 3)
  }

  // ---------------------------------------------------------------------------
  // Calendar arithmetic
  // ---------------------------------------------------------------------------

  lemma WholeYear(y: int)
    ensures DaysBeforeMonth(y, 13) == DaysInYear(y)
    ensures DaysBeforeMonth(y, 12) == DaysInYear(y) - 31
  {
    var feb := DaysInMonth(y, 2);
    assert DaysBeforeMonth(y, 2) == 31;
    assert DaysBeforeMonth(y, 3) == 31 + feb;
    assert DaysBeforeMonth(y, 4) == 62 + feb;
    assert DaysBeforeMonth(y, 5) == 92 + feb;
    assert DaysBeforeMonth(y, 6) == 123 + feb;
    assert DaysBeforeMonth(y, 7) == 153 + feb;
    assert DaysBeforeMonth(y, 8) == 184 + feb;
    assert DaysBeforeMonth(y, 9) == 215 + feb;
    assert DaysBeforeMonth(y, 10) == 245 + feb;
    assert DaysBeforeMonth(y, 11) == 276 + feb;
    assert DaysBeforeMonth(y, 12) == 306 + feb;
  }

  lemma DaysBeforeMonthBounds(y: int, m: int)
    requires 1 <= m <= 12
    ensures 0 <= DaysBeforeMonth(y, m)
    ensures DaysBeforeMonth(y, m) + DaysInMonth(y, m) <= DaysInYear(y)
  {
    DaysBeforeMonthGrows(y, 1, m);
    DaysBeforeMonthGrows(y, m + 1, 13);
    WholeYear(y);
  }

  lemma DaysBeforeNextYear(y: int)
    requires y >= 1
    ensures DaysBeforeYear(y + 1) == DaysBeforeYear(y) + DaysInYear(y)
  {
    LeapCounts(y);
    LeapDivisors(y);
  }

  /** Each of the counts `y / 4`, `y / 100`, `y / 400` grows by one exactly at a multiple. */
  lemma LeapCounts(y: int)
    ensures y / 4 - (y - 1) / 4 == (if y % 4 == 0 then 1 else 0)
    ensures y / 100 - (y - 1) / 100 == (if y % 100 == 0 then 1 else 0)
    ensures y / 400 - (y - 1) / 400 == (if y % 400 == 0 then 1 else 0)
  {
  }

  lemma LeapDivisors(y: int)
    ensures y % 400 == 0 ==> y % 100 == 0
    ensures y % 100 == 0 ==> y % 4 == 0
  {
    if y % 400 == 0 { assert y == 400 * (y / 400); assert y == 100 * (4 * (y / 400)); }
    if y % 100 == 0 { assert y == 100 * (y / 100); assert y == 4 * (25 * (y / 100)); }
  }

  /** Whole-day differences between midnights are exact. */
  lemma AgeDaysIsDayDifference(date: Date, now: Timestamp)
    requires ValidDate(date) && ValidTimestamp(now)
    ensures AgeDays(date, now) == Ordinal(now.date) - Ordinal(date)
  {
    var diff := Ordinal(now.date) - Ordinal(date);
    assert Micros(now) - Micros(Midnight(date)) == diff * 86_400_000_000 + now.micros;
  }

  /**
   * The day of the year counts from 1 on January 1 to 365 on December 31,
   * or 366 in a leap year.
   */
  lemma DayOfYearRange(d: Date)
    requires ValidDate(d)
    ensures DayOfYear(d) == DaysBeforeMonth(d.year, d.month) + d.day
    ensures 1 <= DayOfYear(d) <= DaysInYear(d.year)
    ensures d.month == 1 && d.day == 1 ==> DayOfYear(d) == 1
    ensures d.month == 12 && d.day == 31 ==> DayOfYear(d) == DaysInYear(d.year)
    ensures d.month == 12 && d.day == 31 ==> (DayOfYear(d) == 366 <==> IsLeapYear(d.year))
  {
    AgeDaysIsDayDifference(Date(d.year, 1, 1), Midnight(d));
    DaysBeforeMonthBounds(d.year, d.month);
    WholeYear(d.year);
  }

  /** Later in (year, month, day) order means a larger day number. */
  lemma OrdinalMonotone(a: Date, b: Date)
    requires ValidDate(a) && ValidDate(b)
    requires DateBefore(a, b)
    ensures Ordinal(a) < Ordinal(b)
  {
    DaysBeforeMonthBounds(a.year, a.month);
    DaysBeforeMonthBounds(b.year, b.month);
    if a.year < b.year {
      DaysBeforeYearGrows(a.year + 1, b.year);
      DaysBeforeNextYear(a.year);
    } else if a.month < b.month {
      DaysBeforeMonthGrows(a.year, a.month + 1, b.month);
    }
  }

  lemma {:induction false} DaysBeforeYearGrows(y: int, z: int)
    requires 1 <= y <= z
    ensures DaysBeforeYear(y) <= DaysBeforeYear(z)
    decreases z - y
  {
    if y < z {
      DaysBeforeNextYear(y);
      DaysBeforeYearGrows(y + 1, z);
    }
  }

  lemma {:induction false} DaysBeforeMonthGrows(y: int, m: int, n: int)
    requires 1 <= m <= n <= 13
    ensures DaysBeforeMonth(y, m) <= DaysBeforeMonth(y, n)
    decreases n - m
  {
    if m < n { DaysBeforeMonthGrows(y, m + 1, n); }
  }

  /** Strict (year, month, day) order of dates. */
  predicate DateBefore(a: Date, b: Date) {
    a.year < b.year || (a.year == b.year && (a.month < b.month || (a.month == b.month && a.day < b.day)))
  }

  // ---------------------------------------------------------------------------
  // The token
  // ---------------------------------------------------------------------------

  /** The three fields a Julian token is read back into. */
  datatype TokenParts = TokenParts(suffix: string, year2: nat, dayOfYear: nat)

  /** Reads `<suffix><YY><DDD>` back; the inverse of `OrdinalDate` up to the date's century. */
  function ParseToken(tok: string): Option<TokenParts> {
    if |tok| == 7 && tok[..2] in {"G0", "GZ", "GY"} && AllDigits(tok[2..]) then
      assert AllDigits(tok[2..4]) && AllDigits(tok[4..]) by {
        assert forall k :: 0 <= k < 2 ==> tok[2..4][k] == tok[2..][k];
        assert forall k :: 0 <= k < 3 ==> tok[4..][k] == tok[2..][k + 2];
      }
      Some(TokenParts(tok[..2], DigitsValue(tok[2..4]), DigitsValue(tok[4..])))
    else None
  }

  /** A character that may appear in a Julian token. */
  predicate TokenChar(c: char) {
    IsDigit(c) || c == 'G' || c == 'Z' || c == 'Y'
  }

  /**
   * The token is 7 characters long, made of the suffix fixed by the age
   * bands (at most 5 days old, 6 to 10, older), `year % 100` and the day of
   * the year, and reading it back gives exactly those fields.
   */
  lemma TokenRoundTrip(date: Date, now: Timestamp)
    requires ValidDate(date) && ValidTimestamp(now)
    ensures 1 <= DayOfYear(date) <= 366
    ensures |OrdinalDate(date, now)| == 7
    ensures forall k :: 0 <= k < 7 ==> TokenChar(OrdinalDate(date, now)[k])
    ensures ParseToken(OrdinalDate(date, now))
         == Some(TokenParts(AgeSuffix(Ordinal(now.date) - Ordinal(date)), date.year % 100, DayOfYear(date)))
    ensures var age := Ordinal(now.date) - Ordinal(date);
            && (OrdinalDate(date, now)[..2] == "G0" <==> age <= 5)
            && (OrdinalDate(date, now)[..2] == "GZ" <==> 6 <= age <= 10)
            && (OrdinalDate(date, now)[..2] == "GY" <==> age > 10)
  {
    AgeDaysIsDayDifference(date, now);
    DayOfYearRange(date);
    var doy := DayOfYear(date);
    DecimalDigits(date.year % 100);
    DecimalDigits(doy);
    TokenLayout(AgeSuffix(AgeDays(date, now)), Pad(date.year % 100, 2), Pad(doy, 3));
  }

  lemma TokenLayout(suffix: string, yy: string, dd: string)
    requires suffix in {"G0", "GZ", "GY"}
    requires |yy| == 2 && |dd| == 3 && AllDigits(yy) && AllDigits(dd)
    ensures var tok := suffix + yy + dd;
            && |tok| == 7 && tok[..2] == suffix
            && (forall k :: 0 <= k < 7 ==> TokenChar(tok[k]))
            && ParseToken(tok) == Some(TokenParts(suffix, DigitsValue(yy), DigitsValue(dd)))
  {
    var tok := suffix + yy + dd;
    assert tok[..2] == suffix;
    assert tok[2..4] == yy;
    assert tok[4..] == dd;
    assert tok[2..] == yy + dd;
    forall k | 0 <= k < 7 ensures TokenChar(tok[k]) {
      if k < 2 {
        assert tok[k] == suffix[k];
      } else if k < 4 {
        assert tok[k] == yy[k - 2];
      } else {
        assert tok[k] == dd[k - 4];
      }
    }
    assert AllDigits(tok[2..]) by {
      forall k | 0 <= k < 5 ensures IsDigit(tok[2..][k]) {
        assert tok[2..][k] == tok[k + 2];
      }
    }
  }

  /** Re-encoding the same date later changes at most the suffix. */
  lemma TokenTailIgnoresClock(date: Date, now1: Timestamp, now2: Timestamp)
    requires ValidDate(date) && ValidTimestamp(now1) && ValidTimestamp(now2)
    ensures OrdinalDate(date, now1)[2..] == OrdinalDate(date, now2)[2..]
  {
    var tail := Pad(date.year % 100, 2) + Pad(DayOfYear(date), 3);
    assert OrdinalDate(date, now1) == AgeSuffix(AgeDays(date, now1)) + tail;
    assert OrdinalDate(date, now2) == AgeSuffix(AgeDays(date, now2)) + tail;
  }
}
