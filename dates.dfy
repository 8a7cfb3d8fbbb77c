/**
  Calendar days as the pages see them through JavaScript's `Date`: a
  year, a month index 0..11 and a day of the month, the proleptic
  Gregorian month lengths, the weekday (`getDay`, Sunday = 0), and the
  `YYYY-MM-DD` key (`toISOString().split('T')[0]`) with its parser
  (`new Date("YYYY-MM-DD")`).
*/
module Dates {
  import opened Common

  datatype Day = Day(year: int, month: int, day: int)

  predicate IsLeap(y: int)
  {
    y % 4 == 0 && (y % 100 != 0 || y % 400 == 0)
  }

  /** The number of days in month `m` (0 = January) of year `y`. */
  function DaysInMonth(y: int, m: int): (n: int)
    requires 0 <= m < 12
    ensures 28 <= n <= 31
    ensures n == 29 <==> m == 1 && IsLeap(y)
    ensures n == 28 <==> m == 1 && !IsLeap(y)
  {
    if m == 1 then (if IsLeap(y) then 29 else 28)
    else if m == 3 || m == 5 || m == 8 || m == 10 then 30
    else 31
  }

  predicate ValidDay(d: Day)
  {
    0 <= d.month < 12 && 1 <= d.day <= DaysInMonth(d.year, d.month)
  }

  /** Leap years among 1..y (negative counts below year 1). */
  function LeapsThrough(y: int): int
  {
    y / 4 - y / 100 + y / 400
  }

  lemma LeapsStep(y: int)
    ensures LeapsThrough(y) - LeapsThrough(y - 1) == if IsLeap(y) then 1 else 0
  {
    DivStep(y, 4);
    DivStep(y, 100);
    DivStep(y, 400);
    CenturyDivisors(y);
  }

  lemma CenturyDivisors(y: int)
    ensures y % 100 == 0 ==> y % 4 == 0
    ensures y % 400 == 0 ==> y % 100 == 0
  {
    if y % 100 == 0 {
      DivUnique(y, 4, 25 * (y / 100));
    }
    if y % 400 == 0 {
      DivUnique(y, 100, 4 * (y / 400));
    }
  }

  /** Going from `y - 1` to `y` raises the quotient by `k` exactly when `k` divides `y`. */
  lemma DivStep(y: int, k: int)
    requires k > 0
    ensures y / k - (y - 1) / k == if y % k == 0 then 1 else 0
  {
    var q := (y - 1) / k;
    assert k * q <= y - 1 < k * q + k;
    assert k * (q + 1) == k * q + k;
    if y == k * q + k {
      DivUnique(y, k, q + 1);
    } else {
      DivUnique(y, k, q);
    }
  }

  /** Days from 1 January 1970 to 1 January of year `y`. */
  function DaysBeforeYear(y: int): int
  {
    365 * (y - 1970) + LeapsThrough(y - 1) - LeapsThrough(1969)
  }

  /** Days from 1 January to the first of month `m`. */
  function DaysBeforeMonth(y: int, m: int): (n: int)
    requires 0 <= m <= 12
  {
    [0, 31, 59, 90, 120, 151, 181, 212, 243, 273, 304, 334, 365][m]
      + (if m > 1 && IsLeap(y) then 1 else 0)
  }

  /** Days since 1 January 1970 (negative before it). */
  function Ordinal(d: Day): int
    requires 0 <= d.month < 12
  {
    DaysBeforeYear(d.year) + DaysBeforeMonth(d.year, d.month) + d.day - 1
  }

  /** `getDay()`: 0 for Sunday … 6 for Saturday; 1 January 1970 was a Thursday. */
  function Weekday(d: Day): (w: int)
    requires 0 <= d.month < 12
    ensures 0 <= w < 7
  {
    (Ordinal(d) + 4) % 7
  }

  /** The month after month `m` of year `y`, rolling over into January. */
  function NextMonth(y: int, m: int): (r: (int, int))
    requires 0 <= m < 12
    ensures 0 <= r.1 < 12
  {
    if m == 11 then (y + 1, 0) else (y, m + 1)
  }

  /** The first day of a month comes exactly one month length after the first day of the month before. */
  lemma FirstOfNextMonth(y: int, m: int)
    requires 0 <= m < 12
    ensures Ordinal(Day(NextMonth(y, m).0, NextMonth(y, m).1, 1)) == Ordinal(Day(y, m, 1)) + DaysInMonth(y, m)
  {
    if m == 11 {
      LeapsStep(y);
    }
  }

  /** So the weekday of the first of the next month advances by the month's length. */
  lemma WeekdayOfNextMonth(y: int, m: int)
    requires 0 <= m < 12
    ensures Weekday(Day(NextMonth(y, m).0, NextMonth(y, m).1, 1)) == (Weekday(Day(y, m, 1)) + DaysInMonth(y, m)) % 7
  {
    FirstOfNextMonth(y, m);
    ShiftMod7(Ordinal(Day(y, m, 1)) + 4, DaysInMonth(y, m));
  }

  lemma ShiftMod7(a: int, n: int)
    ensures (a + n) % 7 == (a % 7 + n) % 7
  {
    assert a + n == 7 * (a / 7) + (a % 7 + n);
  }

  /** Consecutive days of a month have consecutive ordinals. */
  lemma OrdinalWithinMonth(d: Day, k: int)
    requires ValidDay(d) && 1 <= d.day + k <= DaysInMonth(d.year, d.month)
    ensures Ordinal(Day(d.year, d.month, d.day + k)) == Ordinal(d) + k
  {
  }

  // ------------------------------------------------------------ YYYY-MM-DD

  /** `String(n).padStart(4, '0')` for a number below 10000. */
  function Pad4(n: nat): (r: string)
    requires n < 10000
    ensures |r| == 4 && AllDigits(r) && DigitsValue(r) == n
  {
    var q1 := n / 10;
    var q2 := q1 / 10;
    var r := [DigitChar(q2 / 10), DigitChar(q2 % 10), DigitChar(q1 % 10), DigitChar(n % 10)];
    assert r[..3][..2][..1][..0] == [];
    assert r[..3][..2][..1] == r[..1] && r[..3][..2] == r[..2];
    assert DigitsValue(r[..1]) == q2 / 10;
    assert DigitsValue(r[..2]) == q2;
    assert DigitsValue(r[..3]) == q1;
    r
  }

  /** The `YYYY-MM-DD` key of a day of years 0..9999. */
  function IsoKey(d: Day): (s: string)
    requires ValidDay(d) && 0 <= d.year < 10000
    ensures |s| == 10 && s[4] == '-' && s[7] == '-'
  {
    Pad4(d.year) + "-" + Pad2(d.month + 1) + "-" + Pad2(d.day)
  }

  lemma Pad4Of2025()
    ensures Pad4(2025) == "2025"
  {
    assert 2025 / 10 == 202 && 202 / 10 == 20;
  }

  predicate IsoShape(s: string)
  {
    |s| == 10 && s[4] == '-' && s[7] == '-'
    && IsDigit(s[0]) && IsDigit(s[1]) && IsDigit(s[2]) && IsDigit(s[3])
    && IsDigit(s[5]) && IsDigit(s[6]) && IsDigit(s[8]) && IsDigit(s[9])
    && AllDigits(s[..4]) && AllDigits(s[5..7]) && AllDigits(s[8..])
  }

  /**
    `new Date("YYYY-MM-DD")` reduced to its calendar day; None stands for an
    Invalid Date (wrong shape, month outside 1..12 or day outside the month).
  */
  function ParseIsoDay(s: string): (r: Option<Day>)
    ensures r.Some? ==> ValidDay(r.value) && 0 <= r.value.year < 10000
  {
    if !IsoShape(s) then None
    else
      var y := DigitsValue(s[..4]);
      var m := DigitsValue(s[5..7]);
      var d := DigitsValue(s[8..]);
      assert Pow10(4) == 10000;
      if 1 <= m <= 12 && 1 <= d <= DaysInMonth(y, m - 1) then Some(Day(y, m - 1, d)) else None
  }

  /** Every day's key parses back to that day. */
  lemma ParseIsoKey(d: Day)
    requires ValidDay(d) && 0 <= d.year < 10000
    ensures ParseIsoDay(IsoKey(d)) == Some(d)
  {
    IsoKeyParts(d);
    ParseOfParts(IsoKey(d), d.year, d.month + 1, d.day);
  }

  /** The three numerals of a key and the dashes between them. */
  lemma IsoKeyParts(d: Day)
    requires ValidDay(d) && 0 <= d.year < 10000
    ensures var s := IsoKey(d);
      |s| == 10 && s[4] == '-' && s[7] == '-'
      && s[..4] == Pad4(d.year) && s[5..7] == Pad2(d.month + 1) && s[8..] == Pad2(d.day)
  {
    var s, y, m, dd := IsoKey(d), Pad4(d.year), Pad2(d.month + 1), Pad2(d.day);
    assert s == y + "-" + m + "-" + dd;
    assert s[..4] == y;
    assert s[5..7] == m;
    assert s[8..] == dd;
  }

  /** A string with the key's shape parses to the day its numerals name, when that day exists. */
  lemma ParseOfParts(s: string, y: nat, m: nat, dd: nat)
    requires |s| == 10 && s[4] == '-' && s[7] == '-'
    requires AllDigits(s[..4]) && AllDigits(s[5..7]) && AllDigits(s[8..])
    requires DigitsValue(s[..4]) == y && DigitsValue(s[5..7]) == m && DigitsValue(s[8..]) == dd
    requires 1 <= m <= 12 && 1 <= dd <= DaysInMonth(y, m - 1)
    ensures ParseIsoDay(s) == Some(Day(y, m - 1, dd))
  {
    assert s[..4][0] == s[0] && s[..4][1] == s[1] && s[..4][2] == s[2] && s[..4][3] == s[3];
    assert s[5..7][0] == s[5] && s[5..7][1] == s[6] && s[8..][0] == s[8] && s[8..][1] == s[9];
    assert IsoShape(s);
  }

  /** A string that parses is exactly the key of the day it denotes. */
  lemma IsoKeyOfParsed(s: string)
    requires ParseIsoDay(s).Some?
    ensures IsoKey(ParseIsoDay(s).value) == s
  {
    var d := ParseIsoDay(s).value;
    ParsedNumerals(s);
    KeyOfParts(s, Pad4(d.year), Pad2(d.month + 1), Pad2(d.day));
  }

  /** The numerals of a key that parses are the padded numerals of the day it names. */
  lemma ParsedNumerals(s: string)
    requires ParseIsoDay(s).Some?
    ensures var d := ParseIsoDay(s).value;
      |s| == 10 && s[4] == '-' && s[7] == '-'
      && s[..4] == Pad4(d.year) && s[5..7] == Pad2(d.month + 1) && s[8..] == Pad2(d.day)
  {
    var d := ParseIsoDay(s).value;
    DigitsValueInjective(Pad4(d.year), s[..4]);
    DigitsValueInjective(Pad2(d.month + 1), s[5..7]);
    DigitsValueInjective(Pad2(d.day), s[8..]);
  }

  /** A ten-character string with dashes at 4 and 7 is its three numerals joined by dashes. */
  lemma KeyOfParts(s: string, y: string, m: string, d: string)
    requires |s| == 10 && s[4] == '-' && s[7] == '-'
    requires s[..4] == y && s[5..7] == m && s[8..] == d
    ensures y + "-" + m + "-" + d == s
  {
    assert s == s[..4] + "-" + s[5..7] + "-" + s[8..];
  }
}
