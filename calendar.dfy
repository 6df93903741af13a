/**
 * Calendar days, the `%Y%m%d` stamp of a day, the day of a timestamp and the
 * successor of a day. A day is its ordinal number in the proleptic Gregorian
 * calendar, day 0 being 0001-01-01; the model's calendar ends on 9999-12-31,
 * the last day whose year has four digits.
 */
module Calendar {
  import opened Base

  /** Nanoseconds in 24 hours. */
  const NsPerDay: int := 86_400_000_000_000

  /** Ordinal of 9999-12-31. */
  const MaxDay: int := 3_652_058

  /** Ordinal of 1970-01-01, the day of timestamp 0. */
  const UnixEpochDay: int := 719_162

  type Date = d: int | 0 <= d <= MaxDay

  datatype Civil = Civil(year: int, month: int, day: int)

  predicate IsLeap(y: int)
  {
    y % 4 == 0 && (y % 100 != 0 || y % 400 == 0)
  }

  function DaysInYear(y: int): int
  {
    if IsLeap(y) then 366 else 365
  }

  /** Days from 0001-01-01 to the first day of year `y`. */
  function DaysBeforeYear(y: int): int
    requires y >= 1
  {
    var x := y - 1;
    365 * x + x / 4 - x / 100 + x / 400
  }

  function DaysInMonth(y: int, m: int): int
    requires 1 <= m <= 12
  {
    if m == 2 then (if IsLeap(y) then 29 else 28)
    else if m == 4 || m == 6 || m == 9 || m == 11 then 30
    else 31
  }

  /** Days from the first day of year `y` to the first day of month `m`. */
  function DaysBeforeMonth(y: int, m: int): int
    requires 1 <= m <= 12
  {
    var base :=
      if m == 1 then 0 else if m == 2 then 31 else if m == 3 then 59
      else if m == 4 then 90 else if m == 5 then 120 else if m == 6 then 151
      else if m == 7 then 181 else if m == 8 then 212 else if m == 9 then 243
      else if m == 10 then 273 else if m == 11 then 304 else 334;
    if m > 2 && IsLeap(y) then base + 1 else base
  }

  predicate ValidCivil(c: Civil)
  {
    1 <= c.year <= 9999 && 1 <= c.month <= 12 && 1 <= c.day <= DaysInMonth(c.year, c.month)
  }

  /** The ordinal of a year/month/day triple. */
  function FromCivil(c: Civil): int
    requires c.year >= 1 && 1 <= c.month <= 12
  {
    DaysBeforeYear(c.year) + DaysBeforeMonth(c.year, c.month) + c.day - 1
  }

  lemma DaysBeforeNextYear(y: int)
    requires y >= 1
    ensures DaysBeforeYear(y + 1) == DaysBeforeYear(y) + DaysInYear(y)
  {
    var x := y - 1;
    assert y / 4 == x / 4 + (if y % 4 == 0 then 1 else 0);
    assert y / 100 == x / 100 + (if y % 100 == 0 then 1 else 0);
    assert y / 400 == x / 400 + (if y % 400 == 0 then 1 else 0);
    assert y % 400 == 0 ==> y % 100 == 0;
    assert y % 100 == 0 ==> y % 4 == 0;
  }

  lemma {:induction false} DaysBeforeYearMonotone(a: int, b: int)
    requires 1 <= a <= b
    ensures DaysBeforeYear(a) <= DaysBeforeYear(b)
    decreases b - a
  {
    if a < b {
      DaysBeforeNextYear(a);
      DaysBeforeYearMonotone(a + 1, b);
    }
  }

  /** Splits `n` days counted from the start of year `y` into a year and a day of that year. */
  function YearSplit(y: int, n: nat): (r: (int, nat))
    requires y >= 1
    ensures r.0 >= y && r.1 < DaysInYear(r.0)
    ensures DaysBeforeYear(r.0) + r.1 == DaysBeforeYear(y) + n
    decreases n
  {
    if n < DaysInYear(y) then (y, n)
    else
      DaysBeforeNextYear(y);
      YearSplit(y + 1, n - DaysInYear(y))
  }

  /** Splits `n` days counted from the start of month `m` of year `y` into a month and a day of that month. */
  function MonthSplit(y: int, m: int, n: nat): (r: (int, nat))
    requires 1 <= m <= 12
    requires DaysBeforeMonth(y, m) + n < DaysInYear(y)
    ensures m <= r.0 <= 12 && r.1 < DaysInMonth(y, r.0)
    ensures DaysBeforeMonth(y, r.0) + r.1 == DaysBeforeMonth(y, m) + n
    decreases 12 - m
  {
    if m == 12 || n < DaysInMonth(y, m) then (m, n)
    else MonthSplit(y, m + 1, n - DaysInMonth(y, m))
  }

  /** The year, month and day of an ordinal day. */
  function ToCivil(d: Date): (c: Civil)
    ensures ValidCivil(c)
    ensures FromCivil(c) == d
  {
    var (y, r) := YearSplit(1, d);
    if y > 9999 then
      DaysBeforeYearMonotone(10000, y);
      assert false;
      Civil(0, 0, 0)
    else
      var (m, k) := MonthSplit(y, 1, r);
      Civil(y, m, k + 1)
  }

  function Pow10(w: nat): (p: nat)
    ensures p >= 1
  {
    if w == 0 then 1 else 10 * Pow10(w - 1)
  }

  function DigitChar(v: int): char
    requires 0 <= v < 10
  {
    ('0' as int + v) as char
  }

  function DigitValue(c: char): int
  {
    c as int - '0' as int
  }

  /** The last `w` decimal digits of `v`, zero-padded to width `w`. */
  function Digits(v: nat, w: nat): (s: seq<char>)
    ensures |s| == w
    ensures forall i :: 0 <= i < w ==> '0' <= s[i] <= '9'
  {
    if w == 0 then [] else Digits(v / 10, w - 1) + [DigitChar(v % 10)]
  }

  /** The value of a string of decimal digits. */
  function Number(s: seq<char>): int
  {
    if s == [] then 0 else 10 * Number(s[..|s| - 1]) + DigitValue(s[|s| - 1])
  }

  lemma {:induction false} NumberOfDigits(v: nat, w: nat)
    requires v < Pow10(w)
    ensures Number(Digits(v, w)) == v
  {
    if w > 0 {
      NumberOfDigits(v / 10, w - 1);
      var s := Digits(v, w);
      assert s[..|s| - 1] == Digits(v / 10, w - 1);
    }
  }

  /** The `%Y%m%d` rendering of a day. */
  function Stamp(d: Date): (s: seq<char>)
    ensures |s| == 8
    ensures forall i :: 0 <= i < 8 ==> '0' <= s[i] <= '9'
  {
    var c := ToCivil(d);
    Digits(c.year, 4) + Digits(c.month, 2) + Digits(c.day, 2)
  }

  /** Reads a day back from its `%Y%m%d` rendering; `None` for a string that renders no day. */
  function ParseStamp(s: seq<char>): Option<int>
  {
    if |s| != 8 then None
    else
      var c := Civil(Number(s[..4]), Number(s[4..6]), Number(s[6..]));
      if ValidCivil(c) then Some(FromCivil(c)) else None
  }

  /** The three fields of a `%Y%m%d` string are where they were put. */
  lemma StampSlices(y: seq<char>, m: seq<char>, d: seq<char>)
    requires |y| == 4 && |m| == 2 && |d| == 2
    ensures var s := y + m + d; s[..4] == y && s[4..6] == m && s[6..] == d
  {
  }

  /** The three fields of a `%Y%m%d` string read back as the numbers they render. */
  lemma FieldsRoundTrip(y: nat, m: nat, d: nat)
    requires y < 10000 && m < 100 && d < 100
    ensures var s := Digits(y, 4) + Digits(m, 2) + Digits(d, 2);
      Number(s[..4]) == y && Number(s[4..6]) == m && Number(s[6..]) == d
  {
    assert Pow10(2) == 100 && Pow10(4) == 10000;
    NumberOfDigits(y, 4);
    NumberOfDigits(m, 2);
    NumberOfDigits(d, 2);
    StampSlices(Digits(y, 4), Digits(m, 2), Digits(d, 2));
  }

  /** Parsing a stamp gives back the day it was made from. */
  lemma ParseStampOfStamp(d: Date)
    ensures ParseStamp(Stamp(d)) == Some(d)
  {
    var c := ToCivil(d);
    var s := Stamp(d);
    FieldsRoundTrip(c.year, c.month, c.day);
    assert Civil(Number(s[..4]), Number(s[4..6]), Number(s[6..])) == c;
  }

  /** Distinct days have distinct stamps. */
  lemma StampInjective(a: Date, b: Date)
    requires Stamp(a) == Stamp(b)
    ensures a == b
  {
    ParseStampOfStamp(a);
    ParseStampOfStamp(b);
  }

  /** The calendar day of a timestamp in nanoseconds since 1970-01-01T00:00:00Z (floor division). */
  function DayOf(ts: int): (d: int)
    ensures (d - UnixEpochDay) * NsPerDay <= ts < (d - UnixEpochDay + 1) * NsPerDay
  {
    UnixEpochDay + ts / NsPerDay
  }

  lemma DayOfMonotone(s: int, t: int)
    requires s <= t
    ensures DayOf(s) <= DayOf(t)
  {
  }

  /** A timestamp advanced by `k` whole days and a part of a day that stays within its day falls `k` days later. */
  lemma DayOfAdvance(ts: int, k: int, r: int)
    requires 0 <= r && ts % NsPerDay + r < NsPerDay
    ensures DayOf(ts + k * NsPerDay + r) == DayOf(ts) + k
  {
    var q := ts / NsPerDay;
    var m := ts % NsPerDay;
    assert ts + k * NsPerDay + r == (q + k) * NsPerDay + (m + r);
  }

  /** The next day, if the calendar has one. */
  function Succ(d: Date): (r: Option<Date>)
    ensures r.Some? <==> d < MaxDay
    ensures r.Some? ==> r.value == d + 1
  {
    if d < MaxDay then Some(d + 1) else None
  }
}
