/**
 ISO dates and cost ranges (src/security/dates.ts), with the time arithmetic of section 21.4.1 of
 ECMA-262 in whole days since 1970-01-01.
 */
module Dates {
  import opened Wrappers
  import opened JsText

  const HYPHEN: CodeUnit := 0x2D
  const MS_PER_DAY := 86_400_000

  function DigitValue(u: CodeUnit): int { u - 0x30 }

  function DigitUnit(n: int): CodeUnit
    requires 0 <= n < 10
  {
    0x30 + n
  }

  /** `/^\d{4}-\d{2}-\d{2}$/`. */
  predicate IsDateText(t: Text) {
    && |t| == 10
    && IsDigit(t[0]) && IsDigit(t[1]) && IsDigit(t[2]) && IsDigit(t[3]) && t[4] == HYPHEN
    && IsDigit(t[5]) && IsDigit(t[6]) && t[7] == HYPHEN && IsDigit(t[8]) && IsDigit(t[9])
  }

  function YearOf(t: Text): int
    requires IsDateText(t)
  {
    DigitValue(t[0]) * 1000 + DigitValue(t[1]) * 100 + DigitValue(t[2]) * 10 + DigitValue(t[3])
  }

  function MonthOf(t: Text): int
    requires IsDateText(t)
  {
    DigitValue(t[5]) * 10 + DigitValue(t[6])
  }

  function DayOf(t: Text): int
    requires IsDateText(t)
  {
    DigitValue(t[8]) * 10 + DigitValue(t[9])
  }

  // ----- the proleptic Gregorian calendar

  predicate IsLeap(y: int) {
    y % 4 == 0 && (y % 100 != 0 || y % 400 == 0)
  }

  function DaysInMonth(y: int, m: int): int
    requires 1 <= m <= 12
  {
    if m == 2 then (if IsLeap(y) then 29 else 28)
    else if m == 4 || m == 6 || m == 9 || m == 11 then 30
    else 31
  }

  predicate ValidDate(y: int, m: int, d: int) {
    1 <= m <= 12 && 1 <= d <= DaysInMonth(y, m)
  }

  /** The days of the year before month `m`; month 13 is the end of the year. */
  function DaysBeforeMonth(y: int, m: int): int
    requires 1 <= m <= 13
  {
    if m == 1 then 0 else DaysBeforeMonth(y, m - 1) + DaysInMonth(y, m - 1)
  }

  // ----- ECMA-262 day numbers

  function DayFromYear(y: int): int {
    365 * (y - 1970) + (y - 1969) / 4 - (y - 1901) / 100 + (y - 1601) / 400
  }

  /** MakeDay, for a month in range; the day may overflow the month. */
  function MakeDay(y: int, m: int, d: int): int
    requires 1 <= m <= 12
  {
    DayFromYear(y) + DaysBeforeMonth(y, m) + d - 1
  }

  /** YearFromTime, MonthFromTime and DateFromTime of a day number. */
  predicate IsCivil(day: int, y: int, m: int, d: int) {
    && DayFromYear(y) <= day < DayFromYear(y + 1)
    && 1 <= m <= 12
    && DaysBeforeMonth(y, m) <= day - DayFromYear(y) < DaysBeforeMonth(y, m + 1)
    && d == day - DayFromYear(y) - DaysBeforeMonth(y, m) + 1
  }

  lemma FloorStep(n: int, k: int)
    requires k > 0
    ensures (n + 1) / k - n / k == if (n + 1) % k == 0 then 1 else 0
  {
    var q, r := n / k, n % k;
    assert n == q * k + r && 0 <= r < k;
    if r == k - 1 {
      assert n + 1 == (q + 1) * k;
      QuotientIs(n + 1, k, q + 1, 0);
    } else {
      QuotientIs(n + 1, k, q, r + 1);
    }
  }

  lemma QuotientIs(n: int, k: int, q: int, r: int)
    requires k > 0 && n == q * k + r && 0 <= r < k
    ensures n / k == q && n % k == r
  {
    var e := n / k - q;
    assert n == (n / k) * k + n % k;
    assert e * k == r - n % k;
    assert e >= 1 ==> e * k >= k;
    assert e <= -1 ==> e * k <= -k;
  }

  lemma YearLength(y: int)
    ensures DayFromYear(y + 1) == DayFromYear(y) + if IsLeap(y) then 366 else 365
  {
    FloorStep(y - 1969, 4);
    FloorStep(y - 1901, 100);
    FloorStep(y - 1601, 400);
    assert (y - 1968) % 4 == 0 <==> y % 4 == 0;
    assert (y - 1900) % 100 == 0 <==> y % 100 == 0;
    assert (y - 1600) % 400 == 0 <==> y % 400 == 0;
    assert y % 400 == 0 ==> y % 100 == 0;
    assert y % 100 == 0 ==> y % 4 == 0;
  }

  lemma {:induction false} LaterYearStartsLater(y: int, z: int)
    requires y < z
    ensures DayFromYear(y + 1) <= DayFromYear(z)
    decreases z - y
  {
  }

  lemma MonthStarts(y: int)
    ensures DaysBeforeMonth(y, 1) == 0 && DaysBeforeMonth(y, 2) == 31
    ensures var f := if IsLeap(y) then 29 else 28;
            && DaysBeforeMonth(y, 3) == 31 + f && DaysBeforeMonth(y, 4) == 62 + f && DaysBeforeMonth(y, 5) == 92 + f
            && DaysBeforeMonth(y, 6) == 123 + f && DaysBeforeMonth(y, 7) == 153 + f && DaysBeforeMonth(y, 8) == 184 + f
            && DaysBeforeMonth(y, 9) == 215 + f && DaysBeforeMonth(y, 10) == 245 + f
            && DaysBeforeMonth(y, 11) == 276 + f
            && DaysBeforeMonth(y, 12) == 306 + f && DaysBeforeMonth(y, 13) == 337 + f
  {
  }

  /** A day number has at most one calendar date. */
  lemma CivilUnique(day: int, y: int, m: int, d: int, z: int, n: int, e: int)
    requires IsCivil(day, y, m, d) && IsCivil(day, z, n, e)
    ensures y == z && m == n && d == e
  {
    if y < z {
      LaterYearStartsLater(y, z);
    } else if z < y {
      LaterYearStartsLater(z, y);
    } else {
      MonthStarts(y);
    }
  }

  /** A valid date is the calendar date of its day number, and only a valid one is. */
  lemma ValidIffCivil(y: int, m: int, d: int)
    requires 1 <= m <= 12
    ensures IsCivil(MakeDay(y, m, d), y, m, d) <==> ValidDate(y, m, d)
  {
    MonthStarts(y);
    YearLength(y);
    assert DaysBeforeMonth(y, m + 1) == DaysBeforeMonth(y, m) + DaysInMonth(y, m);
  }

  /** The date after a date, and the date before it. */
  function NextDate(y: int, m: int, d: int): (int, int, int)
    requires 1 <= m <= 12
  {
    if d < DaysInMonth(y, m) then (y, m, d + 1) else if m < 12 then (y, m + 1, 1) else (y + 1, 1, 1)
  }

  function PreviousDate(y: int, m: int, d: int): (int, int, int)
    requires 1 <= m <= 12
  {
    if d > 1 then (y, m, d - 1) else if m > 1 then (y, m - 1, DaysInMonth(y, m - 1)) else (y - 1, 12, 31)
  }

  lemma NextDateIsCivil(day: int, y: int, m: int, d: int)
    requires IsCivil(day, y, m, d)
    ensures var (z, n, e) := NextDate(y, m, d); IsCivil(day + 1, z, n, e)
  {
    assert DaysBeforeMonth(y, m + 1) == DaysBeforeMonth(y, m) + DaysInMonth(y, m);
    var (z, n, e) := NextDate(y, m, d);
    assert ValidDate(z, n, e);
    YearLength(y);
    MonthStarts(y);
    assert MakeDay(z, n, e) == day + 1;
    ValidIffCivil(z, n, e);
  }

  lemma DayBefore(y: int, m: int, d: int)
    requires ValidDate(y, m, d)
    ensures var (z, n, e) := PreviousDate(y, m, d); MakeDay(z, n, e) == MakeDay(y, m, d) - 1
  {
    if m == 1 {
      YearLength(y - 1);
      MonthStarts(y - 1);
    } else {
      assert DaysBeforeMonth(y, m) == DaysBeforeMonth(y, m - 1) + DaysInMonth(y, m - 1);
    }
  }

  lemma PreviousDateIsCivil(day: int, y: int, m: int, d: int)
    requires IsCivil(day, y, m, d)
    ensures var (z, n, e) := PreviousDate(y, m, d); IsCivil(day - 1, z, n, e)
  {
    assert DaysBeforeMonth(y, m + 1) == DaysBeforeMonth(y, m) + DaysInMonth(y, m);
    var (z, n, e) := PreviousDate(y, m, d);
    assert ValidDate(z, n, e);
    DayBefore(y, m, d);
    ValidIffCivil(z, n, e);
  }

  /** Every day number has a calendar date. */
  lemma {:induction false} CivilExists(day: int) returns (y: int, m: int, d: int)
    ensures IsCivil(day, y, m, d)
    decreases if day >= 0 then day else -day
  {
    if day == 0 {
      y, m, d := 1970, 1, 1;
    } else if day > 0 {
      y, m, d := CivilExists(day - 1);
      NextDateIsCivil(day - 1, y, m, d);
      var (z, n, e) := NextDate(y, m, d);
      y, m, d := z, n, e;
    } else {
      y, m, d := CivilExists(day + 1);
      PreviousDateIsCivil(day + 1, y, m, d);
      var (z, n, e) := PreviousDate(y, m, d);
      y, m, d := z, n, e;
    }
  }

  // ----- src/security/dates.ts

  /**
   The time value of `YYYY-MM-DDT00:00:00Z`, in days. A month or day out of the format's range is
   not a time; a day past the end of its month is not a time either in a `strict` engine, and
   overflows into the next month in a lenient one.
   */
  function DateValue(y: int, m: int, d: int, strict: bool): Option<int> {
    if !(1 <= m <= 12 && 1 <= d <= 31) || (strict && d > DaysInMonth(y, m)) then None else Some(MakeDay(y, m, d))
  }

  /** `toISOString().slice(0, 10)` prints the date of this day as `t`. */
  ghost predicate PrintsAs(day: int, t: Text) {
    exists y, m, d :: IsCivil(day, y, m, d) && PrintedDate(y, m, d) == Some(t)
  }

  /** Years outside 0 to 9999 print with a sign and six digits, never as ten characters of this form. */
  function PrintedDate(y: int, m: int, d: int): Option<Text> {
    if 0 <= y <= 9999 && 1 <= m <= 12 && 1 <= d <= 31 then
      Some([DigitUnit(y / 1000), DigitUnit(y / 100 % 10), DigitUnit(y / 10 % 10), DigitUnit(y % 10), HYPHEN,
            DigitUnit(m / 10), DigitUnit(m % 10), HYPHEN, DigitUnit(d / 10), DigitUnit(d % 10)])
    else None
  }

  ghost function ParseIsoDate(t: Text, strict: bool): Option<int> {
    if !IsDateText(t) then None else
      var value := DateValue(YearOf(t), MonthOf(t), DayOf(t), strict);
      if value.None? || !PrintsAs(value.value, t) then None else value
  }

  lemma PrintedFields(t: Text)
    requires IsDateText(t)
    ensures 0 <= YearOf(t) <= 9999 && 0 <= MonthOf(t) <= 99 && 0 <= DayOf(t) <= 99
    ensures 1 <= MonthOf(t) <= 12 && 1 <= DayOf(t) <= 31 ==> PrintedDate(YearOf(t), MonthOf(t), DayOf(t)) == Some(t)
  {
    var a, b, c, e := DigitValue(t[0]), DigitValue(t[1]), DigitValue(t[2]), DigitValue(t[3]);
    var y := YearOf(t);
    assert y / 10 == a * 100 + b * 10 + c && y % 10 == e;
    assert y / 100 == a * 10 + b && (a * 100 + b * 10 + c) % 10 == c;
    assert y / 1000 == a && (a * 10 + b) % 10 == b;
    var m, d := MonthOf(t), DayOf(t);
    assert m / 10 == DigitValue(t[5]) && m % 10 == DigitValue(t[6]);
    assert d / 10 == DigitValue(t[8]) && d % 10 == DigitValue(t[9]);
    if 1 <= m <= 12 && 1 <= d <= 31 {
      var p := PrintedDate(y, m, d).value;
      assert p[0] == t[0] && p[1] == t[1] && p[2] == t[2] && p[3] == t[3] && p[4] == t[4];
      assert p[5] == t[5] && p[6] == t[6] && p[7] == t[7] && p[8] == t[8] && p[9] == t[9];
      assert p == t;
    }
  }

  lemma PrintedDetermines(y: int, m: int, d: int, t: Text)
    requires PrintedDate(y, m, d) == Some(t)
    ensures IsDateText(t) && YearOf(t) == y && MonthOf(t) == m && DayOf(t) == d
  {
    assert y == y / 1000 * 1000 + y / 100 % 10 * 100 + y / 10 % 10 * 10 + y % 10 by {
      var h, k := y / 100, y / 10;
      assert k / 10 == h && h / 10 == y / 1000;
    }
  }

  /** A date text is accepted exactly when it is a valid date, in strict and in lenient engines alike. */
  lemma ParseAcceptsValidDates(t: Text, strict: bool)
    ensures ParseIsoDate(t, strict).Some? <==> IsDateText(t) && ValidDate(YearOf(t), MonthOf(t), DayOf(t))
    ensures ParseIsoDate(t, strict).Some? ==> ParseIsoDate(t, strict).value == MakeDay(YearOf(t), MonthOf(t), DayOf(t))
  {
    if IsDateText(t) {
      var y, m, d := YearOf(t), MonthOf(t), DayOf(t);
      PrintedFields(t);
      if ValidDate(y, m, d) {
        ValidIffCivil(y, m, d);
        assert PrintsAs(MakeDay(y, m, d), t);
      }
      if ParseIsoDate(t, strict).Some? {
        var z, n, e :| IsCivil(MakeDay(y, m, d), z, n, e) && PrintedDate(z, n, e) == Some(t);
        PrintedDetermines(z, n, e, t);
        ValidIffCivil(y, m, d);
      }
    }
  }

  // ----- order

  predicate DateBefore(y: int, m: int, d: int, z: int, n: int, e: int) {
    y < z || (y == z && (m < n || (m == n && d < e)))
  }

  lemma EarlierDateHasSmallerDay(y: int, m: int, d: int, z: int, n: int, e: int)
    requires ValidDate(y, m, d) && ValidDate(z, n, e) && DateBefore(y, m, d, z, n, e)
    ensures MakeDay(y, m, d) < MakeDay(z, n, e)
  {
    ValidIffCivil(y, m, d);
    ValidIffCivil(z, n, e);
    if y < z {
      LaterYearStartsLater(y, z);
    } else {
      MonthStarts(y);
    }
  }

  /** Code-unit order of date texts is the order of their fields. */
  lemma TextOrder(s: Text, t: Text)
    requires IsDateText(s) && IsDateText(t)
    ensures s != t && LexLe(s, t) <==> DateBefore(YearOf(s), MonthOf(s), DayOf(s), YearOf(t), MonthOf(t), DayOf(t))
  {
    var i := FirstDifference(s, t);
    LexByFirstDifference(s, t, i);
  }

  function FirstDifference(s: Text, t: Text): (i: nat)
    requires |s| == |t|
    ensures i <= |s| && s[..i] == t[..i] && (forall j :: 0 <= j < i ==> s[j] == t[j])
    ensures i < |s| ==> s[i] != t[i]
  {
    if s == [] || s[0] != t[0] then 0 else
      var i := FirstDifference(s[1..], t[1..]);
      assert forall j :: 0 < j < i + 1 ==> s[j] == s[1..][j - 1] && t[j] == t[1..][j - 1];
      1 + i
  }

  lemma {:induction false} LexByFirstDifference(s: Text, t: Text, i: nat)
    requires |s| == |t| && i <= |s| && forall j :: 0 <= j < i ==> s[j] == t[j]
    requires i < |s| ==> s[i] != t[i]
    ensures LexLe(s, t) <==> i == |s| || s[i] < t[i]
    ensures s == t <==> i == |s|
  {
    if i > 0 {
      LexByFirstDifference(s[1..], t[1..], i - 1);
      assert s == [s[0]] + s[1..] && t == [t[0]] + t[1..];
    }
  }

  /** For accepted dates, string order is day order. */
  lemma StringOrderIsDayOrder(s: Text, t: Text, strict: bool)
    requires ParseIsoDate(s, strict).Some? && ParseIsoDate(t, strict).Some?
    ensures LexLe(s, t) <==> ParseIsoDate(s, strict).value <= ParseIsoDate(t, strict).value
    ensures s == t <==> ParseIsoDate(s, strict).value == ParseIsoDate(t, strict).value
  {
    ParseAcceptsValidDates(s, strict);
    ParseAcceptsValidDates(t, strict);
    TextOrder(s, t);
    TextOrder(t, s);
    LexTotal(s, t);
    LexReflexive(s);
    var y, m, d, z, n, e := YearOf(s), MonthOf(s), DayOf(s), YearOf(t), MonthOf(t), DayOf(t);
    if DateBefore(y, m, d, z, n, e) {
      EarlierDateHasSmallerDay(y, m, d, z, n, e);
    } else if DateBefore(z, n, e, y, m, d) {
      EarlierDateHasSmallerDay(z, n, e, y, m, d);
    }
  }

  // ----- cost ranges

  datatype RangeCheck = RangeOk | BadDate | NotOrdered | StartInFuture | EndInFuture | TooLong

  ghost function ValidateCostDates(startDate: Text, endDate: Text, maxDays: int, nowMs: int, strict: bool): RangeCheck {
    var start, end := ParseIsoDate(startDate, strict), ParseIsoDate(endDate, strict);
    if start.None? || end.None? then BadDate
    else if start.value * MS_PER_DAY >= end.value * MS_PER_DAY then NotOrdered
    else if start.value * MS_PER_DAY > nowMs then StartInFuture
    else if end.value * MS_PER_DAY > nowMs then EndInFuture
    else if end.value * MS_PER_DAY - start.value * MS_PER_DAY > maxDays * MS_PER_DAY then TooLong
    else RangeOk
  }

  /**
   An accepted cost range has valid dates in string order, spans between one and `maxDays` whole
   days, and does not end in the future; and every such range is accepted.
   */
  lemma CostRangeAcceptedIff(startDate: Text, endDate: Text, maxDays: int, nowMs: int, strict: bool)
    ensures ValidateCostDates(startDate, endDate, maxDays, nowMs, strict) == RangeOk <==>
            && ParseIsoDate(startDate, strict).Some? && ParseIsoDate(endDate, strict).Some?
            && startDate != endDate && LexLe(startDate, endDate)
            && 1 <= ParseIsoDate(endDate, strict).value - ParseIsoDate(startDate, strict).value <= maxDays
            && ParseIsoDate(endDate, strict).value * 86_400_000 <= nowMs
  {
    if ParseIsoDate(startDate, strict).Some? && ParseIsoDate(endDate, strict).Some? {
      StringOrderIsDayOrder(startDate, endDate, strict);
    }
  }

  /** Why a range is rejected: the first of these conditions that it does not meet. */
  lemma CostRangeErrorIs(startDate: Text, endDate: Text, maxDays: int, nowMs: int, strict: bool)
    ensures var r, start, end := ValidateCostDates(startDate, endDate, maxDays, nowMs, strict),
                                 ParseIsoDate(startDate, strict), ParseIsoDate(endDate, strict);
            if start.None? || end.None? then r == BadDate
            else if LexLe(endDate, startDate) then r == NotOrdered
            else if start.value * 86_400_000 > nowMs then r == StartInFuture
            else if end.value * 86_400_000 > nowMs then r == EndInFuture
            else if end.value > start.value + maxDays then r == TooLong
            else r == RangeOk
  {
    if ParseIsoDate(startDate, strict).Some? && ParseIsoDate(endDate, strict).Some? {
      StringOrderIsDayOrder(endDate, startDate, strict);
    }
  }
}
