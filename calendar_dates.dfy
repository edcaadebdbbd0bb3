/** Calendar arithmetic on whole days. A date is an integer day ordinal
    (days since 0000-01-01 in the proleptic Gregorian calendar), so the pages'
    `Date` comparisons become integer comparisons; time zones are not modelled. */
module CalendarDates {
  import opened Wrappers
  import opened Text

  predicate IsLeapYear(y: nat)
  {
    y % 4 == 0 && (y % 100 != 0 || y % 400 == 0)
  }

  function DaysInMonth(y: nat, m: int): (n: int)
    requires 1 <= m <= 12
    ensures 28 <= n <= 31
  {
    if m == 2 then (if IsLeapYear(y) then 29 else 28)
    else if m == 4 || m == 6 || m == 9 || m == 11 then 30
    else 31
  }

  function YearLength(y: nat): nat
  {
    if IsLeapYear(y) then 366 else 365
  }

  function DaysBeforeYear(y: nat): nat
  {
    if y == 0 then 0 else DaysBeforeYear(y - 1) + YearLength(y - 1)
  }

  function DaysBeforeMonth(y: nat, m: int): nat
    requires 1 <= m <= 13
    decreases m
  {
    if m == 1 then 0 else DaysBeforeMonth(y, m - 1) + DaysInMonth(y, m - 1)
  }

  predicate ValidDate(y: nat, m: int, d: int)
  {
    1 <= m <= 12 && 1 <= d <= DaysInMonth(y, m)
  }

  /** The ordinal of `y`-`m`-`d`, which is what `new Date(y, m - 1, d)` denotes. */
  function DayNumber(y: nat, m: int, d: int): int
    requires 1 <= m <= 12
  {
    DaysBeforeYear(y) + DaysBeforeMonth(y, m) + d - 1
  }

  /** The twelve months make up the year. */
  lemma MonthsFillYear(y: nat)
    ensures DaysBeforeMonth(y, 13) == YearLength(y)
  {
    assert DaysBeforeMonth(y, 2) == 31;
    assert DaysBeforeMonth(y, 3) == 31 + DaysInMonth(y, 2);
    assert DaysBeforeMonth(y, 7) == 31 + DaysInMonth(y, 2) + 31 + 30 + 31 + 30;
    assert DaysBeforeMonth(y, 13) == 31 + DaysInMonth(y, 2) + 31 + 30 + 31 + 30 + 31 + 31 + 30 + 31 + 30 + 31;
  }

  /** `new Date(y, m, 0).getDate()` is the month's length: day 0 of the next
      month is the last day of this one, so the day after day `DaysInMonth`
      is the first of the next month (of January, after December). */
  lemma LastDayOfMonth(y: nat, m: int)
    requires 1 <= m <= 12
    ensures DayNumber(y, m, DaysInMonth(y, m)) + 1
            == if m < 12 then DayNumber(y, m + 1, 1) else DayNumber(y + 1, 1, 1)
  {
    if m == 12 {
      MonthsFillYear(y);
    }
  }

  /** `Array.from({ length: daysInMonth }, (_, i) => i + 1)`: the day numbers
      of one month, each once, ascending, none missing. */
  function MonthDays(y: nat, m: int): (days: seq<int>)
    requires 1 <= m <= 12
    ensures |days| == DaysInMonth(y, m)
    ensures forall d :: d in days <==> ValidDate(y, m, d)
    ensures forall i, j :: 0 <= i < j < |days| ==> days[i] < days[j]
  {
    OneToMembers(DaysInMonth(y, m));
    OneTo(DaysInMonth(y, m))
  }

  /** `[1, 2, ..., n]`. */
  function OneTo(n: nat): (r: seq<int>)
    ensures |r| == n
    ensures forall i :: 0 <= i < n ==> r[i] == i + 1
  {
    seq(n, i => i + 1)
  }

  lemma OneToMembers(n: nat)
    ensures forall d :: d in OneTo(n) <==> 1 <= d <= n
  {
    forall d | 1 <= d <= n
      ensures d in OneTo(n)
    {
      assert OneTo(n)[d - 1] == d;
    }
  }

  /** The columns of the calendar are consecutive dates with no gap: each is
      the day after the previous one, and the last is followed by the first
      day of the next month. */
  lemma MonthDaysConsecutive(y: nat, m: int)
    requires 1 <= m <= 12
    ensures var days := MonthDays(y, m);
      && days[0] == 1
      && (forall i :: 0 <= i < |days| - 1 ==> DayNumber(y, m, days[i + 1]) == DayNumber(y, m, days[i]) + 1)
      && DayNumber(y, m, days[|days| - 1]) + 1 == if m < 12 then DayNumber(y, m + 1, 1) else DayNumber(y + 1, 1, 1)
  {
    LastDayOfMonth(y, m);
  }

  // ---------------------------------------------------------------------
  // "YYYY-MM-DD" text

  /** The text a date input holds and a template literal
      `${y}-${String(m).padStart(2, "0")}-${String(d).padStart(2, "0")}` builds. */
  function FormatIsoDate(y: nat, m: nat, d: nat): string
  {
    NatToString(y) + "-" + PadStart2(NatToString(m)) + "-" + PadStart2(NatToString(d))
  }

  /** `new Date(s)` for a date-only ISO string, as a day ordinal; `None` is an
      Invalid Date (wrong shape, month out of 1..12, or no such day). */
  function ParseIsoDate(s: string): Option<int>
  {
    if |s| == 10 && s[4] == '-' && s[7] == '-'
       && AllDigits(s[..4]) && AllDigits(s[5..7]) && AllDigits(s[8..])
    then
      var y := DigitsValue(s[..4]);
      var m := DigitsValue(s[5..7]);
      var d := DigitsValue(s[8..]);
      if 1 <= m <= 12 && 1 <= d <= DaysInMonth(y, m) then Some(DayNumber(y, m, d)) else None
    else None
  }

  /** Formatting a date with a four-digit year and parsing the text back
      gives that date's ordinal. */
  lemma IsoDateRoundTrip(y: nat, m: nat, d: nat)
    requires 1000 <= y <= 9999 && ValidDate(y, m, d)
    ensures ParseIsoDate(FormatIsoDate(y, m, d)) == Some(DayNumber(y, m, d))
  {
    YearText(y);
    PadStart2RoundTrip(m);
    PadStart2RoundTrip(d);
    var ys, ms, ds := NatToString(y), PadStart2(NatToString(m)), PadStart2(NatToString(d));
    DashedParts(ys, ms, ds);
    ParseDashed(FormatIsoDate(y, m, d), y, m, d);
  }

  /** A four-digit year is written with four digits. */
  lemma YearText(y: nat)
    requires 1000 <= y <= 9999
    ensures |NatToString(y)| == 4
  {
    assert Pow10(3) == 1000 && Pow10(4) == 10000;
    NatToStringWidth(y, 3);
  }

  /** A ten-character text with dashes at 4 and 7 and the digits of a valid
      date around them parses to that date. */
  lemma ParseDashed(s: string, y: nat, m: nat, d: nat)
    requires |s| == 10 && s[4] == '-' && s[7] == '-'
    requires AllDigits(s[..4]) && AllDigits(s[5..7]) && AllDigits(s[8..])
    requires DigitsValue(s[..4]) == y && DigitsValue(s[5..7]) == m && DigitsValue(s[8..]) == d
    requires ValidDate(y, m, d)
    ensures ParseIsoDate(s) == Some(DayNumber(y, m, d))
  {
  }

  /** The three parts of `a-b-c`, for parts of widths 4, 2 and 2, sit at
      fixed positions. */
  lemma DashedParts(a: string, b: string, c: string)
    requires |a| == 4 && |b| == 2 && |c| == 2
    ensures var s := a + "-" + b + "-" + c;
      && |s| == 10 && s[4] == '-' && s[7] == '-'
      && s[..4] == a && s[5..7] == b && s[8..] == c
  {
    var s := a + "-" + b + "-" + c;
    assert s[..4] == a;
    assert s[5..7] == b;
    assert s[8..] == c;
  }

  /** The empty text of an untouched date input is not a date. */
  lemma EmptyIsNotADate()
    ensures ParseIsoDate("") == None
  {
  }

  // ---------------------------------------------------------------------
  // Math.ceil((checkOut - checkIn) / (1000 * 60 * 60 * 24)) + 1

  const MsPerDay: int := 1000 * 60 * 60 * 24

  /** Midnight of a day ordinal, in milliseconds. */
  function MidnightMs(day: int): int
  {
    day * MsPerDay
  }

  /** `Math.ceil(a / b)` for a positive `b`. */
  function CeilDiv(a: int, b: int): int
    requires b > 0
  {
    -((-a) / b)
  }

  /** `Math.ceil((to - from) / MS_PER_DAY) + 1`: the days a stay touches,
      counting both ends. */
  function InclusiveDayCount(fromMs: int, toMs: int): int
  {
    CeilDiv(toMs - fromMs, MsPerDay) + 1
  }

  /** The count is the ceiling: the elapsed time is more than `n - 2` whole
      days and at most `n - 1`. */
  lemma InclusiveDayCountIsCeiling(fromMs: int, toMs: int)
    ensures var n := InclusiveDayCount(fromMs, toMs);
      (n - 2) * MsPerDay < toMs - fromMs <= (n - 1) * MsPerDay
  {
    var a := toMs - fromMs;
    var q := (-a) / MsPerDay;
    assert q * MsPerDay <= -a < q * MsPerDay + MsPerDay;
  }

  /** Between two midnights the count is the number of calendar days from
      the first to the last, both included: the same day counts 1. */
  lemma InclusiveDayCountOfDates(first: int, last: int)
    ensures InclusiveDayCount(MidnightMs(first), MidnightMs(last)) == last - first + 1
  {
    var n := InclusiveDayCount(MidnightMs(first), MidnightMs(last));
    InclusiveDayCountIsCeiling(MidnightMs(first), MidnightMs(last));
    assert MidnightMs(last) - MidnightMs(first) == (last - first) * MsPerDay;
  }
}
