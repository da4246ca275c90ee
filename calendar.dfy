/**
 * The proleptic Gregorian calendar as Go's time package uses it, and
 * time.Parse with the layout "2006-01-02" (a calendar date, section 5.6 of
 * RFC 3339, "full-date"), read at midnight UTC.
 */
module Calendar {
  import opened Wrappers
  import opened Decimal

  datatype Date = Date(year: int, month: int, day: int)

  predicate IsLeap(year: int)
  {
    year % 4 == 0 && (year % 100 != 0 || year % 400 == 0)
  }

  /** Go's daysIn: the length of a month. */
  function DaysIn(month: int, year: int): (n: int)
    requires 1 <= month <= 12
    ensures 28 <= n <= 31
    ensures n == 29 <==> month == 2 && IsLeap(year)
  {
    if month == 2 then (if IsLeap(year) then 29 else 28)
    else if month == 4 || month == 6 || month == 9 || month == 11 then 30
    else 31
  }

  /** The dates a four-digit year layout can produce. */
  predicate ValidDate(d: Date)
  {
    0 <= d.year <= 9999 && 1 <= d.month <= 12 && 1 <= d.day <= DaysIn(d.month, d.year)
  }

  /**
   * time.Parse("2006-01-02", s): exactly four digits of year, '-', two digits
   * of month in 1..12, '-', two digits of day in 1..DaysIn(month, year), and
   * nothing after.
   */
  function ParseDate(s: string): (r: Option<Date>)
    ensures r.Some? ==> ValidDate(r.value)
    ensures r.Some? ==> |s| == 10 && s[4] == '-' && s[7] == '-'
    ensures r.Some? ==> forall i :: 0 <= i < 10 && i != 4 && i != 7 ==> IsDigit(s[i])
    ensures r.Some? ==> FormatDate(r.value) == s
  {
    if |s| == 10 && AllDigits(s[0..4]) && s[4] == '-' && AllDigits(s[5..7]) && s[7] == '-' && AllDigits(s[8..10]) then
      var d := Date(DigitsValue(s[0..4]), DigitsValue(s[5..7]), DigitsValue(s[8..10]));
      if 1 <= d.month <= 12 && 1 <= d.day <= DaysIn(d.month, d.year) then
        DigitsValueBound(s[0..4]);
        assert Pow10(4) == 10000;
        assert forall i :: 0 <= i < 4 ==> s[0..4][i] == s[i];
        assert forall i :: 5 <= i < 7 ==> s[5..7][i - 5] == s[i];
        assert forall i :: 8 <= i < 10 ==> s[8..10][i - 8] == s[i];
        PadDigitsOfDigits(s[0..4]);
        PadDigitsOfDigits(s[5..7]);
        PadDigitsOfDigits(s[8..10]);
        JoinDateText(s);
        Some(d)
      else None
    else None
  }

  /** The number of leap years in 0 .. year-1, in closed form. */
  function LeapYearsBefore(year: nat): int
  {
    (year + 3) / 4 - (year + 99) / 100 + (year + 399) / 400
  }

  /** Reference definition of LeapYearsBefore: count the leap years one by one. */
  function LeapYearsCounted(year: nat): nat
  {
    if year == 0 then 0 else LeapYearsCounted(year - 1) + (if IsLeap(year - 1) then 1 else 0)
  }

  function DaysBeforeMonth(month: int, year: int): int
    requires 1 <= month <= 12
  {
    [0, 31, 59, 90, 120, 151, 181, 212, 243, 273, 304, 334][month - 1]
      + (if month > 2 && IsLeap(year) then 1 else 0)
  }

  /** Days from 1970-01-01 to d; negative before the epoch. */
  function DaysSinceEpoch(d: Date): int
    requires d.year >= 0 && 1 <= d.month <= 12
  {
    365 * (d.year - 1970) + LeapYearsBefore(d.year) - LeapYearsBefore(1970)
      + DaysBeforeMonth(d.month, d.year) + d.day - 1
  }

  /** The calendar's successor of a date. */
  function NextDay(d: Date): Date
    requires ValidDate(d)
  {
    if d.day < DaysIn(d.month, d.year) then Date(d.year, d.month, d.day + 1)
    else if d.month < 12 then Date(d.year, d.month + 1, 1)
    else Date(d.year + 1, 1, 1)
  }

  /** time.Date(y, m, d, 0, 0, 0, 0, time.UTC).UnixNano(), which wraps around in int64. */
  function MidnightNanos(d: Date): (r: Int64)
    requires ValidDate(d)
  {
    Wrap64(DaysSinceEpoch(d) * 86400 * 1_000_000_000)
  }

  /** Going from y + k - 1 to y + k, the quotient by k grows exactly when k divides y. */
  lemma QuotientStep(y: nat, k: nat)
    requires k == 4 || k == 100 || k == 400
    ensures (y + k) / k == (y + k - 1) / k + (if y % k == 0 then 1 else 0)
  {
    var q, r := y / k, y % k;
    assert y == k * q + r && 0 <= r < k;
    assert (y + k) / k == q + 1 by {
      assert y + k == k * (q + 1) + r;
    }
    if r == 0 {
      assert y + k - 1 == k * q + (k - 1);
    } else {
      assert y + k - 1 == k * (q + 1) + (r - 1);
    }
  }

  /** A multiple of 400 is one of 100, and a multiple of 100 one of 4. */
  lemma DivisibilityChain(y: nat)
    ensures y % 400 == 0 ==> y % 100 == 0
    ensures y % 100 == 0 ==> y % 4 == 0
  {
    if y % 400 == 0 {
      var k := y / 400;
      assert y == 100 * (4 * k);
    }
    if y % 100 == 0 {
      var k := y / 100;
      assert y == 4 * (25 * k);
    }
  }

  lemma LeapYearsBeforeStep(year: nat)
    ensures LeapYearsBefore(year + 1) == LeapYearsBefore(year) + (if IsLeap(year) then 1 else 0)
  {
    QuotientStep(year, 4);
    QuotientStep(year, 100);
    QuotientStep(year, 400);
    DivisibilityChain(year);
  }

  /** The closed form counts leap years. */
  lemma {:induction false} LeapYearsBeforeCounts(year: nat)
    ensures LeapYearsBefore(year) == LeapYearsCounted(year)
  {
    if year > 0 {
      LeapYearsBeforeCounts(year - 1);
      LeapYearsBeforeStep(year - 1);
    }
  }

  /** Day numbers are consecutive: the next calendar day is exactly one day later. */
  lemma NextDayIsOneLater(d: Date)
    requires ValidDate(d)
    ensures DaysSinceEpoch(NextDay(d)) == DaysSinceEpoch(d) + 1
  {
    if d.day == DaysIn(d.month, d.year) && d.month == 12 {
      LeapYearsBeforeStep(d.year);
    }
  }

  /** Between 1678 and 2261 midnight in nanoseconds fits int64, so no wrap-around happens. */
  lemma MidnightNanosExact(d: Date)
    requires ValidDate(d) && 1678 <= d.year <= 2261
    ensures MidnightNanos(d) == DaysSinceEpoch(d) * 86400 * 1_000_000_000
  {
    var days := DaysSinceEpoch(d);
    assert -106650 <= days < 106651;
  }

  /** Year, month and day written with the layout "2006-01-02", whether or not they form a date. */
  function WriteDate(year: nat, month: nat, day: nat): string
  {
    PadDigits(year, 4) + "-" + PadDigits(month, 2) + "-" + PadDigits(day, 2)
  }

  /** time.Format("2006-01-02"): the date as the layout writes it. */
  function FormatDate(d: Date): string
    requires ValidDate(d)
  {
    WriteDate(d.year, d.month, d.day)
  }

  /**
   * Whatever fits the layout's digits is read as written, and accepted
   * exactly when it is a date: "2023-02-29", "2024-13-01" or "2024-04-31"
   * are refused.
   */
  lemma ParseWrittenDate(year: nat, month: nat, day: nat)
    requires year < 10000 && month < 100 && day < 100
    ensures ParseDate(WriteDate(year, month, day)) ==
      if ValidDate(Date(year, month, day)) then Some(Date(year, month, day)) else None
  {
    WrittenDateFields(year, month, day);
  }

  /** The three digit fields of a written date, and the values they read as. */
  lemma WrittenDateFields(year: nat, month: nat, day: nat)
    requires year < 10000 && month < 100 && day < 100
    ensures var s := WriteDate(year, month, day);
      |s| == 10 && s[4] == '-' && s[7] == '-' &&
      AllDigits(s[0..4]) && DigitsValue(s[0..4]) == year &&
      AllDigits(s[5..7]) && DigitsValue(s[5..7]) == month &&
      AllDigits(s[8..10]) && DigitsValue(s[8..10]) == day
  {
    assert Pow10(2) == 100 && Pow10(4) == 10000;
    PadDigitsDenotes(year, 4);
    PadDigitsDenotes(month, 2);
    PadDigitsDenotes(day, 2);
    SplitDateText(PadDigits(year, 4), PadDigits(month, 2), PadDigits(day, 2));
  }

  /** The text "a-b-c" of a four-, a two- and a two-character field, cut back into its fields. */
  lemma SplitDateText(a: string, b: string, c: string)
    requires |a| == 4 && |b| == 2 && |c| == 2
    ensures var s := a + "-" + b + "-" + c;
      |s| == 10 && s[4] == '-' && s[7] == '-' && s[0..4] == a && s[5..7] == b && s[8..10] == c
  {
    var s := a + "-" + b + "-" + c;
    assert s[0..4] == a;
    assert s[5..7] == b;
    assert s[8..10] == c;
  }

  /** A ten-character text with '-' at indices 4 and 7 is its three fields joined by '-'. */
  lemma JoinDateText(s: string)
    requires |s| == 10 && s[4] == '-' && s[7] == '-'
    ensures s == s[0..4] + "-" + s[5..7] + "-" + s[8..10]
  {
  }

  /** Every valid date is written in a form that reads back as the same date. */
  lemma ParseFormatDate(d: Date)
    requires ValidDate(d)
    ensures ParseDate(FormatDate(d)) == Some(d)
  {
    ParseWrittenDate(d.year, d.month, d.day);
  }

  /** 29 February 2023 is refused: 2023 is a common year. */
  lemma ParseLeapDayOfCommonYear()
    ensures ParseDate(WriteDate(2023, 2, 29)) == None
  {
    assert !IsLeap(2023);
    ParseWrittenDate(2023, 2, 29);
  }

  /** 29 February 2024 is accepted: 2024 is a leap year. */
  lemma ParseLeapDayOfLeapYear()
    ensures ParseDate(WriteDate(2024, 2, 29)) == Some(Date(2024, 2, 29))
  {
    assert IsLeap(2024);
    ParseWrittenDate(2024, 2, 29);
  }

  /** Midnight of 15 January 2024 is 19737 days after the epoch. */
  lemma MidnightNanosExample()
    ensures MidnightNanos(Date(2024, 1, 15)) == 1_705_276_800_000_000_000
  {
    assert DaysSinceEpoch(Date(2024, 1, 15)) == 19737;
    MidnightNanosExact(Date(2024, 1, 15));
  }

  /** Midnight of 1 January 2263, 107016 days after the epoch, wraps around to a negative int64. */
  lemma MidnightNanosWrapsAfter2262()
    ensures MidnightNanos(Date(2263, 1, 1)) < 0
  {
    var days := DaysSinceEpoch(Date(2263, 1, 1));
    assert days == 107016;
    var x := days * 86400 * 1_000_000_000;
    assert x == 9_246_182_400_000_000_000;
    assert Wrap64(x) == x - 0x1_0000_0000_0000_0000;
  }
}
