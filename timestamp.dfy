/**
 * parseElasticsearchTimestamp: the value of the time field is read in one of
 * three layouts, chosen by the shape of the string alone (its length and its
 * fifth character): integer milliseconds since the epoch, a calendar date
 * "YYYY-MM-DD", or a full RFC 3339 date-time. The result is nanoseconds
 * since the epoch.
 */
module Timestamp {
  import opened Wrappers
  import opened Decimal
  import opened Calendar

  /** int64(math.MaxInt64) / 1e6 and int64(math.MinInt64) / 1e6; Go's division truncates toward zero. */
  const MaxMillis: int := 9_223_372_036_854
  const MinMillis: int := -9_223_372_036_854

  datatype Layout = Milliseconds | CalendarDate | DateTime

  datatype TimestampError =
    | BadMillis(text: string)    // not a base-10 int64
    | TooBig(millis: int)        // above MaxMillis
    | TooSmall(millis: int)      // below MinMillis
    | BadDate(text: string)      // rejected by the "2006-01-02" layout
    | BadDateTime(text: string)  // rejected by the RFC 3339 layout

  /** The layout whose parser reports an error. */
  function ErrorLayout(e: TimestampError): Layout
  {
    match e
    case BadMillis(_) => Milliseconds
    case TooBig(_) => Milliseconds
    case TooSmall(_) => Milliseconds
    case BadDate(_) => CalendarDate
    case BadDateTime(_) => DateTime
  }

  /** The three-way dispatch on the shape of s ("YYYY-MM-DD" has its '-' at index 4). */
  function LayoutOf(s: string): (l: Layout)
    ensures l == Milliseconds <==> |s| < 10 || s[4] != '-'
    ensures l == CalendarDate <==> |s| == 10 && s[4] == '-'
    ensures l == DateTime <==> |s| > 10 && s[4] == '-'
  {
    if |s| < 10 || s[4] != '-' then Milliseconds
    else if |s| == 10 then CalendarDate
    else DateTime
  }

  /**
   * parseElasticsearchTimestamp(s). The RFC 3339 parser of Go's time package,
   * followed by UnixNano, is the parameter rfc3339.
   */
  function ParseElasticsearchTimestamp(s: string, rfc3339: string -> Option<Int64>): (r: Result<Int64, TimestampError>)
    ensures r.Failure? ==> ErrorLayout(r.error) == LayoutOf(s)
    ensures LayoutOf(s) == Milliseconds && r.Success? ==>
      ParseInt64(s).Some? && r.value == ParseInt64(s).value * 1_000_000
    ensures LayoutOf(s) == Milliseconds && ParseInt64(s).Some? ==>
      (r.Success? <==> MinInt64 <= ParseInt64(s).value * 1_000_000 <= MaxInt64)
    ensures LayoutOf(s) == CalendarDate ==>
      (r.Success? <==> ParseDate(s).Some?) && (r.Success? ==> r.value == MidnightNanos(ParseDate(s).value))
    ensures LayoutOf(s) == DateTime ==>
      (r.Success? <==> rfc3339(s).Some?) && (r.Success? ==> r.value == rfc3339(s).value)
  {
    match LayoutOf(s)
    case Milliseconds =>
      (match ParseInt64(s)
       case None => Failure(BadMillis(s))
       case Some(n) =>
         if n > MaxMillis then Failure(TooBig(n))
         else if n < MinMillis then Failure(TooSmall(n))
         else Success(n * 1_000_000))
    case CalendarDate =>
      (match ParseDate(s)
       case None => Failure(BadDate(s))
       case Some(d) => Success(MidnightNanos(d)))
    case DateTime =>
      (match rfc3339(s)
       case None => Failure(BadDateTime(s))
       case Some(t) => Success(t))
  }

  /**
   * Any int64 written in decimal takes the milliseconds branch, and is
   * accepted, scaled to nanoseconds, exactly when it lies within the guards.
   */
  lemma MillisecondsOfFormatted(n: Int64, rfc3339: string -> Option<Int64>)
    ensures ParseElasticsearchTimestamp(FormatInt(n), rfc3339) ==
      if n > MaxMillis then Failure(TooBig(n))
      else if n < MinMillis then Failure(TooSmall(n))
      else Success(n * 1_000_000)
  {
    var s := FormatInt(n);
    FormatIntShape(n);
    assert |s| >= 10 ==> IsDigit(s[4]);
    assert LayoutOf(s) == Milliseconds;
    ParseFormatRoundTrip(n);
  }

  /** The value "1700000000000" is 1700000000000 ms, i.e. 1700000000000 * 10^6 ns. */
  lemma MillisecondsExample(rfc3339: string -> Option<Int64>)
    ensures ParseElasticsearchTimestamp("1700000000000", rfc3339) == Success(1_700_000_000_000_000_000)
  {
    assert FormatInt(1_700_000_000_000) == "1700000000000";
    MillisecondsOfFormatted(1_700_000_000_000, rfc3339);
  }

  /** "9223372036854775", just above MaxMillis, is refused as too big. */
  lemma MillisecondsTooBigExample(rfc3339: string -> Option<Int64>)
    ensures ParseElasticsearchTimestamp("9223372036854775", rfc3339) == Failure(TooBig(9_223_372_036_854_775))
  {
    assert FormatNat(92) == FormatNat(9) + "2";
    assert FormatNat(922) == FormatNat(92) + "2";
    assert FormatNat(9223) == FormatNat(922) + "3";
    assert FormatNat(92233) == FormatNat(9223) + "3";
    assert FormatNat(922337) == FormatNat(92233) + "7";
    assert FormatNat(9223372) == FormatNat(922337) + "2";
    assert FormatNat(92233720) == FormatNat(9223372) + "0";
    assert FormatNat(922337203) == FormatNat(92233720) + "3";
    assert FormatNat(9223372036) == FormatNat(922337203) + "6";
    assert FormatNat(92233720368) == FormatNat(9223372036) + "8";
    assert FormatNat(922337203685) == FormatNat(92233720368) + "5";
    assert FormatNat(9223372036854) == FormatNat(922337203685) + "4";
    assert FormatNat(92233720368547) == FormatNat(9223372036854) + "7";
    assert FormatNat(922337203685477) == FormatNat(92233720368547) + "7";
    assert FormatNat(9223372036854775) == FormatNat(922337203685477) + "5";
    assert FormatInt(9223372036854775) == "9223372036854775";
    MillisecondsOfFormatted(9_223_372_036_854_775, rfc3339);
  }

  /**
   * Any valid date written as "YYYY-MM-DD" takes the calendar-date branch
   * and is read as midnight UTC of that very date.
   */
  lemma CalendarDateOfFormatted(d: Date, rfc3339: string -> Option<Int64>)
    requires ValidDate(d)
    ensures ParseElasticsearchTimestamp(FormatDate(d), rfc3339) == Success(MidnightNanos(d))
  {
    ParseFormatDate(d);
  }

  /** 15 January 2024 is 19737 days after the epoch. */
  lemma CalendarDateExample(rfc3339: string -> Option<Int64>)
    ensures ParseElasticsearchTimestamp(FormatDate(Date(2024, 1, 15)), rfc3339) == Success(1_705_276_800_000_000_000)
  {
    CalendarDateOfFormatted(Date(2024, 1, 15), rfc3339);
    MidnightNanosExample();
  }

  /**
   * Past 2262 the calendar-date branch has no overflow guard: 1 January
   * 2263, a date after the epoch, comes out as a negative number of
   * nanoseconds.
   */
  lemma CalendarDateWrapsAfter2262(rfc3339: string -> Option<Int64>)
    ensures ParseElasticsearchTimestamp(FormatDate(Date(2263, 1, 1)), rfc3339).Success?
    ensures ParseElasticsearchTimestamp(FormatDate(Date(2263, 1, 1)), rfc3339).value < 0
  {
    CalendarDateOfFormatted(Date(2263, 1, 1), rfc3339);
    MidnightNanosWrapsAfter2262();
  }
}
