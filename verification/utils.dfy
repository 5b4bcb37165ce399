/** `parse_time` ("HH:MM") and `parse_date` ("MM-DD"): split on one delimiter, demand
    exactly two pieces, parse each as an `i32`, then range-check both. The two parsers
    differ only in their delimiter, messages and ranges, captured by `PairFormat`. */
module Utils {
  import opened Types
  import opened Strings
  import opened Decimal

  /** Everything that distinguishes one two-field parser from the other. */
  datatype PairFormat = PairFormat(
    sep: char,
    formatMessage: string,
    firstMessage: string,
    secondMessage: string,
    rangeMessage: string,
    lo1: int, hi1: int,
    lo2: int, hi2: int)

  const TimeFormat: PairFormat := PairFormat(
    ':', "Invalid time format. Use HH:MM", "Invalid hours", "Invalid minutes",
    "Invalid time values", 0, 23, 0, 59)

  const DateFormat: PairFormat := PairFormat(
    '-', "Invalid date format. Use MM-DD", "Invalid month", "Invalid day",
    "Invalid date values", 1, 12, 1, 31)

  /** Every validation failure is reported as API error 400. */
  function Invalid(message: string): TrimlightError {
    ApiError(400, message)
  }

  predicate InRange(f: PairFormat, a: int, b: int) {
    f.lo1 <= a <= f.hi1 && f.lo2 <= b <= f.hi2
  }

  /** The shared body of `parse_time` and `parse_date`. */
  function ParsePair(f: PairFormat, s: string): (r: Result<(int, int), TrimlightError>)
    ensures r.Ok? ==> InRange(f, r.value.0, r.value.1)
    ensures r.Ok? ==> Occurrences(s, f.sep) == 1
    ensures r.Err? ==> r.error.code == 400
  {
    var parts := Split(s, f.sep);
    if |parts| != 2 then Err(Invalid(f.formatMessage))
    else
      match ParseI32(parts[0])
      case None => Err(Invalid(f.firstMessage))
      case Some(a) =>
        match ParseI32(parts[1])
        case None => Err(Invalid(f.secondMessage))
        case Some(b) =>
          if a < f.lo1 || a > f.hi1 || b < f.lo2 || b > f.hi2 then Err(Invalid(f.rangeMessage))
          else Ok((a, b))
  }

  /** `parse_time`: hours 0..23 and minutes 0..59, so the minute of the day is 0..1439. */
  function ParseTime(s: string): (r: Result<(int, int), TrimlightError>)
    ensures r.Ok? ==> 0 <= r.value.0 <= 23 && 0 <= r.value.1 <= 59
    ensures r.Ok? ==> 0 <= r.value.0 * 60 + r.value.1 <= 1439
    ensures r.Err? ==> r.error.code == 400
  {
    ParsePair(TimeFormat, s)
  }

  /** `parse_date`: month 1..12 and day 1..31 (no month-length check), so the coarse
      ordinal `month * 31 + day` is 32..403. */
  function ParseDate(s: string): (r: Result<(int, int), TrimlightError>)
    ensures r.Ok? ==> 1 <= r.value.0 <= 12 && 1 <= r.value.1 <= 31
    ensures r.Ok? ==> 32 <= r.value.0 * 31 + r.value.1 <= 403
    ensures r.Err? ==> r.error.code == 400
  {
    ParsePair(DateFormat, s)
  }

  /** `s` is `a`, the separator, then `b`, with no other separator. */
  predicate SplitsAs(s: string, sep: char, a: string, b: string) {
    sep !in a && sep !in b && s == a + [sep] + b
  }

  /** The outcome a parser gives for the two halves of a one-separator string, in the
      order the checks are made: first half, second half, then the ranges. */
  function HalvesOutcome(f: PairFormat, a: string, b: string): Result<(int, int), TrimlightError> {
    if ParseI32(a).None? then Err(Invalid(f.firstMessage))
    else if ParseI32(b).None? then Err(Invalid(f.secondMessage))
    else if !InRange(f, ParseI32(a).value, ParseI32(b).value) then Err(Invalid(f.rangeMessage))
    else Ok((ParseI32(a).value, ParseI32(b).value))
  }

  /** Error precedence, part 1: a string without exactly one separator is always a
      format error, whatever else is wrong with it. */
  lemma ParsePairFieldCount(f: PairFormat, s: string)
    requires Occurrences(s, f.sep) != 1
    ensures ParsePair(f, s) == Err(Invalid(f.formatMessage))
  {
  }

  /** Error precedence, part 2: with exactly one separator the outcome is decided by the
      two halves in the order of `HalvesOutcome`. */
  lemma ParsePairHalves(f: PairFormat, a: string, b: string)
    requires SplitsAs(a + [f.sep] + b, f.sep, a, b)
    ensures ParsePair(f, a + [f.sep] + b) == HalvesOutcome(f, a, b)
  {
    SplitTwo(a, b, f.sep);
  }

  /** Every string with exactly one separator is `a + sep + b` for separator-free halves,
      so the two precedence lemmas together cover every input. */
  lemma OneSeparatorSplits(s: string, sep: char)
    requires Occurrences(s, sep) == 1
    ensures exists a, b :: SplitsAs(s, sep, a, b)
  {
    var parts := Split(s, sep);
    JoinSplit(s, sep);
    assert Join(parts, [sep]) == parts[0] + [sep] + parts[1];
    assert SplitsAs(s, sep, parts[0], parts[1]);
  }

  /** Acceptance, both directions: the parser returns `(x, y)` exactly when the string is
      two separator-free halves parsing as `i32`s to `x` and `y`, both in range. */
  lemma ParsePairAccepts(f: PairFormat, s: string, x: int, y: int)
    ensures ParsePair(f, s) == Ok((x, y)) <==>
            exists a, b :: SplitsAs(s, f.sep, a, b) && ParseI32(a) == Some(x) && ParseI32(b) == Some(y)
                           && InRange(f, x, y)
  {
    if ParsePair(f, s) == Ok((x, y)) {
      var parts := Split(s, f.sep);
      JoinSplit(s, f.sep);
      assert Join(parts, [f.sep]) == parts[0] + [f.sep] + parts[1];
      assert SplitsAs(s, f.sep, parts[0], parts[1]);
    }
    if exists a, b :: SplitsAs(s, f.sep, a, b) && ParseI32(a) == Some(x) && ParseI32(b) == Some(y)
                      && InRange(f, x, y) {
      var a, b :| SplitsAs(s, f.sep, a, b) && ParseI32(a) == Some(x) && ParseI32(b) == Some(y)
                  && InRange(f, x, y);
      ParsePairHalves(f, a, b);
    }
  }

  /** The rendering of a non-negative number holds no separator of either format. */
  lemma Pad2Free(n: int)
    requires 0 <= n
    ensures ':' !in Pad2(n) && '-' !in Pad2(n)
  {
    var s := Pad2(n);
    assert AllDigits(s) by {
      if n < 10 {
        assert s == "0" + NatToString(n);
        assert forall k :: 1 <= k < |s| ==> s[k] == NatToString(n)[k - 1];
      }
    }
    assert forall k :: 0 <= k < |s| ==> s[k] != ':' && s[k] != '-';
  }

  /** Round trip: a valid time printed as `{:02}:{:02}` parses back to itself. */
  lemma ParseTimeRoundTrip(h: int, m: int)
    requires 0 <= h <= 23 && 0 <= m <= 59
    ensures ParseTime(Pad2(h) + ":" + Pad2(m)) == Ok((h, m))
  {
    Pad2Free(h);
    Pad2Free(m);
    ParsePad2(h);
    ParsePad2(m);
    ParsePairHalves(TimeFormat, Pad2(h), Pad2(m));
  }

  /** Round trip: a valid date printed as `MM-DD` parses back to itself. */
  lemma ParseDateRoundTrip(mo: int, d: int)
    requires 1 <= mo <= 12 && 1 <= d <= 31
    ensures ParseDate(Pad2(mo) + "-" + Pad2(d)) == Ok((mo, d))
  {
    Pad2Free(mo);
    Pad2Free(d);
    ParsePad2(mo);
    ParsePad2(d);
    ParsePairHalves(DateFormat, Pad2(mo), Pad2(d));
  }

  /** Round trip: a valid date printed unpadded as `{}-{}`, the way schedule listings show
      it, parses back to itself. */
  lemma ParseDateUnpaddedRoundTrip(mo: int, d: int)
    requires 1 <= mo <= 12 && 1 <= d <= 31
    ensures ParseDate(IntToString(mo) + "-" + IntToString(d)) == Ok((mo, d))
  {
    IntToStringDigits(mo);
    IntToStringDigits(d);
    assert '-' !in IntToString(mo) && '-' !in IntToString(d);
    ParseIntToString(mo);
    ParseIntToString(d);
    ParsePairHalves(DateFormat, IntToString(mo), IntToString(d));
  }

  /** Worked input: a zero-padded time. */
  lemma TimePaddedExample()
    ensures ParseTime("08:00") == Ok((8, 0))
  {
    assert AllDigits("8") && DigitsValue("8") == 8;
    LeadingZero("8");
    assert "0" + "8" == "08";
    ParseUnsigned("08");
    assert AllDigits("0") && DigitsValue("0") == 0;
    LeadingZero("0");
    assert "0" + "0" == "00";
    ParseUnsigned("00");
    assert "08:00" == "08" + [':'] + "00";
    ParsePairHalves(TimeFormat, "08", "00");
  }

  /** Worked input: zero padding is not required. */
  lemma TimeUnpaddedExample()
    ensures ParseTime("8:5") == Ok((8, 5))
  {
    assert AllDigits("8") && DigitsValue("8") == 8;
    ParseUnsigned("8");
    assert AllDigits("5") && DigitsValue("5") == 5;
    ParseUnsigned("5");
    assert "8:5" == "8" + [':'] + "5";
    ParsePairHalves(TimeFormat, "8", "5");
  }

  /** Worked input: a leading `+` is accepted, as by Rust's integer parser. */
  lemma TimeSignedExample()
    ensures ParseTime("+8:00") == Ok((8, 0))
  {
    assert AllDigits("8") && DigitsValue("8") == 8;
    assert "+8"[1..] == "8";
    assert AllDigits("0") && DigitsValue("0") == 0;
    LeadingZero("0");
    assert "0" + "0" == "00";
    ParseUnsigned("00");
    assert "+8:00" == "+8" + [':'] + "00";
    ParsePairHalves(TimeFormat, "+8", "00");
  }

  /** Worked input: hour 24 fails the range check. */
  lemma TimeHoursRangeExample()
    ensures ParseTime("24:00") == Err(ApiError(400, "Invalid time values"))
  {
    assert AllDigits("24") && DigitsValue("24") == 24;
    ParseUnsigned("24");
    assert AllDigits("0") && DigitsValue("0") == 0;
    LeadingZero("0");
    assert "0" + "0" == "00";
    ParseUnsigned("00");
    assert "24:00" == "24" + [':'] + "00";
    ParsePairHalves(TimeFormat, "24", "00");
  }

  /** Worked input: minute 60 fails the range check. */
  lemma TimeMinutesRangeExample()
    ensures ParseTime("12:60") == Err(ApiError(400, "Invalid time values"))
  {
    assert AllDigits("12") && DigitsValue("12") == 12;
    ParseUnsigned("12");
    assert AllDigits("60") && DigitsValue("60") == 60;
    ParseUnsigned("60");
    assert "12:60" == "12" + [':'] + "60";
    ParsePairHalves(TimeFormat, "12", "60");
  }

  /** Worked input: three fields fail the piece count. */
  lemma TimeThreeFieldsExample()
    ensures ParseTime("8:0:0") == Err(ApiError(400, "Invalid time format. Use HH:MM"))
  {
    assert Occurrences("8:0:0", ':') == 2;
  }

  /** Worked input: one field fails the piece count. */
  lemma TimeOneFieldExample()
    ensures ParseTime("8") == Err(ApiError(400, "Invalid time format. Use HH:MM"))
  {
    assert Occurrences("8", ':') == 0;
  }

  /** Worked input: unparsable hours are reported before out-of-range minutes. */
  lemma TimeBadHoursExample()
    ensures ParseTime("xx:99") == Err(ApiError(400, "Invalid hours"))
  {
    assert AllDigits("99") && DigitsValue("99") == 99;
    ParseUnsigned("99");
    assert "xx:99" == "xx" + [':'] + "99";
    ParsePairHalves(TimeFormat, "xx", "99");
  }

  /** Worked input: a space makes the minutes unparsable, reported before out-of-range hours. */
  lemma TimeBadMinutesExample()
    ensures ParseTime("99: 1") == Err(ApiError(400, "Invalid minutes"))
  {
    assert AllDigits("99") && DigitsValue("99") == 99;
    ParseUnsigned("99");
    assert "99: 1" == "99" + [':'] + " 1";
    ParsePairHalves(TimeFormat, "99", " 1");
  }

  /** Worked input: a zero-padded date. */
  lemma DatePaddedExample()
    ensures ParseDate("01-01") == Ok((1, 1))
  {
    assert AllDigits("1") && DigitsValue("1") == 1;
    LeadingZero("1");
    assert "0" + "1" == "01";
    ParseUnsigned("01");
    assert "01-01" == "01" + ['-'] + "01";
    ParsePairHalves(DateFormat, "01", "01");
  }

  /** Worked input: there is no month-length check, so February 31 is accepted. */
  lemma DateMonthLengthExample()
    ensures ParseDate("02-31") == Ok((2, 31))
  {
    assert AllDigits("2") && DigitsValue("2") == 2;
    LeadingZero("2");
    assert "0" + "2" == "02";
    ParseUnsigned("02");
    assert AllDigits("31") && DigitsValue("31") == 31;
    ParseUnsigned("31");
    assert "02-31" == "02" + ['-'] + "31";
    ParsePairHalves(DateFormat, "02", "31");
  }

  /** Worked input: month 0 fails the range check. */
  lemma DateMonthZeroExample()
    ensures ParseDate("00-01") == Err(ApiError(400, "Invalid date values"))
  {
    assert AllDigits("0") && DigitsValue("0") == 0;
    LeadingZero("0");
    assert "0" + "0" == "00";
    ParseUnsigned("00");
    assert AllDigits("1") && DigitsValue("1") == 1;
    LeadingZero("1");
    assert "0" + "1" == "01";
    ParseUnsigned("01");
    assert "00-01" == "00" + ['-'] + "01";
    ParsePairHalves(DateFormat, "00", "01");
  }

  /** Worked input: month 13 fails the range check. */
  lemma DateMonthRangeExample()
    ensures ParseDate("13-01") == Err(ApiError(400, "Invalid date values"))
  {
    assert AllDigits("13") && DigitsValue("13") == 13;
    ParseUnsigned("13");
    assert AllDigits("1") && DigitsValue("1") == 1;
    LeadingZero("1");
    assert "0" + "1" == "01";
    ParseUnsigned("01");
    assert "13-01" == "13" + ['-'] + "01";
    ParsePairHalves(DateFormat, "13", "01");
  }

  /** Worked input: day 32 fails the range check. */
  lemma DateDayRangeExample()
    ensures ParseDate("01-32") == Err(ApiError(400, "Invalid date values"))
  {
    assert AllDigits("1") && DigitsValue("1") == 1;
    LeadingZero("1");
    assert "0" + "1" == "01";
    ParseUnsigned("01");
    assert AllDigits("32") && DigitsValue("32") == 32;
    ParseUnsigned("32");
    assert "01-32" == "01" + ['-'] + "32";
    ParsePairHalves(DateFormat, "01", "32");
  }

  /** Worked input: a year adds a piece, so the piece count fails. */
  lemma DateWithYearExample()
    ensures ParseDate("2024-01-01") == Err(ApiError(400, "Invalid date format. Use MM-DD"))
  {
    assert Occurrences("2024-01-01", '-') == 2;
  }

  /** Worked input: a leading `+` is not the separator, so it is accepted as in a time. */
  lemma DatePlusExample()
    ensures ParseDate("+01-05") == Ok((1, 5))
  {
    assert AllDigits("1") && DigitsValue("1") == 1;
    LeadingZero("1");
    assert "0" + "1" == "01";
    ParseUnsigned("01");
    assert "+01"[1..] == "01";
    assert AllDigits("5") && DigitsValue("5") == 5;
    LeadingZero("5");
    assert "0" + "5" == "05";
    ParseUnsigned("05");
    assert "+01-05" == "+01" + ['-'] + "05";
    ParsePairHalves(DateFormat, "+01", "05");
  }

  /** Worked input: a leading `-` is a separator, so the piece count fails. */
  lemma DateSignedExample()
    ensures ParseDate("-1-05") == Err(ApiError(400, "Invalid date format. Use MM-DD"))
  {
    assert Occurrences("-1-05", '-') == 2;
  }
}
