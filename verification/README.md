# Trimlight client core in Dafny

A model of the decision logic in the Trimlight Rust client (`TrimlightClient`) and its
command-line front-end. It covers:

- **Schedule conflicts.** `check_schedule_conflicts` tests every pair of daily schedules
  and then every pair of calendar schedules. The report has one line per clashing pair.
- **Time and date parsing.** `parse_time` reads `HH:MM` and `parse_date` reads `MM-DD`.
  They share one two-field parser.
- **Request headers.** `generate_auth_headers` builds the three headers for each
  request. The HMAC-SHA256 function and the clock reading are parameters.
- **The response envelope.** The tail of `request` maps a non-zero code to an error and
  a missing payload to the default value.
- **Effect and schedule edits.** Three pieces are modelled:
  - the field merge of `update_effect`;
  - the endpoint choice of `delete_schedule`;
  - the checks and payload merge of `modify_schedule`.
- **Command-line decisions.** These are made before any request is sent:
  - the two effect tables;
  - the default device;
  - the `switch` flags;
  - the `modes` listing and search;
  - the `combined set` argument checks;
  - the `effect preview` range checks.

Where the source fetches data (the device list, details or schedules), the fetched value is
a parameter. Where it sends a request, the model returns the endpoint and payload it would
send. A command-line arm that prints a message and exits with status 1 returns
`Exit1(message)`. An error that `main` returns with `?` is `Propagated(message)`.

Files, one module each:

| file | module | what it holds |
|---|---|---|
| `types.dfy` | `Types` | the records (schedules, effects, devices, responses) and `Option`/`Result` |
| `strings.dfy` | `Strings` | `split`, `join`, `trim`, `to_lowercase`, `contains` |
| `decimal.dfy` | `Decimal` | integer rendering, `{:02}` padding, `parse::<i32>` |
| `utils.dfy` | `Utils` | `parse_time`, `parse_date` |
| `conflicts.dfy` | `Conflicts` | the conflict check: reference definition and the source's loops |
| `base64.dfy` | `Base64` | padded standard base64 (section 4 of RFC 4648) and its decoder |
| `auth.dfy` | `Auth` | UTF-8, `HeaderValue::from_str`, the auth headers |
| `client.dfy` | `Client` | envelope, `update_effect`, `delete_schedule`, `modify_schedule` |
| `effect_tables.dfy` | `EffectTables` | `BUILT_IN_EFFECTS` (180 entries) and `CUSTOM_EFFECTS` (17) |
| `cli.dfy` | `Cli` | the command-line arms |

### Behaviour the proofs make explicit

**Conflict check**

- The two disjuncts of the overlap test are the same condition. The test is the
  closed-interval `s1 <= e2 && s2 <= e1`, so ranges that only touch at an endpoint
  conflict.
- The test equals `max(starts) <= min(ends)` only for well-formed ranges (start ≤ end).
- A range that wraps past midnight is compared as stored. For example, 22:00–02:00 is
  the minutes 1320..120, so it never overlaps 23:00–23:30 (`OvernightRangeExample`).
- Today-only schedules (repetition 0) never conflict, not even with everyday ones.
- The date key `month * 31 + day` orders dates correctly only within one year
  (`DateOrdinalOrder`). A range that crosses New Year is compared as stored.

**Parsing**

- `parse_date` has no month-length check: `02-31` is accepted.
- A signed field such as `+8` is accepted in a time.
- In a date, `-` is the separator: a leading `-` adds a piece and gives the format error
  (`DateSignedExample`), while a leading `+` is accepted as in a time (`DatePlusExample`).

## Model

| member | source | states |
|---|---|---|
| Conflicts.DaysOverlap | src/client.rs:610-617 | the day patterns overlap iff neither is today-only (0) and either is everyday (1) or both are weekdays (2) or both are weekend (3) |
| Conflicts.RangesOverlap | src/client.rs:626 | the two-disjunct test holds iff `s1 <= e2 && s2 <= e1`; for well-formed ranges iff `max(s1, s2) <= min(e1, e2)` |
| Conflicts.Row | src/client.rs:604-633 | one row of pairs `(i, k)`, `i < k < j`, holds exactly the clashing ones, in increasing `k` |
| Conflicts.PairsBefore | src/client.rs:599-634 | the pairs with first index below `i` are exactly the clashing pairs starting below `i`, lexicographically sorted |
| Conflicts.PairsBeforeStep | src/client.rs:599-634 | appending row `i - 1` to the pairs before `i - 1` keeps them complete, clashing and sorted up to `i` |
| Conflicts.SortedConcat | src/client.rs:599-604 | two sorted runs, the first wholly below the second, concatenate to a sorted run |
| Conflicts.ClashingPairs | src/client.rs:599-663 | a pair `(a, b)` is listed iff `a < b` and the schedules clash; no self-pairs, no duplicates, in loop order |
| Conflicts.DescribeAppend | src/client.rs:627-630 | describing a concatenation of pair lists is the concatenation of their descriptions |
| Conflicts.DisabledRowEmpty | src/client.rs:600-602 | a disabled first schedule contributes no pair |
| Conflicts.DescribeSnoc | src/client.rs:627-630 | pushing one pair appends exactly its line |
| Conflicts.RowStep | src/client.rs:604-633 | one inner-loop turn appends the pair's line exactly when the pair clashes |
| Conflicts.DailyText | src/client.rs:627-630 | the daily message naming both ids; `DailyTextExample` fixes its wording for ids 1 and 2 |
| Conflicts.CalendarText | src/client.rs:657-660 | the calendar message naming both ids; `CalendarTextExample` fixes its wording for ids 1 and 2 |
| Conflicts.FindConflicts | src/client.rs:599-663 | the daily lines of all clashing daily pairs, then the calendar lines, both in loop order; `DailyPass` and `CalendarPass` equate the loops with it |
| Conflicts.Report | src/client.rs:665-675 | code 0 with "No conflicts found" for no lines, else code 1 with the lines joined by newlines; `ReportOfLines` states what it means |
| Conflicts.PassStep | src/client.rs:599-634 | one outer-loop turn appends exactly row `i`'s lines |
| Conflicts.DailyRow | src/client.rs:604-633 | the inner daily loop yields the lines of the clashing pairs in row `i` |
| Conflicts.DailyTurn | src/client.rs:599-603 | one outer daily turn, including the skip of a disabled schedule, extends the lines to the pairs before `i + 1` |
| Conflicts.DailyPass | src/client.rs:599-634 | the daily loops yield one line per clashing daily pair, in loop order |
| Conflicts.CalendarRow | src/client.rs:638-662 | the inner calendar loop yields the lines of the clashing pairs in row `i` |
| Conflicts.CalendarPass | src/client.rs:637-663 | the calendar loops yield one line per clashing calendar pair, in loop order |
| Conflicts.NoPairsIff | src/client.rs:666 | the pair list is empty iff no pair clashes |
| Conflicts.IdHasNoNewline | src/client.rs:627-630 | a rendered id has no line break |
| Conflicts.DailyTextNoNewline | src/client.rs:627-630 | a daily conflict line has no line break |
| Conflicts.CalendarTextNoNewline | src/client.rs:657-660 | a calendar conflict line has no line break |
| Conflicts.DailyLinesNoNewline | src/client.rs:599-634 | no daily line has a line break |
| Conflicts.CalendarLinesNoNewline | src/client.rs:637-663 | no calendar line has a line break |
| Conflicts.TextsHaveNoNewline | src/client.rs:596-663 | no conflict line has a line break |
| Conflicts.ReportOfLines | src/client.rs:666-676 | on break-free lines: code 0 with "No conflicts found" iff no lines, else code 1 and the text splits back into the lines |
| Conflicts.NoConflictsIff | src/client.rs:596-666 | no lines iff no daily pair and no calendar pair clashes |
| Conflicts.ReportMeaning | src/client.rs:591-677 | code 0 (with "No conflicts found") iff no pair of either list clashes; otherwise code 1 and splitting the text at `\n` recovers every conflict line |
| Conflicts.DisabledNeverReported | src/client.rs:600-607 | a disabled daily schedule is in no reported pair |
| Conflicts.ClashSymmetric | src/client.rs:610-628 | both clash tests are symmetric |
| Conflicts.MinuteOfDayOrder | src/client.rs:621-624 | on valid times, `hours * 60 + minutes` orders times as the clock does |
| Conflicts.DateOrdinalOrder | src/client.rs:640-643 | on accepted dates, `month * 31 + day` orders dates as the calendar does |
| Conflicts.OvernightRangeExample | src/client.rs:621-626 | 22:00–02:00 is never found to overlap 23:00–23:30 |
| Conflicts.CheckScheduleConflicts | src/client.rs:591-677 | the source's loops produce the reference report; code 0 iff no clash; otherwise code 1 with the lines recoverable by splitting |
| Conflicts.OnePair | src/client.rs:599-663 | two clashing schedules give exactly the pair `(0, 1)` |
| Conflicts.EmptySchedulesExample | src/client.rs:666-670 | no schedules report code 0, "No conflicts found" |
| Conflicts.DailyTextExample | src/client.rs:627-630 | the daily line for ids 1 and 2 |
| Conflicts.SmallIds | src/client.rs:629 | ids 1 and 2 render as "1" and "2" |
| Conflicts.OneDailyLine | src/client.rs:596-677 | one daily clash gives code 1 and exactly its line |
| Conflicts.EverydayOverlapExample | src/client.rs:596-677 | two everyday schedules 08–12 and 10–14 are reported |
| Conflicts.WeekdaysWeekendExample | src/client.rs:615 | weekdays against weekend never conflict |
| Conflicts.DisabledExample | src/client.rs:600-602 | a disabled schedule never conflicts |
| Conflicts.CalendarDisjointTimesExample | src/client.rs:645-656 | overlapping dates with disjoint hours give code 0 |
| Conflicts.CalendarTextExample | src/client.rs:657-660 | the calendar line for ids 1 and 2 |
| Conflicts.CalendarTextOf | src/client.rs:657-660 | the calendar message is the fixed text around the two ids' renderings |
| Conflicts.CalendarLiteral | src/client.rs:658 | the assembled message for ids 1 and 2 is the expected literal |
| Conflicts.OneCalendarLine | src/client.rs:637-677 | one calendar clash gives code 1 and exactly its line |
| Conflicts.CalendarOverlapExample | src/client.rs:637-677 | overlapping dates and hours are reported with the calendar text |
| Utils.ParsePair | src/utils.rs:4-31 | success means exactly one separator and both fields in range; every failure has code 400 |
| Utils.ParseTime | src/utils.rs:4-31 | accepted times have hours 0..23 and minutes 0..59 (minute of day 0..1439); failures are 400 |
| Utils.ParseDate | src/utils.rs:34-61 | accepted dates have month 1..12 and day 1..31 (ordinal 32..403); failures are 400 |
| Utils.ParsePairFieldCount | src/utils.rs:5-11 | without exactly one separator the result is the format error, whatever else is wrong |
| Utils.ParsePairHalves | src/utils.rs:13-30 | with one separator the outcome is first-field error, then second-field error, then range error, then the pair |
| Utils.OneSeparatorSplits | src/utils.rs:5 | a string with exactly one separator is two separator-free halves around it |
| Utils.ParsePairAccepts | src/utils.rs:4-31 | the parser returns `(x, y)` iff the string is two halves parsing as `i32` to `x` and `y`, both in range |
| Utils.Pad2Free | src/utils.rs:5 | a `{:02}` rendering holds neither separator |
| Utils.ParseTimeRoundTrip | src/utils.rs:4-31 | every valid time printed `{:02}:{:02}` parses back to itself |
| Utils.ParseDateRoundTrip | src/utils.rs:34-61 | every valid date printed `{:02}-{:02}` parses back to itself |
| Utils.ParseDateUnpaddedRoundTrip | src/utils.rs:34-61 | every valid date printed unpadded `{}-{}`, as the schedule listing does, parses back to itself |
| Utils.TimePaddedExample | src/utils.rs:4-31 | "08:00" is (8, 0) |
| Utils.TimeUnpaddedExample | src/utils.rs:4-31 | "8:5" is (8, 5) |
| Utils.TimeSignedExample | src/utils.rs:13 | "+8:00" is (8, 0) |
| Utils.TimeHoursRangeExample | src/utils.rs:23-28 | "24:00" is "Invalid time values" |
| Utils.TimeMinutesRangeExample | src/utils.rs:23-28 | "12:60" is "Invalid time values" |
| Utils.TimeThreeFieldsExample | src/utils.rs:5-11 | "8:0:0" is the format error |
| Utils.TimeOneFieldExample | src/utils.rs:5-11 | "8" is the format error |
| Utils.TimeBadHoursExample | src/utils.rs:13-16 | "xx:99" is "Invalid hours", before the minutes are checked |
| Utils.TimeBadMinutesExample | src/utils.rs:18-21 | "99: 1" is "Invalid minutes", before the range check |
| Utils.DatePaddedExample | src/utils.rs:34-61 | "01-01" is (1, 1) |
| Utils.DateMonthLengthExample | src/utils.rs:53-58 | "02-31" is accepted |
| Utils.DateMonthZeroExample | src/utils.rs:53-58 | "00-01" is "Invalid date values" |
| Utils.DateMonthRangeExample | src/utils.rs:53-58 | "13-01" is "Invalid date values" |
| Utils.DateDayRangeExample | src/utils.rs:53-58 | "01-32" is "Invalid date values" |
| Utils.DateWithYearExample | src/utils.rs:35-41 | "2024-01-01" is the format error |
| Utils.DateSignedExample | src/utils.rs:35-41 | "-1-05" is the format error |
| Utils.DatePlusExample | src/utils.rs:35-61 | "+01-05" is (1, 5): a leading `+` is not the separator and the month parser accepts it |
| Strings.Split | src/utils.rs:5 | `split` gives one piece more than there are separators, none holding a separator |
| Strings.Join | src/client.rs:674 | `join`: the pieces with the separator between neighbours; `JoinSplit` and `SplitJoin` are its inverses |
| Strings.JoinSplit | src/client.rs:674 | joining the pieces of a split restores the string |
| Strings.SplitJoin | src/client.rs:674 | splitting a join of separator-free pieces restores the pieces |
| Strings.SplitFree | src/utils.rs:5 | a separator-free string splits into itself |
| Strings.SplitTwo | src/utils.rs:5 | `a + sep + b` with separator-free halves splits into `[a, b]` |
| Strings.TrimStart | src/bin/cli.rs:952 | drops exactly the leading whitespace |
| Strings.TrimEnd | src/bin/cli.rs:952 | drops exactly the trailing whitespace |
| Strings.Trim | src/bin/cli.rs:952 | the result is a slice with only whitespace outside it and none at its ends |
| Strings.Lower | src/bin/cli.rs:759-760 | same length, and each character is lower-cased in place (ASCII letters only) |
| Strings.Contains | src/bin/cli.rs:760 | true iff the term occurs as a contiguous slice |
| Decimal.NatToString | src/client.rs:629 | the rendering is a non-empty digit string denoting `n`, with no leading zero |
| Decimal.IntToString | src/client.rs:629 | a non-empty rendering that starts with `-` exactly for negative numbers |
| Decimal.IntToStringDigits | src/client.rs:629 | after the optional `-`, the shortest digits denoting the magnitude |
| Decimal.Pad2 | src/bin/cli.rs:662 | at least two characters; for a non-negative number, digits denoting it; a negative number renders as plain `to_string` |
| Decimal.ParseI32 | src/utils.rs:13 | an accepted value is in the `i32` range and the text starts with a digit or a sign; `ParseI32Iff` gives the exact acceptance |
| Decimal.ParseI32Iff | src/utils.rs:13 | `Some(v)` iff the text is an optional `+` or `-` followed by one or more digits denoting `v` (negated after `-`) within the `i32` range |
| Decimal.ParseI32Examples | src/utils.rs:13 | "+8" is 8 and "-0" is 0; "1a", "8 ", "+-8" and "" are rejected |
| Decimal.ParseUnsigned | src/utils.rs:13 | an in-range digit string parses to its value |
| Decimal.LeadingZero | src/utils.rs:13 | a leading zero does not change a digit string's value |
| Decimal.ParseIntToString | src/bin/cli.rs:952 | every `i32`'s rendering parses back to it |
| Decimal.ParsePad2 | src/utils.rs:13 | every `i32`'s `{:02}` rendering parses back to it |
| Decimal.IntToStringChars | src/client.rs:629 | a rendering holds only digits and `-` |
| Base64.CharOf | src/client.rs:61 | every value below 64 maps to an alphabet character |
| Base64.ValueOf | src/client.rs:61 | defined exactly on the alphabet, and inverse to `CharOf` there |
| Base64.EncodeBlock | src/client.rs:61 | three bytes become four alphabet characters |
| Base64.Encode | src/client.rs:61 | the output uses only alphabet characters and `=` |
| Base64.BlockRoundTrip | src/client.rs:61 | four six-bit values reassemble their three bytes |
| Base64.DecodeEncode | src/client.rs:61 | decoding the encoding of any bytes gives them back |
| Base64.DecodeEncodeOne | src/client.rs:61 | a one-byte final group decodes back |
| Base64.DecodeEncodeTwo | src/client.rs:61 | a two-byte final group decodes back |
| Base64.DecodeGroup | src/client.rs:61 | a full group of four alphabet characters decodes to its three bytes in front of the rest |
| Base64.DecodeEncodeStep | src/client.rs:61 | a full group in front of decodable text decodes back |
| Base64.BlockInverse | src/client.rs:61 | the three bytes of four six-bit values split back into those values |
| Base64.DecodeCanonical | src/client.rs:61 | any text the strict decoder accepts is exactly the encoding of what it decodes to |
| Base64.CanonicalOne | src/client.rs:61 | two characters and `==` that decode are the encoding of their byte |
| Base64.CanonicalTwo | src/client.rs:61 | three characters and `=` that decode are the encoding of their two bytes |
| Base64.CanonicalStep | src/client.rs:61 | four alphabet characters before the encoding of `rest` encode their three bytes followed by `rest` |
| Base64.EncodeOneChars | src/client.rs:61 | the characters of the encoding of one byte |
| Base64.EncodeGroupChars | src/client.rs:61 | three bytes in front of the rest encode as their block followed by the rest's encoding |
| Base64.FourChars | src/client.rs:61 | four alphabet characters are the characters of their values |
| Base64.EncodeLength | src/client.rs:61 | `n` bytes encode to `4 * ceil(n / 3)` characters |
| Auth.Utf8Char | src/client.rs:58-60 | one to four bytes, one exactly for ASCII, all at least 0x80 otherwise |
| Auth.Utf8CharDecodes | src/client.rs:58-60 | a character's encoding is self-delimiting (its lead byte gives its length) and decodes back to the character |
| Auth.SplitSixBits | src/client.rs:58-60 | the quotient-and-remainder steps by 64 the encoding uses |
| Auth.Utf8 | src/client.rs:58-60 | the encoding is at least as long as the text, and exactly as long iff the text is ASCII |
| Auth.Utf8Injective | src/client.rs:58-60 | different strings have different `as_bytes()` |
| Auth.Utf8Append | src/client.rs:58 | encoding distributes over concatenation |
| Auth.AsciiUtf8 | src/client.rs:58 | ASCII text is encoded one byte per character |
| Auth.HeaderValueFromStr | src/client.rs:64-72 | accepted iff every character is a tab, or at least a space and not DEL; the value is the UTF-8 bytes |
| Auth.HeaderTextBytes | src/client.rs:64-72 | the byte rule on the encoding agrees with the character rule on the text |
| Auth.SignedMessage | src/client.rs:56 | `Trimlight`, the client id and the timestamp joined by vertical bars; `SignedMessageInjective` shows it determines both parts |
| Auth.SignedMessageInjective | src/client.rs:56 | with an all-digit timestamp, the signed text determines the client id and the timestamp |
| Auth.SignedBytesInjective | src/client.rs:56-60 | the bytes that are MACed determine the client id and the timestamp |
| Auth.GenerateAuthHeaders | src/client.rs:49-75 | headers exist iff the client id is valid header text; the timestamp is the shortest decimal of the clock; the authorization is 44 base64 characters, exactly the padded encoding of the HMAC of the signed text keyed by the secret, and decodes to it |
| Auth.TokenIsHeaderText | src/client.rs:61-66 | the base64 MAC is 44 ASCII header characters that decode back to the MAC |
| Auth.TokenLength | src/client.rs:61 | a 32-byte MAC encodes to 44 characters |
| Auth.DigitsAreHeaderText | src/client.rs:72 | a digit timestamp is ASCII header text |
| Client.Envelope | src/client.rs:102-109 | error iff the code is non-zero, carrying code and description; otherwise the payload, or the default when it is absent |
| Client.FindFirst | src/client.rs:289-292 | the index of the first element satisfying the test, `None` iff none does |
| Client.UpdateEffect | src/client.rs:288-311 | 404 "Effect N not found" iff no effect has the id; otherwise the payload is the matching effect with given fields replaced and the rest kept |
| Client.UpdateEffectNoChanges | src/client.rs:298-310 | with no changes, the payload is the stored effect |
| Client.UpdateEffectFirstMatch | src/client.rs:289-292 | among equal ids, the first effect is the one merged |
| Client.ScheduleKindOf | src/client.rs:478-487 | `daily` and `calendar` (any case) select their list; anything else is 400 |
| Client.DeleteSchedule | src/client.rs:472-497 | accepted iff the lower-cased type is `daily` or `calendar`; the endpoint embeds that type and the body is the id |
| Client.ModifySchedule | src/client.rs:521-589 | success only for type exactly `daily`, on the daily update endpoint, with a payload merged from a stored schedule of that id; an unknown type is 400; type `daily` with no stored id is 404 "Schedule N not found"; with a stored id it succeeds iff the given start (if any) and the end parse |
| Client.ModifyFirstMatch | src/client.rs:542-580 | among equal ids the first daily schedule is modified, and its merge decides the outcome, errors included |
| Client.DailyIsDailyKind | src/client.rs:531-532 | `daily` selects the daily list |
| Client.MergeSchedule | src/client.rs:554-580 | succeeds iff the given start (if any) and the end parse; a bad start's error is returned first, otherwise a bad end's own error; the payload is the merge |
| Client.ModifyOnlyDaily | src/client.rs:543-552 | any other type fails: 404 if it is a schedule type, else 400 |
| Client.ModifyStartBeforeEnd | src/client.rs:554-559 | a bad start time is reported before the end time is read |
| Client.ModifyNoChanges | src/client.rs:521-589 | re-sending a schedule's own end time, with nothing else, reproduces the schedule |
| EffectTables.NumberedFromAll | src/bin/cli.rs:26-228 | the recursive numbering check gives the indexwise one |
| EffectTables.NumberedJoin | src/bin/cli.rs:26-207 | consecutively numbered runs join into one |
| EffectTables.TableIds | src/bin/cli.rs:26-228 | 180 built-in entries with ids 0..179, 17 custom with ids 0..16, each id its position, each entry labelled with its table |
| Cli.DefaultDevice | src/bin/cli.rs:231-237 | an error iff the device list is empty; otherwise the first device's id |
| Cli.ResolveDevice | src/bin/cli.rs:711-714 | a given `--device` is used; otherwise the default device |
| Cli.CountTrue | src/bin/cli.rs:696 | the count is the number of `true` flags (their multiplicity in the flag multiset) |
| Cli.SwitchArm | src/bin/cli.rs:693-715 | exit 1 unless exactly one flag is set; then the device; state 0, 1 or 2 matching the flag set |
| Cli.CountOfThree | src/bin/cli.rs:695-697 | the count is 1 iff exactly one flag is set |
| Cli.Filter | src/bin/cli.rs:758-761 | an entry survives iff it was present and matches |
| Cli.FilterAppend | src/bin/cli.rs:758-761 | filtering a concatenation filters each part in order |
| Cli.FilterSubsequence | src/bin/cli.rs:758-761 | the result is an order-preserving subsequence |
| Cli.ShownTables | src/bin/cli.rs:747-748 | built-in shown iff `--built-in` or not `--custom`; custom shown iff `--custom` or not `--built-in`; never neither |
| Cli.Listing | src/bin/cli.rs:750-755 | the built-in table, then the custom table, each only when shown; `ModesArm` and `ModesOrder` state its order |
| Cli.ModesArm | src/bin/cli.rs:742-761 | an entry is listed iff its table is shown and it matches the search (if any); built-in entries come first |
| Cli.FilterLabelled | src/bin/cli.rs:758-761 | filtering keeps a one-category run one-category |
| Cli.ModesOrder | src/bin/cli.rs:750-761 | searched or not, no built-in entry follows a custom one |
| Cli.LabelledRuns | src/bin/cli.rs:750-755 | a built-in run followed by a custom run lists built-in first |
| Cli.CollectAll | src/bin/cli.rs:952-954 | some iff every piece converts; then the values in order |
| Cli.CollectAllExact | src/bin/cli.rs:952-954 | when every piece converts, the result is exactly those values |
| Cli.ParsePiece | src/bin/cli.rs:952 | one piece: trimmed, then parsed as `i32`; its acceptance is `ParseI32Iff` on the trimmed text |
| Cli.ParsePiecesAll | src/bin/cli.rs:952-954 | the collection succeeds iff every piece parses |
| Cli.ParseEffectIds | src/bin/cli.rs:950-954 | accepted iff every comma-separated piece, trimmed, parses as `i32`; then one id per piece, each the parse of its piece, in order |
| Cli.CombinedSetArm | src/bin/cli.rs:943-966 | device error first, then the format error, then an interval outside 1..3600 gives the interval exit; the "at least one" exit never fires; success carries the resolved device, the parsed ids and the interval |
| Cli.ParseEffectIdsRoundTrip | src/bin/cli.rs:950-954 | any non-empty list of `i32`s written comma-separated parses back to itself |
| Cli.RenderedSplits | src/bin/cli.rs:951 | comma-joined renderings split back into the renderings |
| Cli.RenderedParse | src/bin/cli.rs:952 | each rendering parses back to its id |
| Cli.Rendered | src/bin/cli.rs:950 | one rendering per id |
| Cli.RenderedTrims | src/bin/cli.rs:952 | a rendering has no surrounding whitespace |
| Cli.PreviewArm | src/bin/cli.rs:1043-1066 | mode 0..179, speed 0..255, brightness 0..255 and pixel length 1..90 are checked in that order, then the device |
| Cli.PreviewModesAreBuiltIn | src/bin/cli.rs:1044 | the accepted mode range is exactly the built-in table's ids |
| Cli.EmptyEffectIdsExample | src/bin/cli.rs:950-960 | an empty list is the format error, not the "at least one" exit |

## Left out

- HTTP, JSON (serde), async, printing, clap parsing and environment variables are not
  modelled. Fetched data is a parameter; the request the source sends is returned.
- The clock is a parameter. `SystemTime::now()` before the Unix epoch makes the source's
  `unwrap` panic; a `nat` clock cannot express that case.
- HMAC-SHA256 is an uninterpreted function parameter. The key-size `expect` cannot fail.
- The other endpoint wrappers in src/client.rs forward their arguments to `request` and
  hold no decisions. They are not part of this model.
- The other command-line arms print or forward and are not part of this model.
- Conflicts.DailyRow: the `hours * 60 + minutes` arithmetic is unbounded. Both fields
  are unvalidated `i32`s of fetched data, so any fetched time whose `hours * 60 + minutes`
  leaves the `i32` range (hours 1 and minutes 2147483647, say) overflows in the source:
  a panic in debug builds, a silent wrap in release builds that can change the verdict.
- Conflicts.CalendarRow: same unbounded arithmetic for `month * 31 + day` and the times.
- Strings.Lower: `to_lowercase` is modelled for ASCII letters only; Unicode case
  mapping (including characters whose lower case has a different length) is not.
- Cli.ModesArm: `to_lowercase` is modelled for ASCII letters only. For the schedule-type
  words `daily` and `calendar` this is exact. A search term holding a non-ASCII capital
  whose lower case is an ASCII letter (KELVIN SIGN) matches differently.
- Client.ScheduleKindOf: same ASCII-only `to_lowercase`. No non-ASCII character lowers
  into `daily` or `calendar`, so the outcome is exact.
- Auth.GenerateAuthHeaders: `None` stands for the panic of `HeaderValue::from_str(..).unwrap()`.
  HeaderMap's ordering and name lower-casing are not modelled.
- Client.ModifySchedule: the payload always carries `repetition`. The source adds it only
  for type `daily`, which is the only type that gets this far.
