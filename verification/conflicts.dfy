/** `check_schedule_conflicts`: every unordered pair of daily schedules, then every
    unordered pair of calendar schedules, is tested for a clash; the report lists one line
    per clashing pair, daily pairs first, each pass in index order `i < j`.

    The functional definition (`ClashingPairs`, `FindConflicts`, `Report`) states what is
    reported; `CheckScheduleConflicts` is the source's nested loops, proved to agree. */
module Conflicts {
  import opened Types
  import opened Strings
  import opened Decimal

  // ---- the per-pair tests ----

  /** The repetition-compatibility table, first matching row wins: today-only (0) on
      either side never overlaps, not even with everyday (1); otherwise everyday on
      either side always overlaps, whatever the other code; weekdays (2) and weekend (3)
      overlap only themselves; every other pair of codes does not overlap. */
  function DaysOverlap(r1: int, r2: int): (b: bool)
    ensures b <==> r1 != 0 && r2 != 0 && (r1 == 1 || r2 == 1 || (r1 == r2 && (r1 == 2 || r1 == 3)))
  {
    if r1 == 0 || r2 == 0 then false
    else if r1 == 1 || r2 == 1 then true
    else if r1 == 2 && r2 == 2 then true
    else if r1 == 3 && r2 == 3 then true
    else if (r1 == 2 && r2 == 3) || (r1 == 3 && r2 == 2) then false
    else false
  }

  function Max(a: int, b: int): int { if a < b then b else a }

  function Min(a: int, b: int): int { if a < b then a else b }

  /** The closed-interval test the source writes as two disjuncts; both disjuncts are the
      same condition, so it is the usual `s1 <= e2 && s2 <= e1`, and touching endpoints
      count as an overlap. */
  function RangesOverlap(s1: int, e1: int, s2: int, e2: int): (b: bool)
    ensures b <==> s1 <= e2 && s2 <= e1
    ensures s1 <= e1 && s2 <= e2 ==> (b <==> Max(s1, s2) <= Min(e1, e2))
  {
    (s1 <= e2 && e1 >= s2) || (s2 <= e1 && e2 >= s1)
  }

  /** Minutes since midnight. */
  function MinuteOfDay(t: ScheduleTime): int {
    t.hours * 60 + t.minutes
  }

  /** The coarse date ordinal `month * 31 + day` (not a true day of the year). */
  function DateOrdinal(d: ScheduleDate): int {
    d.month * 31 + d.day
  }

  predicate TimesOverlap(s1: ScheduleTime, e1: ScheduleTime, s2: ScheduleTime, e2: ScheduleTime) {
    RangesOverlap(MinuteOfDay(s1), MinuteOfDay(e1), MinuteOfDay(s2), MinuteOfDay(e2))
  }

  /** A daily pair is reported when both are enabled, their day patterns overlap and their
      time ranges overlap. */
  predicate DailyClash(a: DailySchedule, b: DailySchedule) {
    && a.enable
    && b.enable
    && DaysOverlap(a.repetition, b.repetition)
    && TimesOverlap(a.startTime, a.endTime, b.startTime, b.endTime)
  }

  /** A calendar pair (no enable flag) is reported when both the date ranges and the time
      ranges overlap. */
  predicate CalendarClash(a: CalendarSchedule, b: CalendarSchedule) {
    && RangesOverlap(DateOrdinal(a.startDate), DateOrdinal(a.endDate), DateOrdinal(b.startDate), DateOrdinal(b.endDate))
    && TimesOverlap(a.startTime, a.endTime, b.startTime, b.endTime)
  }

  // ---- enumerating pairs ----

  /** A pair of indices `(i, j)` into one schedule list. */
  type Pair = (nat, nat)

  predicate LexLess(p: Pair, q: Pair) {
    p.0 < q.0 || (p.0 == q.0 && p.1 < q.1)
  }

  predicate LexSorted(ps: seq<Pair>) {
    forall a, b :: 0 <= a < b < |ps| ==> LexLess(ps[a], ps[b])
  }

  /** The clashing pairs `(i, k)` with `i < k < j`, in increasing `k`. */
  function Row<T>(xs: seq<T>, clash: (T, T) -> bool, i: nat, j: nat): (ps: seq<Pair>)
    requires i < j <= |xs|
    ensures forall k :: 0 <= k < |ps| ==> ps[k].0 == i && i < ps[k].1 < j && clash(xs[i], xs[ps[k].1])
    ensures forall m: nat :: i < m < j && clash(xs[i], xs[m]) ==> (i, m) in ps
    ensures LexSorted(ps)
    decreases j
  {
    if j == i + 1 then []
    else
      var prev := Row(xs, clash, i, j - 1);
      var ps := prev + (if clash(xs[i], xs[j - 1]) then [(i, j - 1)] else []);
      assert forall k :: 0 <= k < |prev| ==> ps[k] == prev[k];
      ps
  }

  /** Every pair in `ps` is an increasing index pair of `xs` that clashes. */
  predicate AllClash<T>(xs: seq<T>, clash: (T, T) -> bool, ps: seq<Pair>) {
    forall k :: 0 <= k < |ps| ==> ps[k].0 < ps[k].1 < |xs| && clash(xs[ps[k].0], xs[ps[k].1])
  }

  /** Every pair in `ps` starts below `i`. */
  predicate FirstBelow(ps: seq<Pair>, i: nat) {
    forall k :: 0 <= k < |ps| ==> ps[k].0 < i
  }

  /** Every clashing pair starting below `i` is in `ps`. */
  predicate CoversBelow<T>(xs: seq<T>, clash: (T, T) -> bool, ps: seq<Pair>, i: nat) {
    forall a: nat, b: nat :: a < i && a < b < |xs| && clash(xs[a], xs[b]) ==> (a, b) in ps
  }

  /** The clashing pairs whose first index is below `i`, in index order. */
  function PairsBefore<T>(xs: seq<T>, clash: (T, T) -> bool, i: nat): (ps: seq<Pair>)
    requires i <= |xs|
    ensures AllClash(xs, clash, ps) && FirstBelow(ps, i)
    ensures CoversBelow(xs, clash, ps, i)
    ensures LexSorted(ps)
    decreases i
  {
    if i == 0 then []
    else
      var prev := PairsBefore(xs, clash, i - 1);
      var row := Row(xs, clash, i - 1, |xs|);
      PairsBeforeStep(xs, clash, i, prev, row);
      prev + row
  }

  /** Appending row `i - 1` to the pairs before `i - 1` gives the pairs before `i`. */
  lemma PairsBeforeStep<T>(xs: seq<T>, clash: (T, T) -> bool, i: nat, prev: seq<Pair>, row: seq<Pair>)
    requires 0 < i <= |xs|
    requires AllClash(xs, clash, prev) && FirstBelow(prev, i - 1)
    requires CoversBelow(xs, clash, prev, i - 1) && LexSorted(prev)
    requires forall k :: 0 <= k < |row| ==> row[k].0 == i - 1 && i - 1 < row[k].1 < |xs| && clash(xs[i - 1], xs[row[k].1])
    requires forall m: nat :: i - 1 < m < |xs| && clash(xs[i - 1], xs[m]) ==> (i - 1, m) in row
    requires LexSorted(row)
    ensures AllClash(xs, clash, prev + row) && FirstBelow(prev + row, i)
    ensures CoversBelow(xs, clash, prev + row, i)
    ensures LexSorted(prev + row)
  {
    ConcatMembers(prev, row);
    SortedConcat(prev, row);
  }

  /** Concatenating two sorted runs, the first wholly below the second, stays sorted. */
  lemma SortedConcat(p: seq<Pair>, q: seq<Pair>)
    requires LexSorted(p) && LexSorted(q)
    requires forall a, b :: 0 <= a < |p| && 0 <= b < |q| ==> LexLess(p[a], q[b])
    ensures LexSorted(p + q)
  {
    var ps := p + q;
    forall a, b | 0 <= a < b < |ps|
      ensures LexLess(ps[a], ps[b])
    {
      if b < |p| {
        assert ps[a] == p[a] && ps[b] == p[b];
      } else if a >= |p| {
        assert ps[a] == q[a - |p|] && ps[b] == q[b - |p|];
      } else {
        assert ps[a] == p[a] && ps[b] == q[b - |p|];
      }
    }
  }

  /** Every clashing pair `i < j`, each exactly once, in the order the nested loops of
      the source meet them; a schedule is never paired with itself. */
  function ClashingPairs<T>(xs: seq<T>, clash: (T, T) -> bool): (ps: seq<Pair>)
    ensures forall a: nat, b: nat :: (a, b) in ps <==> a < b < |xs| && clash(xs[a], xs[b])
    ensures forall k :: 0 <= k < |ps| ==> ps[k].0 < ps[k].1 < |xs|
    ensures LexSorted(ps)
    ensures forall a, b :: 0 <= a < b < |ps| ==> ps[a] != ps[b]
  {
    PairsBefore(xs, clash, |xs|)
  }

  /** The members of a concatenation, by position and by value. */
  lemma ConcatMembers<A>(p: seq<A>, q: seq<A>)
    ensures forall k :: 0 <= k < |p| ==> (p + q)[k] == p[k]
    ensures forall k :: |p| <= k < |p + q| ==> (p + q)[k] == q[k - |p|]
    ensures forall x :: x in p + q <==> x in p || x in q
  {
  }

  // ---- the report ----

  function DailyText(a: DailySchedule, b: DailySchedule): string {
    "Daily schedules " + IntToString(a.id) + " and " + IntToString(b.id) + " have overlapping times"
  }

  function CalendarText(a: CalendarSchedule, b: CalendarSchedule): string {
    "Calendar schedules " + IntToString(a.id) + " and " + IntToString(b.id)
      + " have overlapping dates and times"
  }

  predicate PairsWithin(ps: seq<Pair>, n: nat) {
    forall k :: 0 <= k < |ps| ==> ps[k].0 < n && ps[k].1 < n
  }

  /** One line per pair, in the pairs' order. */
  function Describe<T>(xs: seq<T>, ps: seq<Pair>, text: (T, T) -> string): (lines: seq<string>)
    requires PairsWithin(ps, |xs|)
    ensures |lines| == |ps|
  {
    seq(|ps|, k requires 0 <= k < |ps| => text(xs[ps[k].0], xs[ps[k].1]))
  }

  /** All conflict lines: the daily pass, then the calendar pass. */
  function FindConflicts(s: DeviceSchedules): seq<string> {
    Describe(s.daily, ClashingPairs(s.daily, DailyClash), DailyText)
      + Describe(s.calendar, ClashingPairs(s.calendar, CalendarClash), CalendarText)
  }

  /** The `BasicResponse` built from the conflict lines. */
  function Report(conflicts: seq<string>): BasicResponse {
    if |conflicts| == 0 then BasicResponse(0, "No conflicts found")
    else BasicResponse(1, Join(conflicts, "\n"))
  }

  // ---- the source's loops ----

  lemma DescribeAppend<T>(xs: seq<T>, ps: seq<Pair>, qs: seq<Pair>, text: (T, T) -> string)
    requires PairsWithin(ps, |xs|) && PairsWithin(qs, |xs|)
    ensures PairsWithin(ps + qs, |xs|)
    ensures Describe(xs, ps + qs, text) == Describe(xs, ps, text) + Describe(xs, qs, text)
  {
    assert PairsWithin(ps + qs, |xs|) by {
      forall k | 0 <= k < |ps + qs|
        ensures (ps + qs)[k].0 < |xs| && (ps + qs)[k].1 < |xs|
      {
        if k >= |ps| {
          assert (ps + qs)[k] == qs[k - |ps|];
        }
      }
    }
  }

  /** A disabled first schedule contributes an empty row. */
  lemma {:induction false} DisabledRowEmpty(xs: seq<DailySchedule>, i: nat, j: nat)
    requires i < j <= |xs| && !xs[i].enable
    ensures Row(xs, DailyClash, i, j) == []
  {
    var ps := Row(xs, DailyClash, i, j);
    assert |ps| > 0 ==> DailyClash(xs[i], xs[ps[0].1]);
  }

  /** One line for a pair, appended after the lines for the pairs before it. */
  lemma DescribeSnoc<T>(xs: seq<T>, ps: seq<Pair>, i: nat, j: nat, text: (T, T) -> string)
    requires PairsWithin(ps, |xs|) && i < |xs| && j < |xs|
    ensures PairsWithin(ps + [(i, j)], |xs|)
    ensures Describe(xs, ps + [(i, j)], text) == Describe(xs, ps, text) + [text(xs[i], xs[j])]
  {
    DescribeAppend(xs, ps, [(i, j)], text);
  }

  /** One more turn of an inner loop appends the line for `(i, j)` exactly when the pair
      clashes. */
  lemma RowStep<T>(xs: seq<T>, clash: (T, T) -> bool, i: nat, j: nat, text: (T, T) -> string)
    requires i < j < |xs|
    ensures Describe(xs, Row(xs, clash, i, j + 1), text)
         == Describe(xs, Row(xs, clash, i, j), text) + (if clash(xs[i], xs[j]) then [text(xs[i], xs[j])] else [])
  {
    var row := Row(xs, clash, i, j);
    if clash(xs[i], xs[j]) {
      DescribeSnoc(xs, row, i, j, text);
    } else {
      assert Row(xs, clash, i, j + 1) == row + [];
    }
  }

  /** One more turn of an outer loop appends row `i`'s lines. */
  lemma PassStep<T>(xs: seq<T>, clash: (T, T) -> bool, i: nat, text: (T, T) -> string)
    requires i < |xs|
    ensures Describe(xs, PairsBefore(xs, clash, i + 1), text)
         == Describe(xs, PairsBefore(xs, clash, i), text) + Describe(xs, Row(xs, clash, i, |xs|), text)
  {
    DescribeAppend(xs, PairsBefore(xs, clash, i), Row(xs, clash, i, |xs|), text);
  }

  /** The inner loop of the daily pass for an enabled `daily[i]`: every later enabled
      schedule whose days and times overlap. */
  method DailyRow(daily: seq<DailySchedule>, i: nat) returns (lines: seq<string>)
    requires i < |daily| && daily[i].enable
    ensures lines == Describe(daily, Row(daily, DailyClash, i, |daily|), DailyText)
  {
    var schedule1 := daily[i];
    lines := [];
    var j := i + 1;
    while j < |daily|
      invariant i + 1 <= j <= |daily|
      invariant lines == Describe(daily, Row(daily, DailyClash, i, j), DailyText)
    {
      var schedule2 := daily[j];
      RowStep(daily, DailyClash, i, j, DailyText);
      if !schedule2.enable {
        j := j + 1;
        continue;
      }
      var overlappingDays := DaysOverlap(schedule1.repetition, schedule2.repetition);
      if overlappingDays {
        var start1 := schedule1.startTime.hours * 60 + schedule1.startTime.minutes;
        var end1 := schedule1.endTime.hours * 60 + schedule1.endTime.minutes;
        var start2 := schedule2.startTime.hours * 60 + schedule2.startTime.minutes;
        var end2 := schedule2.endTime.hours * 60 + schedule2.endTime.minutes;
        if (start1 <= end2 && end1 >= start2) || (start2 <= end1 && end2 >= start1) {
          lines := lines + [DailyText(schedule1, schedule2)];
        }
      }
      j := j + 1;
    }
  }

  /** One turn of the outer daily loop: a disabled first schedule skips its whole row. */
  method DailyTurn(daily: seq<DailySchedule>, i: nat, conflicts: seq<string>) returns (next: seq<string>)
    requires i < |daily|
    requires conflicts == Describe(daily, PairsBefore(daily, DailyClash, i), DailyText)
    ensures next == Describe(daily, PairsBefore(daily, DailyClash, i + 1), DailyText)
  {
    PassStep(daily, DailyClash, i, DailyText);
    if !daily[i].enable {
      DisabledRowEmpty(daily, i, |daily|);
      return conflicts;
    }
    var lines := DailyRow(daily, i);
    next := conflicts + lines;
  }

  /** The daily pass of `check_schedule_conflicts`. */
  method DailyPass(daily: seq<DailySchedule>) returns (conflicts: seq<string>)
    ensures conflicts == Describe(daily, ClashingPairs(daily, DailyClash), DailyText)
  {
    conflicts := [];
    var i := 0;
    while i < |daily|
      invariant 0 <= i <= |daily|
      invariant conflicts == Describe(daily, PairsBefore(daily, DailyClash, i), DailyText)
    {
      conflicts := DailyTurn(daily, i, conflicts);
      i := i + 1;
    }
  }

  /** The inner loop of the calendar pass: every later schedule whose date range and time
      range both overlap those of `calendar[i]`. */
  method CalendarRow(calendar: seq<CalendarSchedule>, i: nat) returns (lines: seq<string>)
    requires i < |calendar|
    ensures lines == Describe(calendar, Row(calendar, CalendarClash, i, |calendar|), CalendarText)
  {
    var schedule1 := calendar[i];
    lines := [];
    var j := i + 1;
    while j < |calendar|
      invariant i + 1 <= j <= |calendar|
      invariant lines == Describe(calendar, Row(calendar, CalendarClash, i, j), CalendarText)
    {
      var schedule2 := calendar[j];
      RowStep(calendar, CalendarClash, i, j, CalendarText);
      var start1 := schedule1.startDate.month * 31 + schedule1.startDate.day;
      var end1 := schedule1.endDate.month * 31 + schedule1.endDate.day;
      var start2 := schedule2.startDate.month * 31 + schedule2.startDate.day;
      var end2 := schedule2.endDate.month * 31 + schedule2.endDate.day;
      if (start1 <= end2 && end1 >= start2) || (start2 <= end1 && end2 >= start1) {
        var timeStart1 := schedule1.startTime.hours * 60 + schedule1.startTime.minutes;
        var timeEnd1 := schedule1.endTime.hours * 60 + schedule1.endTime.minutes;
        var timeStart2 := schedule2.startTime.hours * 60 + schedule2.startTime.minutes;
        var timeEnd2 := schedule2.endTime.hours * 60 + schedule2.endTime.minutes;
        if (timeStart1 <= timeEnd2 && timeEnd1 >= timeStart2)
          || (timeStart2 <= timeEnd1 && timeEnd2 >= timeStart1)
        {
          lines := lines + [CalendarText(schedule1, schedule2)];
        }
      }
      j := j + 1;
    }
  }

  /** The calendar pass of `check_schedule_conflicts`: no schedule is skipped. */
  method CalendarPass(calendar: seq<CalendarSchedule>) returns (conflicts: seq<string>)
    ensures conflicts == Describe(calendar, ClashingPairs(calendar, CalendarClash), CalendarText)
  {
    conflicts := [];
    var i := 0;
    while i < |calendar|
      invariant 0 <= i <= |calendar|
      invariant conflicts == Describe(calendar, PairsBefore(calendar, CalendarClash, i), CalendarText)
    {
      PassStep(calendar, CalendarClash, i, CalendarText);
      var lines := CalendarRow(calendar, i);
      conflicts := conflicts + lines;
      i := i + 1;
    }
  }

  // ---- what the report says ----

  /** No daily pair clashes. */
  predicate NoDailyClash(daily: seq<DailySchedule>) {
    forall a, b :: 0 <= a < b < |daily| ==> !DailyClash(daily[a], daily[b])
  }

  /** No calendar pair clashes. */
  predicate NoCalendarClash(calendar: seq<CalendarSchedule>) {
    forall a, b :: 0 <= a < b < |calendar| ==> !CalendarClash(calendar[a], calendar[b])
  }

  /** The pair list is empty exactly when no pair clashes. */
  lemma NoPairsIff<T>(xs: seq<T>, clash: (T, T) -> bool)
    ensures |ClashingPairs(xs, clash)| == 0
        <==> forall a, b :: 0 <= a < b < |xs| ==> !clash(xs[a], xs[b])
  {
    var ps := ClashingPairs(xs, clash);
    if |ps| > 0 {
      assert ps[0] in ps;
      assert (ps[0].0, ps[0].1) == ps[0];
    } else {
      forall a, b | 0 <= a < b < |xs|
        ensures !clash(xs[a], xs[b])
      {
        var a': nat, b': nat := a, b;
        assert (a', b') !in ps;
      }
    }
  }

  lemma IdHasNoNewline(id: int)
    ensures '\n' !in IntToString(id)
  {
    IntToStringChars(id);
  }

  lemma DailyTextNoNewline(a: DailySchedule, b: DailySchedule)
    ensures '\n' !in DailyText(a, b)
  {
    IdHasNoNewline(a.id);
    IdHasNoNewline(b.id);
  }

  lemma CalendarTextNoNewline(a: CalendarSchedule, b: CalendarSchedule)
    ensures '\n' !in CalendarText(a, b)
  {
    IdHasNoNewline(a.id);
    IdHasNoNewline(b.id);
  }

  /** No daily line has a line break. */
  lemma DailyLinesNoNewline(daily: seq<DailySchedule>)
    ensures var d := Describe(daily, ClashingPairs(daily, DailyClash), DailyText);
            forall k :: 0 <= k < |d| ==> '\n' !in d[k]
  {
    var ps := ClashingPairs(daily, DailyClash);
    forall k | 0 <= k < |ps|
      ensures '\n' !in DailyText(daily[ps[k].0], daily[ps[k].1])
    {
      DailyTextNoNewline(daily[ps[k].0], daily[ps[k].1]);
    }
  }

  /** No calendar line has a line break. */
  lemma CalendarLinesNoNewline(calendar: seq<CalendarSchedule>)
    ensures var c := Describe(calendar, ClashingPairs(calendar, CalendarClash), CalendarText);
            forall k :: 0 <= k < |c| ==> '\n' !in c[k]
  {
    var ps := ClashingPairs(calendar, CalendarClash);
    forall k | 0 <= k < |ps|
      ensures '\n' !in CalendarText(calendar[ps[k].0], calendar[ps[k].1])
    {
      CalendarTextNoNewline(calendar[ps[k].0], calendar[ps[k].1]);
    }
  }

  /** A conflict line names two ids and fixed words, so it has no line break. */
  lemma TextsHaveNoNewline(s: DeviceSchedules)
    ensures forall k :: 0 <= k < |FindConflicts(s)| ==> '\n' !in FindConflicts(s)[k]
  {
    var d := Describe(s.daily, ClashingPairs(s.daily, DailyClash), DailyText);
    var c := Describe(s.calendar, ClashingPairs(s.calendar, CalendarClash), CalendarText);
    DailyLinesNoNewline(s.daily);
    CalendarLinesNoNewline(s.calendar);
    ConcatMembers(d, c);
  }

  /** The report on separator-free lines: code 0 and the fixed message exactly when there
      are none, otherwise code 1 with the lines joined by line breaks, which split back
      into the lines. */
  lemma ReportOfLines(lines: seq<string>)
    requires forall k :: 0 <= k < |lines| ==> '\n' !in lines[k]
    ensures Report(lines).code == 0 <==> |lines| == 0
    ensures Report(lines).code == 0 ==> Report(lines).desc == "No conflicts found"
    ensures Report(lines).code != 0 ==> Report(lines).code == 1 && Split(Report(lines).desc, '\n') == lines
  {
    if |lines| > 0 {
      SplitJoin(lines, '\n');
    }
  }

  /** Neither pass finds a line exactly when no pair of either list clashes. */
  lemma NoConflictsIff(s: DeviceSchedules)
    ensures |FindConflicts(s)| == 0 <==> NoDailyClash(s.daily) && NoCalendarClash(s.calendar)
  {
    NoPairsIff(s.daily, DailyClash);
    NoPairsIff(s.calendar, CalendarClash);
  }

  /** The report has code 0 and the fixed message exactly when neither pass finds a
      clashing pair; otherwise it has code 1 and splitting its text at line breaks gives
      back the conflict lines. */
  lemma ReportMeaning(s: DeviceSchedules)
    ensures Report(FindConflicts(s)).code == 0 <==> NoDailyClash(s.daily) && NoCalendarClash(s.calendar)
    ensures Report(FindConflicts(s)).code == 0 ==> Report(FindConflicts(s)).desc == "No conflicts found"
    ensures Report(FindConflicts(s)).code != 0 ==>
              Report(FindConflicts(s)).code == 1 && Split(Report(FindConflicts(s)).desc, '\n') == FindConflicts(s)
  {
    NoConflictsIff(s);
    TextsHaveNoNewline(s);
    ReportOfLines(FindConflicts(s));
  }

  /** A disabled daily schedule is in no reported pair, whatever its times and days. */
  lemma DisabledNeverReported(daily: seq<DailySchedule>, k: nat)
    requires k < |daily| && !daily[k].enable
    ensures forall p :: p in ClashingPairs(daily, DailyClash) ==> p.0 != k && p.1 != k
  {
    var ps := ClashingPairs(daily, DailyClash);
    forall p | p in ps
      ensures p.0 != k && p.1 != k
    {
      assert DailyClash(daily[p.0], daily[p.1]);
    }
  }

  /** The overlap test is symmetric, so the order of a pair does not matter. */
  lemma ClashSymmetric(a: DailySchedule, b: DailySchedule, c: CalendarSchedule, d: CalendarSchedule)
    ensures DailyClash(a, b) == DailyClash(b, a)
    ensures CalendarClash(c, d) == CalendarClash(d, c)
  {
  }

  /** On valid times, the minute of the day orders times as the clock does. */
  lemma MinuteOfDayOrder(t: ScheduleTime, u: ScheduleTime)
    requires 0 <= t.hours <= 23 && 0 <= t.minutes <= 59
    requires 0 <= u.hours <= 23 && 0 <= u.minutes <= 59
    ensures MinuteOfDay(t) <= MinuteOfDay(u)
        <==> t.hours < u.hours || (t.hours == u.hours && t.minutes <= u.minutes)
  {
    if t.hours < u.hours {
      assert t.hours * 60 + 60 <= u.hours * 60;
    } else if t.hours > u.hours {
      assert u.hours * 60 + 60 <= t.hours * 60;
    }
  }

  /** On dates `parse_date` accepts, `month * 31 + day` orders dates as the calendar does,
      so the date test compares dates correctly within one year. */
  lemma DateOrdinalOrder(d: ScheduleDate, e: ScheduleDate)
    requires 1 <= d.month <= 12 && 1 <= d.day <= 31
    requires 1 <= e.month <= 12 && 1 <= e.day <= 31
    ensures DateOrdinal(d) <= DateOrdinal(e)
        <==> d.month < e.month || (d.month == e.month && d.day <= e.day)
  {
    if d.month < e.month {
      assert d.month * 31 + 31 <= e.month * 31;
    } else if d.month > e.month {
      assert e.month * 31 + 31 <= d.month * 31;
    }
  }

  /** A range that wraps past midnight (22:00 to 02:00) is never found to overlap a
      later evening range (23:00 to 23:30), since it is compared as the minutes 1320..120. */
  lemma OvernightRangeExample()
    ensures !TimesOverlap(ScheduleTime(22, 0), ScheduleTime(2, 0), ScheduleTime(23, 0), ScheduleTime(23, 30))
  {
  }

  /** `check_schedule_conflicts` after the fetch: the daily pass, the calendar pass, then
      the response. */
  method CheckScheduleConflicts(schedules: DeviceSchedules) returns (r: BasicResponse)
    ensures r == Report(FindConflicts(schedules))
    ensures r.code == 0 <==> NoDailyClash(schedules.daily) && NoCalendarClash(schedules.calendar)
    ensures r.code == 0 ==> r.desc == "No conflicts found"
    ensures r.code != 0 ==> r.code == 1 && Split(r.desc, '\n') == FindConflicts(schedules)
  {
    ReportMeaning(schedules);
    var dailyLines := DailyPass(schedules.daily);
    var calendarLines := CalendarPass(schedules.calendar);
    var conflicts := dailyLines + calendarLines;
    if |conflicts| == 0 {
      r := BasicResponse(0, "No conflicts found");
    } else {
      r := BasicResponse(1, Join(conflicts, "\n"));
    }
  }

  // ---- examples ----

  function Daily(id: int, enable: bool, repetition: int, start: int, end: int): DailySchedule {
    DailySchedule(id, enable, id, repetition, ScheduleTime(start, 0), ScheduleTime(end, 0))
  }

  function Calendar(id: int, startMonth: int, endMonth: int, start: int, end: int): CalendarSchedule {
    CalendarSchedule(id, id, ScheduleDate(startMonth, 1), ScheduleDate(endMonth, 28),
      ScheduleTime(start, 0), ScheduleTime(end, 0))
  }

  /** Two clashing schedules give exactly the one pair `(0, 1)`. */
  lemma OnePair<T>(xs: seq<T>, clash: (T, T) -> bool)
    requires |xs| == 2 && clash(xs[0], xs[1])
    ensures ClashingPairs(xs, clash) == [(0, 1)]
  {
    assert Row(xs, clash, 0, 1) == [];
    assert Row(xs, clash, 0, 2) == [(0, 1)];
    assert Row(xs, clash, 1, 2) == [];
    assert PairsBefore(xs, clash, 1) == [(0, 1)];
  }

  lemma EmptySchedulesExample()
    ensures Report(FindConflicts(DeviceSchedules([], []))) == BasicResponse(0, "No conflicts found")
  {
    ReportMeaning(DeviceSchedules([], []));
  }

  lemma DailyTextExample(a: DailySchedule, b: DailySchedule)
    requires a.id == 1 && b.id == 2
    ensures DailyText(a, b) == "Daily schedules 1 and 2 have overlapping times"
  {
    SmallIds();
  }

  lemma SmallIds()
    ensures IntToString(1) == "1" && IntToString(2) == "2"
  {
    assert NatToString(1) == [DigitChar(1)];
    assert NatToString(2) == [DigitChar(2)];
  }

  /** The one conflict line for a report with exactly one daily clash. */
  lemma OneDailyLine(daily: seq<DailySchedule>)
    requires |daily| == 2 && DailyClash(daily[0], daily[1])
    ensures Report(FindConflicts(DeviceSchedules(daily, []))) == BasicResponse(1, DailyText(daily[0], daily[1]))
  {
    OnePair(daily, DailyClash);
    var line := DailyText(daily[0], daily[1]);
    assert Describe(daily, [(0, 1)], DailyText) == [line];
    assert FindConflicts(DeviceSchedules(daily, [])) == [line];
  }

  /** Two enabled everyday schedules, 08:00-12:00 and 10:00-14:00. */
  lemma EverydayOverlapExample()
    ensures Report(FindConflicts(DeviceSchedules([Daily(1, true, 1, 8, 12), Daily(2, true, 1, 10, 14)], [])))
         == BasicResponse(1, "Daily schedules 1 and 2 have overlapping times")
  {
    var daily := [Daily(1, true, 1, 8, 12), Daily(2, true, 1, 10, 14)];
    assert DailyClash(daily[0], daily[1]);
    OneDailyLine(daily);
    DailyTextExample(daily[0], daily[1]);
  }

  /** Weekdays against weekend over the same hours never clash. */
  lemma WeekdaysWeekendExample()
    ensures Report(FindConflicts(DeviceSchedules([Daily(1, true, 2, 8, 12), Daily(2, true, 3, 8, 12)], []))).code == 0
  {
    ReportMeaning(DeviceSchedules([Daily(1, true, 2, 8, 12), Daily(2, true, 3, 8, 12)], []));
  }

  /** A disabled schedule does not clash even with an identical enabled one. */
  lemma DisabledExample()
    ensures Report(FindConflicts(DeviceSchedules([Daily(1, false, 1, 8, 12), Daily(2, true, 1, 8, 12)], []))).code == 0
  {
    ReportMeaning(DeviceSchedules([Daily(1, false, 1, 8, 12), Daily(2, true, 1, 8, 12)], []));
  }

  /** Calendar schedules whose dates overlap but whose hours do not. */
  lemma CalendarDisjointTimesExample()
    ensures Report(FindConflicts(DeviceSchedules([], [Calendar(1, 1, 3, 8, 10), Calendar(2, 2, 4, 11, 12)]))).code == 0
  {
    ReportMeaning(DeviceSchedules([], [Calendar(1, 1, 3, 8, 10), Calendar(2, 2, 4, 11, 12)]));
  }

  lemma CalendarTextExample(a: CalendarSchedule, b: CalendarSchedule)
    requires a.id == 1 && b.id == 2
    ensures CalendarText(a, b) == "Calendar schedules 1 and 2 have overlapping dates and times"
  {
    SmallIds();
    CalendarTextOf(a, b, "1", "2");
    CalendarLiteral();
  }

  /** The calendar message with the two ids' renderings left abstract. */
  lemma CalendarTextOf(a: CalendarSchedule, b: CalendarSchedule, x: string, y: string)
    requires IntToString(a.id) == x && IntToString(b.id) == y
    ensures CalendarText(a, b) == "Calendar schedules " + x + " and " + y + " have overlapping dates and times"
  {
  }

  lemma CalendarLiteral()
    ensures "Calendar schedules " + "1" + " and " + "2" + " have overlapping dates and times"
            == "Calendar schedules 1 and 2 have overlapping dates and times"
  {
  }

  /** The one conflict line for a report with exactly one calendar clash. */
  lemma OneCalendarLine(calendar: seq<CalendarSchedule>)
    requires |calendar| == 2 && CalendarClash(calendar[0], calendar[1])
    ensures Report(FindConflicts(DeviceSchedules([], calendar)))
         == BasicResponse(1, CalendarText(calendar[0], calendar[1]))
  {
    OnePair(calendar, CalendarClash);
    var line := CalendarText(calendar[0], calendar[1]);
    assert Describe(calendar, [(0, 1)], CalendarText) == [line];
    assert FindConflicts(DeviceSchedules([], calendar)) == [] + [line];
  }

  /** Calendar schedules whose dates and hours both overlap. */
  lemma CalendarOverlapExample()
    ensures Report(FindConflicts(DeviceSchedules([], [Calendar(1, 1, 3, 8, 10), Calendar(2, 2, 4, 9, 12)])))
         == BasicResponse(1, "Calendar schedules 1 and 2 have overlapping dates and times")
  {
    var calendar := [Calendar(1, 1, 3, 8, 10), Calendar(2, 2, 4, 9, 12)];
    assert CalendarClash(calendar[0], calendar[1]);
    OneCalendarLine(calendar);
    CalendarTextExample(calendar[0], calendar[1]);
  }
}
