/** The decisions `TrimlightClient` makes around its requests (src/client.rs): the
    response envelope, the field merge of `update_effect`, and the endpoint choice and
    field merge of `delete_schedule` and `modify_schedule`. The HTTP exchange itself is
    not modelled: where the source fetches device details, the fetched data is a
    parameter, and where it sends a request, the model returns the endpoint and body. */
module Client {
  import opened Types
  import opened Strings
  import opened Decimal
  import opened Utils

  // ---- the envelope ----

  /** The tail of `request`: a non-zero code is an API error carrying the code and
      description; code 0 yields the payload, or the type's default when it is absent. */
  function Envelope<T>(response: ApiResponse<T>, default: T): (r: Result<T, TrimlightError>)
    ensures r.Err? <==> response.code != 0
    ensures r.Err? ==> r.error == ApiError(response.code, response.desc)
    ensures r.Ok? && response.payload.Some? ==> r.value == response.payload.value
    ensures r.Ok? && response.payload.None? ==> r.value == default
  {
    if response.code != 0 then Err(ApiError(response.code, response.desc))
    else Ok(response.payload.GetOr(default))
  }

  // ---- first match ----

  /** `iter().find(...)`: the index of the first element satisfying `p`. */
  function FindFirst<T>(xs: seq<T>, p: T -> bool): (r: Option<nat>)
    ensures r.Some? ==> r.value < |xs| && p(xs[r.value])
    ensures r.Some? ==> forall k :: 0 <= k < r.value ==> !p(xs[k])
    ensures r.None? ==> forall k :: 0 <= k < |xs| ==> !p(xs[k])
    decreases |xs|
  {
    if |xs| == 0 then None
    else if p(xs[0]) then Some(0)
    else
      match FindFirst(xs[1..], p)
      case None => None
      case Some(i) => Some(i + 1)
  }

  // ---- update_effect ----

  /** The optional fields of `update_effect`; `None` keeps the stored value. */
  datatype EffectChanges = EffectChanges(
    name: Option<string>,
    mode: Option<int>,
    speed: Option<int>,
    brightness: Option<int>,
    pixelLen: Option<int>,
    reverse: Option<bool>,
    pixels: Option<seq<Pixel>>)

  /** `Option::or`: the given value if present, else the stored one (itself optional). */
  function Or<T>(given: Option<T>, stored: Option<T>): Option<T> {
    if given.Some? then given else stored
  }

  /** The payload `update_effect` sends, built from the first stored effect with the
      requested id; error 404 when there is none. */
  function UpdateEffect(effects: seq<Effect>, effectId: int, c: EffectChanges): (r: Result<Effect, TrimlightError>)
    ensures r.Err? <==> forall k :: 0 <= k < |effects| ==> effects[k].id != effectId
    ensures r.Err? ==> r.error == ApiError(404, "Effect " + IntToString(effectId) + " not found")
    ensures r.Ok? ==> exists k :: 0 <= k < |effects| && effects[k].id == effectId && Merged(effects[k], c, r.value)
    ensures r.Ok? ==> r.value.id == effectId
  {
    match FindFirst(effects, (e: Effect) => e.id == effectId)
    case None => Err(ApiError(404, "Effect " + IntToString(effectId) + " not found"))
    case Some(k) =>
      var current := effects[k];
      Ok(Effect(
        effectId,
        c.name.GetOr(current.name),
        current.category,
        c.mode.GetOr(current.mode),
        c.speed.GetOr(current.speed),
        c.brightness.GetOr(current.brightness),
        Or(c.pixelLen, current.pixelLen),
        Or(c.reverse, current.reverse),
        Or(c.pixels, current.pixels)))
  }

  /** `e` is `stored` with the given changes: the id and category are the stored ones,
      and every other field is the given value when present, else the stored value. */
  predicate Merged(stored: Effect, c: EffectChanges, e: Effect) {
    && e.id == stored.id
    && e.category == stored.category
    && (if c.name.Some? then e.name == c.name.value else e.name == stored.name)
    && (if c.mode.Some? then e.mode == c.mode.value else e.mode == stored.mode)
    && (if c.speed.Some? then e.speed == c.speed.value else e.speed == stored.speed)
    && (if c.brightness.Some? then e.brightness == c.brightness.value else e.brightness == stored.brightness)
    && (if c.pixelLen.Some? then e.pixelLen == c.pixelLen else e.pixelLen == stored.pixelLen)
    && (if c.reverse.Some? then e.reverse == c.reverse else e.reverse == stored.reverse)
    && (if c.pixels.Some? then e.pixels == c.pixels else e.pixels == stored.pixels)
  }

  const NoEffectChanges: EffectChanges := EffectChanges(None, None, None, None, None, None, None)

  /** With nothing to change, the payload is the stored effect itself. */
  lemma UpdateEffectNoChanges(effects: seq<Effect>, k: nat)
    requires k < |effects| && forall j :: 0 <= j < k ==> effects[j].id != effects[k].id
    ensures UpdateEffect(effects, effects[k].id, NoEffectChanges) == Ok(effects[k])
  {
    var f := FindFirst(effects, (e: Effect) => e.id == effects[k].id);
    assert f.Some?;
    assert f.value == k;
  }

  /** Among several effects with the same id, the first one is the one updated. */
  lemma UpdateEffectFirstMatch(effects: seq<Effect>, effectId: int, c: EffectChanges, k: nat)
    requires k < |effects| && effects[k].id == effectId
    requires forall j :: 0 <= j < k ==> effects[j].id != effectId
    ensures UpdateEffect(effects, effectId, c).Ok?
    ensures Merged(effects[k], c, UpdateEffect(effects, effectId, c).value)
  {
    var p := (e: Effect) => e.id == effectId;
    var f := FindFirst(effects, p);
    assert f.Some?;
    assert f.value == k;
  }

  // ---- schedule endpoints ----

  datatype ScheduleKind = DailyKind | CalendarKind

  const InvalidScheduleType: TrimlightError :=
    ApiError(400, "Invalid schedule type. Must be 'daily' or 'calendar'")

  /** The lower-cased type picks the schedule list; anything else is error 400. */
  function ScheduleKindOf(scheduleType: string): (r: Result<ScheduleKind, TrimlightError>)
    ensures r == Ok(DailyKind) <==> Lower(scheduleType) == "daily"
    ensures r == Ok(CalendarKind) <==> Lower(scheduleType) == "calendar"
    ensures r.Err? ==> r.error == InvalidScheduleType
  {
    var t := Lower(scheduleType);
    if t == "daily" then Ok(DailyKind)
    else if t == "calendar" then Ok(CalendarKind)
    else Err(InvalidScheduleType)
  }

  /** The lower-case name of each list. */
  function KindName(kind: ScheduleKind): string {
    match kind
    case DailyKind => "daily"
    case CalendarKind => "calendar"
  }

  const SchedulePath := "/v1/oauth/resources/device/schedule/"

  /** The endpoint `delete_schedule` posts to for each list. */
  function DeleteEndpoint(kind: ScheduleKind): string {
    SchedulePath + KindName(kind) + "/delete"
  }

  /** The endpoint `modify_schedule` posts to for each list. */
  function UpdateEndpoint(kind: ScheduleKind): string {
    SchedulePath + KindName(kind) + "/update"
  }

  /** A request the client would send: the endpoint path and the id or payload. */
  datatype ScheduleRequest = ScheduleRequest(endpoint: string, payload: DailySchedule)

  /** `delete_schedule`: the endpoint for the type, with the schedule id as the body. */
  function DeleteSchedule(scheduleId: int, scheduleType: string): (r: Result<(string, int), TrimlightError>)
    ensures r.Ok? <==> Lower(scheduleType) == "daily" || Lower(scheduleType) == "calendar"
    ensures r.Ok? ==> r.value.1 == scheduleId
    ensures r.Ok? ==> r.value.0 == SchedulePath + Lower(scheduleType) + "/delete"
    ensures r.Err? ==> r.error == InvalidScheduleType
  {
    match ScheduleKindOf(scheduleType)
    case Err(e) => Err(e)
    case Ok(kind) => Ok((DeleteEndpoint(kind), scheduleId))
  }

  /** The changes `modify_schedule` accepts; `end` is required. */
  datatype ScheduleChanges = ScheduleChanges(
    effectId: Option<int>,
    start: Option<string>,
    end: string,
    repetition: Option<int>)

  /** `modify_schedule`, after fetching the daily list `daily`. The checks run in this
      order: the type (400), the lookup (404, which only a type of exactly `daily` can
      pass), the start time if given, then the end time. */
  function ModifySchedule(daily: seq<DailySchedule>, scheduleId: int, scheduleType: string, c: ScheduleChanges)
    : (r: Result<ScheduleRequest, TrimlightError>)
    ensures r.Ok? ==> scheduleType == "daily"
    ensures r.Ok? ==> r.value.endpoint == UpdateEndpoint(DailyKind)
    ensures r.Ok? ==> exists k :: 0 <= k < |daily| && daily[k].id == scheduleId && ScheduleMerged(daily[k], c, r.value.payload)
    ensures ScheduleKindOf(scheduleType).Err? ==> r == Err(InvalidScheduleType)
    ensures scheduleType == "daily" && (forall k :: 0 <= k < |daily| ==> daily[k].id != scheduleId) ==>
              r == Err(ApiError(404, "Schedule " + IntToString(scheduleId) + " not found"))
    ensures scheduleType == "daily" && (exists k :: 0 <= k < |daily| && daily[k].id == scheduleId) ==>
              (r.Ok? <==> (c.start.None? || ParseTime(c.start.value).Ok?) && ParseTime(c.end).Ok?)
  {
    match ScheduleKindOf(scheduleType)
    case Err(e) => Err(e)
    case Ok(kind) =>
      var found := if scheduleType == "daily" then FindFirst(daily, (s: DailySchedule) => s.id == scheduleId) else None;
      match found
      case None => Err(ApiError(404, "Schedule " + IntToString(scheduleId) + " not found"))
      case Some(k) =>
        DailyIsDailyKind();
        match MergeSchedule(daily[k], c)
        case Err(e) => Err(e)
        case Ok(payload) => Ok(ScheduleRequest(UpdateEndpoint(kind), payload))
  }

  /** The exact type `daily` selects the daily list. */
  lemma DailyIsDailyKind()
    ensures ScheduleKindOf("daily") == Ok(DailyKind)
  {
    assert Lower("daily") == "daily";
  }

  /** The payload built from the stored schedule: start (if given) and end are parsed in
      that order, and the first failure is returned. */
  function MergeSchedule(schedule: DailySchedule, c: ScheduleChanges): (r: Result<DailySchedule, TrimlightError>)
    ensures r.Ok? ==> ScheduleMerged(schedule, c, r.value)
    ensures r.Ok? <==> (c.start.None? || ParseTime(c.start.value).Ok?) && ParseTime(c.end).Ok?
    ensures c.start.Some? && ParseTime(c.start.value).Err? ==> r == Err(ParseTime(c.start.value).error)
    ensures (c.start.None? || ParseTime(c.start.value).Ok?) && ParseTime(c.end).Err? ==> r == Err(ParseTime(c.end).error)
  {
    var start := if c.start.Some? then ParseTime(c.start.value)
                 else Ok((schedule.startTime.hours, schedule.startTime.minutes));
    match start
    case Err(e) => Err(e)
    case Ok(s) =>
      match ParseTime(c.end)
      case Err(e) => Err(e)
      case Ok(e) =>
        Ok(DailySchedule(
          schedule.id,
          schedule.enable,
          c.effectId.GetOr(schedule.effectId),
          c.repetition.GetOr(schedule.repetition),
          ScheduleTime(s.0, s.1),
          ScheduleTime(e.0, e.1)))
  }

  /** `p` is `stored` with the changes applied: `enable` is kept, the effect and the
      repetition are the given value else the stored one, the start is the parsed given
      time else the stored one, and the end is the parsed given time. */
  predicate ScheduleMerged(stored: DailySchedule, c: ScheduleChanges, p: DailySchedule) {
    && p.id == stored.id
    && p.enable == stored.enable
    && p.effectId == c.effectId.GetOr(stored.effectId)
    && p.repetition == c.repetition.GetOr(stored.repetition)
    && (if c.start.Some? then ParseTime(c.start.value) == Ok((p.startTime.hours, p.startTime.minutes))
        else p.startTime == stored.startTime)
    && ParseTime(c.end) == Ok((p.endTime.hours, p.endTime.minutes))
  }

  /** Any type other than exactly `daily` fails: with 400 when it is not a schedule type
      at all, and with 404 otherwise (so `calendar` and `Daily` never succeed). */
  lemma ModifyOnlyDaily(daily: seq<DailySchedule>, scheduleId: int, scheduleType: string, c: ScheduleChanges)
    requires scheduleType != "daily"
    ensures ModifySchedule(daily, scheduleId, scheduleType, c).Err?
    ensures ScheduleKindOf(scheduleType).Ok? ==>
              ModifySchedule(daily, scheduleId, scheduleType, c)
              == Err(ApiError(404, "Schedule " + IntToString(scheduleId) + " not found"))
  {
  }

  /** Among several daily schedules with the same id, the first one is the one modified,
      and its merge decides the outcome, errors included. */
  lemma ModifyFirstMatch(daily: seq<DailySchedule>, scheduleId: int, c: ScheduleChanges, k: nat)
    requires k < |daily| && daily[k].id == scheduleId
    requires forall j :: 0 <= j < k ==> daily[j].id != scheduleId
    ensures ModifySchedule(daily, scheduleId, "daily", c)
            == match MergeSchedule(daily[k], c)
               case Err(e) => Err(e)
               case Ok(p) => Ok(ScheduleRequest(UpdateEndpoint(DailyKind), p))
  {
    DailyIsDailyKind();
    var f := FindFirst(daily, (s: DailySchedule) => s.id == scheduleId);
    assert f.Some?;
    assert f.value == k;
  }

  /** A start time that fails to parse is reported before the end time is looked at. */
  lemma ModifyStartBeforeEnd(daily: seq<DailySchedule>, scheduleId: int, c: ScheduleChanges)
    requires exists k :: 0 <= k < |daily| && daily[k].id == scheduleId
    requires c.start.Some? && ParseTime(c.start.value).Err?
    ensures ModifySchedule(daily, scheduleId, "daily", c) == Err(ParseTime(c.start.value).error)
  {
    var k :| 0 <= k < |daily| && daily[k].id == scheduleId;
    DailyIsDailyKind();
    var f := FindFirst(daily, (s: DailySchedule) => s.id == scheduleId);
    assert f.Some?;
  }

  /** Re-sending a stored schedule's own end time, rendered `HH:MM`, with nothing else
      given, reproduces the stored schedule. */
  lemma ModifyNoChanges(daily: seq<DailySchedule>, k: nat)
    requires k < |daily| && forall j :: 0 <= j < k ==> daily[j].id != daily[k].id
    requires 0 <= daily[k].endTime.hours <= 23 && 0 <= daily[k].endTime.minutes <= 59
    ensures
      var end := Pad2(daily[k].endTime.hours) + ":" + Pad2(daily[k].endTime.minutes);
      ModifySchedule(daily, daily[k].id, "daily", ScheduleChanges(None, None, end, None))
      == Ok(ScheduleRequest(UpdateEndpoint(DailyKind), daily[k]))
  {
    var s := daily[k];
    ParseTimeRoundTrip(s.endTime.hours, s.endTime.minutes);
    DailyIsDailyKind();
    var f := FindFirst(daily, (x: DailySchedule) => x.id == s.id);
    assert f.Some?;
    assert f == Some(k);
  }
}
