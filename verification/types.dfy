/** Records shared by the client library and the command-line front-end.
    Field names follow the Rust structs; every Rust `i32` field is an
    unbounded `int` here (the values are never validated on fetch). */
module Types {

  /** Rust's `Option<T>`. */
  datatype Option<+T> = None | Some(value: T) {
    function GetOr(default: T): T {
      match this
      case Some(v) => v
      case None => default
    }
  }

  /** Rust's `Result<T, E>`. */
  datatype Result<+T, +E> = Ok(value: T) | Err(error: E)

  /** The one error variant the modelled logic produces: `ApiError { code, message }`. */
  datatype TrimlightError = ApiError(code: int, message: string)

  /** An octet. */
  newtype byte = x: int | 0 <= x < 256

  // ---- schedules ----

  datatype ScheduleTime = ScheduleTime(hours: int, minutes: int)

  datatype ScheduleDate = ScheduleDate(month: int, day: int)

  /** `repetition`: 0 today only, 1 everyday, 2 weekdays, 3 weekend; any other code is
      carried through unchanged. */
  datatype DailySchedule = DailySchedule(
    id: int,
    enable: bool,
    effectId: int,
    repetition: int,
    startTime: ScheduleTime,
    endTime: ScheduleTime)

  datatype CalendarSchedule = CalendarSchedule(
    id: int,
    effectId: int,
    startDate: ScheduleDate,
    endDate: ScheduleDate,
    startTime: ScheduleTime,
    endTime: ScheduleTime)

  datatype DeviceSchedules = DeviceSchedules(daily: seq<DailySchedule>, calendar: seq<CalendarSchedule>)

  // ---- effects ----

  datatype Pixel = Pixel(index: int, count: int, color: int, disable: bool)

  datatype Effect = Effect(
    id: int,
    name: string,
    category: int,
    mode: int,
    speed: int,
    brightness: int,
    pixelLen: Option<int>,
    reverse: Option<bool>,
    pixels: Option<seq<Pixel>>)

  // ---- devices and responses ----

  datatype Device = Device(
    deviceId: string,
    name: string,
    switchState: int,
    connectivity: int,
    state: int,
    fwVersionName: string)

  /** The generic response envelope `{ code, desc, payload }`. */
  datatype ApiResponse<T> = ApiResponse(code: int, desc: string, payload: Option<T>)

  /** `{ code, desc }`, also used as the conflict report. */
  datatype BasicResponse = BasicResponse(code: int, desc: string)
}
