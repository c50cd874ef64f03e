/**
 * app/api/jobs/schedule/route.ts: the POST handler that turns a job request
 * into a calendar event and a `scheduled_jobs` row. The database, the
 * calendar service, the local-time conversion of `new Date(y, m, d, h, min)`
 * and `toISOString` are parameters; times are integer milliseconds.
 */
module JobSchedule {
  import opened Wrappers
  import opened Js
  import Text

  const Missing := "Missing required job information"
  const FetchFailed := "Failed to fetch job request details"
  const UpdateFailed := "Failed to update job details"
  const ScheduleFailed := "Failed to schedule job"

  const TimeZone := "America/New_York"
  const MsPerHour := 3600000

  /** The largest magnitude of a valid time value, 8.64e15 ms. */
  const MaxTime := 8640000000000000

  /** `jobRequestId`, `scheduledDate`, `scheduledTime` and `estimatedDuration` are all truthy. */
  predicate RequiredGiven(body: Json) {
    Truthy(ReadValue(Get(body, "jobRequestId"))) && Truthy(ReadValue(Get(body, "scheduledDate"))) &&
    Truthy(ReadValue(Get(body, "scheduledTime"))) && Truthy(ReadValue(Get(body, "estimatedDuration")))
  }

  /** Integer part toward zero. */
  function Truncate(x: real): (r: int)
    ensures x >= 0.0 ==> r as real <= x < r as real + 1.0
    ensures x < 0.0 ==> r as real - 1.0 < x <= r as real
  {
    if x >= 0.0 then x.Floor else -((-x).Floor)
  }

  /** `TimeClip`: NaN beyond 8.64e15 ms either way, otherwise the integer part. */
  function TimeClip(x: real): (r: Option<int>)
    ensures r.Some? <==> -(MaxTime as real) <= x <= MaxTime as real
    ensures forall n: int :: x == n as real && -MaxTime <= n <= MaxTime ==> r == Some(n)
  {
    if x < -(MaxTime as real) || x > MaxTime as real then None else Some(Truncate(x))
  }

  /** The `i`-th piece of a split through `Number`; a missing piece is `undefined`, which is NaN. */
  function Piece(parts: seq<string>, i: nat): Option<real> {
    if i < |parts| then StringToNumber(parts[i]) else None
  }

  /**
   * `new Date(year, month - 1, day, hours, minutes)` from the pieces of
   * `date.split('-')` and `time.split(':')`; `localTime` is the engine's
   * local-time conversion, `None` for an invalid date. Any NaN piece makes
   * the date invalid.
   */
  function StartTime(date: string, time: string, localTime: (real, real, real, real, real) -> Option<int>): Option<int> {
    StartFromPieces(Text.Split(date, '-'), Text.Split(time, ':'), localTime)
  }

  function StartFromPieces(dp: seq<string>, tp: seq<string>, localTime: (real, real, real, real, real) -> Option<int>): Option<int> {
    var y := Piece(dp, 0);
    var m := Piece(dp, 1);
    var d := Piece(dp, 2);
    var h := Piece(tp, 0);
    var mi := Piece(tp, 1);
    if y.None? || m.None? || d.None? || h.None? || mi.None? then None
    else localTime(y.value, MonthIndex(m.value), d.value, h.value, mi.value)
  }

  /** The constructor's month argument: months count from 0 in JavaScript. */
  function MonthIndex(month: real): real {
    month - 1.0
  }

  /**
   * A date whose `split('-')` gives three groups of decimal digits Y, M, D
   * and a time whose `split(':')` gives two, H and M, reach the date
   * constructor as year Y, month M - 1 (zero-based), day D, hour H and
   * minute M.
   */
  lemma DateTimeSplit(date: string, time: string, localTime: (real, real, real, real, real) -> Option<int>)
    requires |Text.Split(date, '-')| == 3 && |Text.Split(time, ':')| == 2
    requires AllDigits(Text.Split(date, '-')[0]) && AllDigits(Text.Split(date, '-')[1]) && AllDigits(Text.Split(date, '-')[2])
    requires AllDigits(Text.Split(time, ':')[0]) && AllDigits(Text.Split(time, ':')[1])
    ensures var dp := Text.Split(date, '-'); var tp := Text.Split(time, ':');
      StartTime(date, time, localTime)
      == localTime(DigitsValue(dp[0]) as real, MonthIndex(DigitsValue(dp[1]) as real), DigitsValue(dp[2]) as real,
                   DigitsValue(tp[0]) as real, DigitsValue(tp[1]) as real)
  {
    DigitPieces(Text.Split(date, '-'), Text.Split(time, ':'), localTime);
  }

  lemma DigitPieces(dp: seq<string>, tp: seq<string>, localTime: (real, real, real, real, real) -> Option<int>)
    requires |dp| == 3 && |tp| == 2
    requires AllDigits(dp[0]) && AllDigits(dp[1]) && AllDigits(dp[2]) && AllDigits(tp[0]) && AllDigits(tp[1])
    ensures StartFromPieces(dp, tp, localTime)
         == localTime(DigitsValue(dp[0]) as real, MonthIndex(DigitsValue(dp[1]) as real), DigitsValue(dp[2]) as real,
                      DigitsValue(tp[0]) as real, DigitsValue(tp[1]) as real)
  {
    PieceDigits(dp, 0);
    PieceDigits(dp, 1);
    PieceDigits(dp, 2);
    PieceDigits(tp, 0);
    PieceDigits(tp, 1);
    StartFromValues(dp, tp, localTime, DigitsValue(dp[0]) as real, DigitsValue(dp[1]) as real, DigitsValue(dp[2]) as real,
                    DigitsValue(tp[0]) as real, DigitsValue(tp[1]) as real);
  }

  lemma StartFromValues(dp: seq<string>, tp: seq<string>, localTime: (real, real, real, real, real) -> Option<int>,
                        y: real, m: real, d: real, h: real, mi: real)
    requires Piece(dp, 0) == Some(y) && Piece(dp, 1) == Some(m) && Piece(dp, 2) == Some(d)
    requires Piece(tp, 0) == Some(h) && Piece(tp, 1) == Some(mi)
    ensures StartFromPieces(dp, tp, localTime) == localTime(y, MonthIndex(m), d, h, mi)
  {
  }

  lemma PieceDigits(parts: seq<string>, i: nat)
    requires i < |parts| && AllDigits(parts[i])
    ensures Piece(parts, i) == Some(DigitsValue(parts[i]) as real)
  {
    Text.TrimNoop(parts[i]);
  }

  /**
   * `new Date(start + estimatedDuration * 60 * 60 * 1000)`: the end lies
   * within a millisecond of the start plus the duration in hours, and is
   * invalid when the duration is NaN or the end is out of range.
   */
  function EndTime(start: int, duration: Json): (r: Option<int>)
    ensures r.Some? <==> (ToNumber(duration).Some? &&
      -(MaxTime as real) <= start as real + ToNumber(duration).value * MsPerHour as real <= MaxTime as real)
    ensures r.Some? ==> var exact := start as real + ToNumber(duration).value * MsPerHour as real;
      r.value as real - 1.0 < exact < r.value as real + 1.0
  {
    var hours := ToNumber(duration);
    if hours.None? then None else TimeClip(start as real + hours.value * MsPerHour as real)
  }

  /** A whole number of hours puts the end exactly that many hours after the start. */
  lemma WholeHours(start: int, duration: Json, k: int)
    requires ToNumber(duration) == Some(k as real)
    requires -MaxTime <= start + k * MsPerHour <= MaxTime
    ensures EndTime(start, duration) == Some(start + k * MsPerHour)
  {
    assert start as real + (k as real) * MsPerHour as real == (start + k * MsPerHour) as real;
  }

  /** The start and end the event is given, as `toISOString` renders them. */
  predicate EventTimes(body: Json, localTime: (real, real, real, real, real) -> Option<int>, iso: int -> string,
                       start: string, end: string)
  {
    var date := ReadValue(Get(body, "scheduledDate"));
    var time := ReadValue(Get(body, "scheduledTime"));
    var duration := ReadValue(Get(body, "estimatedDuration"));
    date.Some? && date.value.JStr? && time.Some? && time.value.JStr? && duration.Some? &&
    var s := StartTime(date.value.s, time.value.s, localTime);
    s.Some? && EndTime(s.value, duration.value).Some? &&
    start == iso(s.value) && end == iso(EndTime(s.value, duration.value).value)
  }

  datatype Reminder = Reminder(channel: string, minutes: int)

  /** The fixed reminders: an email a day before and a popup an hour before. */
  const Reminders: seq<Reminder> := [Reminder("email", 24 * 60), Reminder("popup", 60)]

  /** The calendar event, without its free-text description. */
  datatype Event = Event(summary: string, location: Option<Json>, start: string, end: string, timeZone: string,
                         attendees: seq<Json>, useDefaultReminders: bool, reminders: seq<Reminder>)

  /** The `scheduled_jobs` row. */
  datatype ScheduledRow = ScheduledRow(jobRequestId: Json, scheduledDate: Json, scheduledTime: Json,
                                       estimatedDuration: Json, assignedStaff: Option<Json>,
                                       calendarEventId: Option<Json>, status: Json, jobDetails: Option<Json>,
                                       createdAt: string)

  /** `${v}` in a template literal: `undefined` for a missing value. */
  function Interpolated(v: Option<Json>, numberText: real -> string): string {
    if v.None? then "undefined" else JsText(v.value, numberText)
  }

  /** Attendees: the assigned staff member when given, otherwise nobody. */
  function Attendees(assignedStaff: Option<Json>): (r: seq<Json>)
    ensures Truthy(assignedStaff) ==> r == [assignedStaff.value]
    ensures !Truthy(assignedStaff) ==> r == []
  {
    if Truthy(assignedStaff) then [assignedStaff.value] else []
  }

  /**
   * The date and time are strings (anything else has no `split`) and give a
   * valid start, and the duration a valid end (`toISOString` throws on an
   * invalid date).
   */
  predicate Schedulable(body: Json, localTime: (real, real, real, real, real) -> Option<int>) {
    var date := ReadValue(Get(body, "scheduledDate"));
    var time := ReadValue(Get(body, "scheduledTime"));
    var duration := ReadValue(Get(body, "estimatedDuration"));
    date.Some? && date.value.JStr? && time.Some? && time.value.JStr? && duration.Some? &&
    var s := StartTime(date.value.s, time.value.s, localTime);
    s.Some? && EndTime(s.value, duration.value).Some?
  }

  /**
   * The event built for a body and its job request: none when the times
   * cannot be formatted or the job request is `null` (reading its
   * `customer_name` throws).
   */
  function EventFor(body: Json, jobRequest: Json, localTime: (real, real, real, real, real) -> Option<int>,
                    iso: int -> string, numberText: real -> string): (r: Option<Event>)
    ensures r.Some? <==> Schedulable(body, localTime) && !jobRequest.JNull?
    ensures r.Some? ==>
      r.value.summary == "Window Cleaning - " + Interpolated(ReadValue(Get(jobRequest, "customer_name")), numberText) &&
      r.value.location == ReadValue(Get(jobRequest, "address"))
    ensures r.Some? ==> EventTimes(body, localTime, iso, r.value.start, r.value.end)
    ensures r.Some? ==> r.value.attendees == Attendees(ReadValue(Get(body, "assignedStaff")))
    ensures r.Some? ==> r.value.timeZone == TimeZone && r.value.reminders == Reminders && !r.value.useDefaultReminders
  {
    if !Schedulable(body, localTime) || jobRequest.JNull? then None
    else
      var start := StartTime(ReadValue(Get(body, "scheduledDate")).value.s, ReadValue(Get(body, "scheduledTime")).value.s, localTime).value;
      var end := EndTime(start, ReadValue(Get(body, "estimatedDuration")).value).value;
      Some(Event("Window Cleaning - " + Interpolated(ReadValue(Get(jobRequest, "customer_name")), numberText),
        ReadValue(Get(jobRequest, "address")), iso(start), iso(end), TimeZone,
        Attendees(ReadValue(Get(body, "assignedStaff"))), false, Reminders))
  }

  /** The `scheduled_jobs` row: the body's fields as given, the event id, the status (default 'scheduled') and the time. */
  function RowFor(body: Json, data: Json, now: string): (r: ScheduledRow)
    requires RequiredGiven(body)
    ensures r.jobRequestId == ReadValue(Get(body, "jobRequestId")).value
    ensures r.scheduledDate == ReadValue(Get(body, "scheduledDate")).value
    ensures r.scheduledTime == ReadValue(Get(body, "scheduledTime")).value
    ensures r.estimatedDuration == ReadValue(Get(body, "estimatedDuration")).value
    ensures r.assignedStaff == ReadValue(Get(body, "assignedStaff")) && r.jobDetails == ReadValue(Get(body, "jobDetails"))
    ensures r.calendarEventId == ReadValue(Get(data, "id")) && r.createdAt == now
    ensures r.status == ReadValue(Get(body, "status")).GetOr(JStr("scheduled"))
  {
    ScheduledRow(ReadValue(Get(body, "jobRequestId")).value, ReadValue(Get(body, "scheduledDate")).value,
      ReadValue(Get(body, "scheduledTime")).value, ReadValue(Get(body, "estimatedDuration")).value,
      ReadValue(Get(body, "assignedStaff")), ReadValue(Get(data, "id")),
      ReadValue(Get(body, "status")).GetOr(JStr("scheduled")), ReadValue(Get(body, "jobDetails")), now)
  }

  /** A body with the required fields whose job request the query found. */
  predicate Fetched(request: Option<Json>, fetch: Json -> Option<Json>) {
    request.Some? && !request.value.JNull? && RequiredGiven(request.value) &&
    fetch(ReadValue(Get(request.value, "jobRequestId")).value).Some?
  }

  function JobRequestOf(request: Option<Json>, fetch: Json -> Option<Json>): Json
    requires Fetched(request, fetch)
  {
    fetch(ReadValue(Get(request.value, "jobRequestId")).value).value
  }

  datatype Scheduled = Scheduled(scheduledJob: Option<Json>, calendarEvent: Json)

  /**
   * What the handler does: its reply, the event created, the row inserted and
   * the job request whose status was set to 'scheduled'.
   */
  datatype Outcome = Outcome(reply: Reply<Scheduled>, event: Option<Event>, row: Option<ScheduledRow>,
                             markedScheduled: Option<Json>)

  function Rejected(status: int, error: string): Outcome {
    Outcome(Err(status, error), None, None, None)
  }

  /**
   * POST. `request` is the parsed body (`None` when `request.json()` throws);
   * `fetch` gives the job request (`None` on a query error); `insertEvent`
   * gives the calendar response data (`None` when the call throws); `insert`
   * gives the inserted rows (`None` on an error); `iso` is `toISOString` and
   * `now` the creation time.
   */
  function Post(request: Option<Json>, fetch: Json -> Option<Json>,
                localTime: (real, real, real, real, real) -> Option<int>, iso: int -> string,
                insertEvent: Event -> Option<Json>, insert: ScheduledRow -> Option<seq<Json>>,
                now: string, numberText: real -> string): (r: Outcome)
    ensures request.None? || request.value.JNull? ==> r == Rejected(500, ScheduleFailed)
    ensures request.Some? && !request.value.JNull? && !RequiredGiven(request.value) ==> r == Rejected(400, Missing)
    ensures request.Some? && !request.value.JNull? && RequiredGiven(request.value) ==>
      (fetch(ReadValue(Get(request.value, "jobRequestId")).value).None? ==> r == Rejected(500, FetchFailed))
    ensures r.event.Some? ==> request.Some? && RequiredGiven(request.value)
    ensures r.event.Some? ==> r.event.value.attendees == Attendees(ReadValue(Get(request.value, "assignedStaff")))
    ensures r.event.Some? ==> r.event.value.reminders == Reminders && !r.event.value.useDefaultReminders
    ensures r.event.Some? ==> r.event.value.timeZone == TimeZone
    ensures r.event.Some? ==> EventTimes(request.value, localTime, iso, r.event.value.start, r.event.value.end)
    ensures r.row.Some? ==> r.event.Some? && r.markedScheduled == Some(r.row.value.jobRequestId)
    ensures r.row.Some? ==> r.row.value.status == ReadValue(Get(request.value, "status")).GetOr(JStr("scheduled"))
    ensures r.row.Some? ==> (insert(r.row.value).None? <==> r.reply == Err(500, UpdateFailed))
    ensures r.reply.Ok? ==> r.row.Some?
    ensures Fetched(request, fetch) ==>
      var event := EventFor(request.value, JobRequestOf(request, fetch), localTime, iso, numberText);
      (event.None? ==> r == Rejected(500, ScheduleFailed)) && (event.Some? ==> r.event == event)
    ensures Fetched(request, fetch) ==>
      var event := EventFor(request.value, JobRequestOf(request, fetch), localTime, iso, numberText);
      event.Some? && (insertEvent(event.value).None? || insertEvent(event.value) == Some(JNull)) ==>
        r.reply == Err(500, ScheduleFailed) && r.row.None? && r.markedScheduled.None?
    ensures Fetched(request, fetch) ==>
      var event := EventFor(request.value, JobRequestOf(request, fetch), localTime, iso, numberText);
      event.Some? && insertEvent(event.value).Some? && !insertEvent(event.value).value.JNull? ==>
        var data := insertEvent(event.value).value;
        var row := RowFor(request.value, data, now);
        r.row == Some(row) && r.markedScheduled == Some(row.jobRequestId) &&
        r.reply == (if insert(row).None? then Err(500, UpdateFailed)
                    else Ok(Scheduled(if |insert(row).value| > 0 then Some(insert(row).value[0]) else None, data)))
  {
    if request.None? || request.value.JNull? then Rejected(500, ScheduleFailed)
    else
      var body := request.value;
      if !RequiredGiven(body) then Rejected(400, Missing)
      else match fetch(ReadValue(Get(body, "jobRequestId")).value)
        case None => Rejected(500, FetchFailed)
        case Some(jobRequest) =>
          // A non-string date or time has no `split`, `toISOString` throws on an
          // invalid date, and reading a property of a null job request throws.
          match EventFor(body, jobRequest, localTime, iso, numberText)
          case None => Rejected(500, ScheduleFailed)
          case Some(event) =>
            match insertEvent(event)
            case None => Outcome(Err(500, ScheduleFailed), Some(event), None, None)
            case Some(data) =>
              if data.JNull? then Outcome(Err(500, ScheduleFailed), Some(event), None, None)
              else
                var row := RowFor(body, data, now);
                match insert(row)
                case None => Outcome(Err(500, UpdateFailed), Some(event), Some(row), Some(row.jobRequestId))
                case Some(rows) =>
                  Outcome(Ok(Scheduled(if |rows| > 0 then Some(rows[0]) else None, data)), Some(event), Some(row),
                    Some(row.jobRequestId))
  }

  /** A duration of zero hours is falsy and so rejected as missing. */
  lemma ZeroDurationRejected(body: map<string, Json>, fetch: Json -> Option<Json>,
                             localTime: (real, real, real, real, real) -> Option<int>, iso: int -> string,
                             insertEvent: Event -> Option<Json>, insert: ScheduledRow -> Option<seq<Json>>,
                             now: string, numberText: real -> string)
    requires "estimatedDuration" in body && body["estimatedDuration"] == JNum(0.0)
    ensures Post(Some(JObj(body)), fetch, localTime, iso, insertEvent, insert, now, numberText) == Rejected(400, Missing)
  {
  }
}
