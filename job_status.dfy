/**
 * app/api/jobs/status/route.ts: the PATCH handler that validates a status
 * change, appends a timestamped note, stores the new status and, for some
 * statuses, builds a notification email for the customer. Database calls,
 * the clock, date formatting and mail delivery are parameters; the HTML of
 * the email bodies is left out, only the template chosen and its arguments
 * are kept.
 */
module JobStatus {
  import opened Wrappers
  import opened Js
  import Text

  const ValidStatuses: seq<string> := ["pending", "confirmed", "in_progress", "completed", "cancelled", "rescheduled"]

  const NotifyStatuses: seq<string> := ["confirmed", "completed", "cancelled", "rescheduled"]

  /** `validStatuses.includes(newStatus)`: strict equality, so only a string can be valid. */
  predicate IsValidStatus(v: Json) {
    v.JStr? && v.s in ValidStatuses
  }

  /** The email subject of each notifying status. */
  function SubjectFor(status: string): string
    requires status in NotifyStatuses
  {
    match status
    case "confirmed" => "Job Confirmed: Window Cleaning Service"
    case "completed" => "Job Completed: Window Cleaning Service"
    case "cancelled" => "Job Cancelled: Window Cleaning Service"
    case _ => "Job Rescheduled: Window Cleaning Service"
  }

  /** The arguments a body template receives. */
  datatype TemplateArgs =
    | NameDateTime(customerName: Option<Json>, date: string, time: Option<Json>)
    | NameOnly(customerName: Option<Json>)

  /** The email the handler tries to send: recipient, subject and template arguments. */
  datatype Notification = Notification(to: Option<Json>, subject: string, args: TemplateArgs)

  /** The update sent to `scheduled_jobs`. */
  datatype JobUpdate = JobUpdate(status: string, notes: Option<Json>, updatedAt: string)

  /**
   * The stored notes: with truthy new notes, the old notes and a newline
   * (when the old notes are truthy), then the time, `': '` and the new
   * notes; otherwise the old notes unchanged.
   */
  function MergedNotes(previous: Option<Json>, notes: Json, time: string, numberText: real -> string): (r: Option<Json>)
    ensures !Truthy(Some(notes)) ==> r == previous
    ensures Truthy(Some(notes)) ==> r.Some? && r.value.JStr?
    ensures Truthy(Some(notes)) ==>
      Text.StartsWith(r.value.s, if Truthy(previous) then JsText(previous.value, numberText) + "\n" + time else time)
    ensures Truthy(Some(notes)) ==> var t := JsText(notes, numberText); |t| <= |r.value.s| && r.value.s[|r.value.s| - |t|..] == t
  {
    if Truthy(Some(notes)) then
      var prefix := if Truthy(previous) then JsText(previous.value, numberText) + "\n" else "";
      var t := JsText(notes, numberText);
      var s := prefix + time + ": " + t;
      assert s[..|prefix + time|] == prefix + time;
      assert s[|s| - |t|..] == t;
      Some(JStr(s))
    else previous
  }

  /** Appending twice keeps both notes, the first one first. */
  lemma NotesAccumulate(previous: Option<Json>, n1: Json, n2: Json, t1: string, t2: string, numberText: real -> string)
    requires Truthy(Some(n1)) && Truthy(Some(n2))
    ensures var once := MergedNotes(previous, n1, t1, numberText);
      MergedNotes(once, n2, t2, numberText) == Some(JStr(once.value.s + "\n" + t2 + ": " + JsText(n2, numberText)))
  {
    var once := MergedNotes(previous, n1, t1, numberText);
    var s := once.value.s;
    assert s != [] by {
      assert Text.StartsWith(s, if Truthy(previous) then JsText(previous.value, numberText) + "\n" + t1 else t1);
      var t := JsText(n1, numberText);
      if t1 == [] {
        assert s[|s| - |t|..] == t;
      }
    }
  }

  /** An email is due exactly when notification is on and the status is one of the four notifying ones. */
  predicate WantsEmail(notify: Json, status: string) {
    Truthy(Some(notify)) && status in NotifyStatuses
  }

  /** Confirmed and rescheduled templates get the name, date and time; the others only the name. */
  function TemplateArgsFor(status: string, customerName: Option<Json>, date: string, time: Option<Json>): (r: TemplateArgs)
    ensures r.NameDateTime? <==> status == "confirmed" || status == "rescheduled"
    ensures r.customerName == customerName
    ensures r.NameDateTime? ==> r.date == date && r.time == time
  {
    if status == "confirmed" || status == "rescheduled" then NameDateTime(customerName, date, time)
    else NameOnly(customerName)
  }

  /** What the handler does: its reply, the update it made and the email it tried to send. */
  datatype Outcome = Outcome(reply: Reply<Option<Json>>, update: Option<JobUpdate>, email: Option<Notification>)

  const Missing := "Missing required information"
  const InvalidStatus := "Invalid status value"
  const JobFetchFailed := "Failed to fetch job details"
  const CustomerFetchFailed := "Failed to fetch customer details"
  const UpdateFailed := "Failed to update job status"

  /** `jobId` and `newStatus` are both truthy. */
  predicate RequiredGiven(body: Json) {
    Truthy(ReadValue(Get(body, "jobId"))) && Truthy(ReadValue(Get(body, "newStatus")))
  }

  function Rejected(status: int, error: string): Outcome {
    Outcome(Err(status, error), None, None)
  }

  /** A body that passes both checks: `jobId` and `newStatus` given, and the status one of the six. */
  predicate Accepted(request: Option<Json>) {
    request.Some? && !request.value.JNull? && RequiredGiven(request.value) &&
    IsValidStatus(ReadValue(Get(request.value, "newStatus")).value)
  }

  /** The destructured `notes = ''`: the default applies only when the key is missing. */
  function NoteOf(body: Json): Json {
    ReadValue(Get(body, "notes")).GetOr(JStr(""))
  }

  /** The destructured `notifyCustomer = true`. */
  function NotifyOf(body: Json): Json {
    ReadValue(Get(body, "notifyCustomer")).GetOr(JBool(true))
  }

  /** The job `fetchJob` found for an accepted body, when the query succeeded with a non-null row. */
  predicate JobFound(request: Option<Json>, fetchJob: Json -> Option<Json>) {
    Accepted(request) &&
    var job := fetchJob(ReadValue(Get(request.value, "jobId")).value);
    job.Some? && !job.value.JNull?
  }

  /**
   * PATCH. `request` is the parsed body (`None` when `request.json()`
   * throws); `fetchJob` and `fetchRequest` give the job and its job request
   * (`None` on a query error); `update` gives the updated rows (`None` on an
   * error); `formatDate` renders `job.scheduled_date`; `send` is whether
   * delivery succeeded, which the handler ignores.
   */
  function Patch(request: Option<Json>, fetchJob: Json -> Option<Json>, fetchRequest: Option<Json> -> Option<Json>,
                 update: JobUpdate -> Option<seq<Json>>, noteTime: string, updateTime: string,
                 formatDate: Option<Json> -> string, send: Notification -> bool, numberText: real -> string): (r: Outcome)
    ensures request.None? || request.value.JNull? ==> r == Rejected(500, UpdateFailed)
    ensures request.Some? && !request.value.JNull? && !RequiredGiven(request.value) ==> r == Rejected(400, Missing)
    ensures request.Some? && !request.value.JNull? && RequiredGiven(request.value) ==>
      (!IsValidStatus(ReadValue(Get(request.value, "newStatus")).value) ==> r == Rejected(400, InvalidStatus))
    ensures Accepted(request) ==>
      var job := fetchJob(ReadValue(Get(request.value, "jobId")).value);
      (job.None? ==> r == Rejected(500, JobFetchFailed)) && (job == Some(JNull) ==> r == Rejected(500, UpdateFailed))
    ensures JobFound(request, fetchJob) ==>
      var body := request.value;
      var job := fetchJob(ReadValue(Get(body, "jobId")).value).value;
      var jobRequest := fetchRequest(ReadValue(Get(job, "job_request_id")));
      var change := JobUpdate(ReadValue(Get(body, "newStatus")).value.s,
        MergedNotes(ReadValue(Get(job, "notes")), NoteOf(body), noteTime, numberText), updateTime);
      (jobRequest.None? ==> r == Rejected(500, CustomerFetchFailed)) &&
      (jobRequest.Some? && update(change).None? ==> r == Outcome(Err(500, UpdateFailed), Some(change), None)) &&
      (jobRequest.Some? && update(change).Some? ==>
        r == Stored(update(change).value, change, NotifyOf(body), job, jobRequest.value, formatDate))
    ensures r.update.Some? ==> r.update.value.status == ReadValue(Get(request.value, "newStatus")).value.s
    ensures r.reply.Err? && r.reply.status == 400 ==> r.update.None? && r.email.None?
    ensures r.update.Some? ==> r.update.value.status in ValidStatuses && r.update.value.updatedAt == updateTime
    ensures r.email.Some? ==> r.update.Some? && r.reply.Ok?
    ensures r.email.Some? ==> r.update.value.status in NotifyStatuses && r.email.value.subject == SubjectFor(r.update.value.status)
    ensures r.email.Some? ==>
      (r.email.value.args.NameDateTime? <==> r.update.value.status == "confirmed" || r.update.value.status == "rescheduled")
  {
    if request.None? || request.value.JNull? then Rejected(500, UpdateFailed)
    else
      var body := request.value;
      var jobId := ReadValue(Get(body, "jobId"));
      var newStatus := ReadValue(Get(body, "newStatus"));
      var notes := NoteOf(body);
      var notify := NotifyOf(body);
      if !Truthy(jobId) || !Truthy(newStatus) then Rejected(400, Missing)
      else if !IsValidStatus(newStatus.value) then Rejected(400, InvalidStatus)
      else
        var status := newStatus.value.s;
        match fetchJob(jobId.value)
        case None => Rejected(500, JobFetchFailed)
        case Some(job) =>
          if job.JNull? then Rejected(500, UpdateFailed)
          else match fetchRequest(ReadValue(Get(job, "job_request_id")))
            case None => Rejected(500, CustomerFetchFailed)
            case Some(jobRequest) =>
              var change := JobUpdate(status, MergedNotes(ReadValue(Get(job, "notes")), notes, noteTime, numberText), updateTime);
              match update(change)
              case None => Outcome(Err(500, UpdateFailed), Some(change), None)
              case Some(rows) => Stored(rows, change, notify, job, jobRequest, formatDate)
  }

  /**
   * What PATCH does once the update succeeded: reply with the first updated
   * row and, when notification is due, read the customer off the job request
   * (a `null` one throws) and attempt the email.
   */
  function Stored(rows: seq<Json>, change: JobUpdate, notify: Json, job: Json, jobRequest: Json,
                  formatDate: Option<Json> -> string): (r: Outcome)
    ensures r.update == Some(change)
    ensures r.reply.Ok? ==> (r.email.Some? <==> WantsEmail(notify, change.status))
    ensures r.reply.Err? <==> WantsEmail(notify, change.status) && jobRequest.JNull?
    ensures r.reply.Err? ==> r.reply == Err(500, UpdateFailed) && r.email.None?
    ensures r.reply.Ok? ==> r.reply.body == (if |rows| > 0 then Some(rows[0]) else None)
    ensures r.email.Some? ==> change.status in NotifyStatuses && r.email.value.subject == SubjectFor(change.status)
    ensures r.email.Some? ==>
      (r.email.value.args.NameDateTime? <==> change.status == "confirmed" || change.status == "rescheduled")
  {
    var reply := Ok(if |rows| > 0 then Some(rows[0]) else None);
    if !WantsEmail(notify, change.status) then Outcome(reply, Some(change), None)
    else if jobRequest.JNull? then Outcome(Err(500, UpdateFailed), Some(change), None)
    else
      var args := TemplateArgsFor(change.status, ReadValue(Get(jobRequest, "customer_name")),
        formatDate(ReadValue(Get(job, "scheduled_date"))), ReadValue(Get(job, "scheduled_time")));
      var email := Notification(ReadValue(Get(jobRequest, "customer_email")), SubjectFor(change.status), args);
      Outcome(reply, Some(change), Some(email))
  }

  /**
   * With the job found and stored, an email is attempted exactly when
   * `notifyCustomer` (default true) is truthy and the status notifies.
   */
  lemma EmailIffNotify(request: Option<Json>, fetchJob: Json -> Option<Json>, fetchRequest: Option<Json> -> Option<Json>,
                       update: JobUpdate -> Option<seq<Json>>, noteTime: string, updateTime: string,
                       formatDate: Option<Json> -> string, send: Notification -> bool, numberText: real -> string)
    requires var r := Patch(request, fetchJob, fetchRequest, update, noteTime, updateTime, formatDate, send, numberText);
      r.reply.Ok?
    ensures var r := Patch(request, fetchJob, fetchRequest, update, noteTime, updateTime, formatDate, send, numberText);
      r.email.Some? <==> WantsEmail(NotifyOf(request.value), r.update.value.status)
  {
  }

  /**
   * Without a `notes` key the default `''` is falsy, so a stored update
   * keeps the job's old notes.
   */
  lemma MissingNotesKeepOld(request: Option<Json>, fetchJob: Json -> Option<Json>, fetchRequest: Option<Json> -> Option<Json>,
                            update: JobUpdate -> Option<seq<Json>>, noteTime: string, updateTime: string,
                            formatDate: Option<Json> -> string, send: Notification -> bool, numberText: real -> string)
    requires JobFound(request, fetchJob) && ReadValue(Get(request.value, "notes")).None?
    requires Patch(request, fetchJob, fetchRequest, update, noteTime, updateTime, formatDate, send, numberText).update.Some?
    ensures Patch(request, fetchJob, fetchRequest, update, noteTime, updateTime, formatDate, send, numberText).update.value.notes
         == ReadValue(Get(fetchJob(ReadValue(Get(request.value, "jobId")).value).value, "notes"))
  {
  }

  /** Moving a job to pending or in progress never emails the customer. */
  lemma NoEmailForPendingOrInProgress(request: Option<Json>, fetchJob: Json -> Option<Json>, fetchRequest: Option<Json> -> Option<Json>,
                                      update: JobUpdate -> Option<seq<Json>>, noteTime: string, updateTime: string,
                                      formatDate: Option<Json> -> string, send: Notification -> bool, numberText: real -> string)
    requires var r := Patch(request, fetchJob, fetchRequest, update, noteTime, updateTime, formatDate, send, numberText);
      r.update.Some? && r.update.value.status in ["pending", "in_progress"]
    ensures Patch(request, fetchJob, fetchRequest, update, noteTime, updateTime, formatDate, send, numberText).email.None?
  {
  }

  /** Whether delivery succeeds changes nothing the handler returns or stores. */
  lemma DeliveryIgnored(request: Option<Json>, fetchJob: Json -> Option<Json>, fetchRequest: Option<Json> -> Option<Json>,
                        update: JobUpdate -> Option<seq<Json>>, noteTime: string, updateTime: string,
                        formatDate: Option<Json> -> string, send1: Notification -> bool, send2: Notification -> bool,
                        numberText: real -> string)
    ensures Patch(request, fetchJob, fetchRequest, update, noteTime, updateTime, formatDate, send1, numberText)
         == Patch(request, fetchJob, fetchRequest, update, noteTime, updateTime, formatDate, send2, numberText)
  {
  }
}
