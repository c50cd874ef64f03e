# Parker's Window Cleaning agent: email extraction and job routes in Dafny

This project models the server-side core of the Parker's Window Cleaning
scheduling agent and proves properties of the model. The core reads customer
emails from Gmail and pulls job details out of them. It turns those details
into job requests, schedules jobs on a calendar and changes their status.
The model covers:

- the regular-expression extractor in `app/utils/gmail.ts`: headers, body,
  name, address, phone, date, quote class, urgency and the weighted confidence
  score;
- the labelled-field extractor and the two Gmail handlers of
  `app/api/email-parsing/route.ts`;
- the LLM extraction route `app/api/parse-email/route.ts` and its
  fraction-of-required-fields confidence;
- the sender parsing and job-request row of `app/api/emails/parse/route.ts`;
- the two inbox listings `app/api/emails/fetch/route.ts` and
  `app/api/emails/route.ts`;
- the job routes `app/api/jobs/status/route.ts` (status change, note merge,
  notification choice) and `app/api/jobs/schedule/route.ts` (validation, date
  splitting, end-time arithmetic, calendar event and row);
- the helpers of `app/utils/errorHandling.ts` (`safeAsync`, `withRetry`,
  `formatErrorResponse`);
- the routing decision of `middleware.ts`.

Each source file has a module of its own; `app/utils/gmail.ts` has two, `Gmail`
for the service functions and `GmailPatterns` for its regular expressions.
Three shared modules hold what the source gets from JavaScript itself:

- `Text` holds the string operations. These are `trim`, `split`, `includes`,
  ASCII lower-casing and the JavaScript whitespace set. `FirstMatch` is the
  leftmost position at which a non-global regular expression matches.
- `Js` holds JSON values, truthiness, property reads and thrown values.
  Reading a property of `null` is a `TypeError`. `String(v)` is `JsText`,
  `Number(v)` is `ToNumber`, and `error.message || default` is `MessageOr`.
- `MailMessage` holds the Gmail message tree and `headers.find(...)?.value || default`.

A fourth, `Wrappers`, holds the `Option` and `Result` types.

Every regular expression is written as a scanner. The scanner follows the
backtracking order JavaScript uses for that pattern: greedy or lazy
quantifiers, `\b`, `$`, and `.` stopping at line terminators. `FirstMatch` then
picks the leftmost start.

Network services are inputs to the model: Gmail, Google Calendar, Supabase,
OpenAI and mail delivery. So are the clock, the base64 decoder, `JSON.parse`,
the `Date` constructor, `toISOString` and `toLocaleDateString`. Each operation
receives what the service returned, and the route's reply is a
`Js.Reply` (`Ok(body)` or `Err(status, error)`). Where the handler also
writes something, the model returns what was written.

Loops that build results step by step are `method`s. This covers header
collection, body extraction, the inbox listings, the plain-text part search
and `withRetry`. Each carries loop invariants and is proved against a
specification function or a stated property. Everything else is functions
and lemmas.

Where the specification of the system and the code differ, the model follows
the code:

- `needsEstimate` in `app/api/email-parsing/route.ts` looks only at the body
  and only for "estimate" and "quote". The specification also names the
  subject and "price"; only `app/utils/gmail.ts` checks those.
- The labelled captures of `parseEmailContent` are not cut at the end of the
  line. Their character classes contain `\s`, which includes line breaks.

## Model

| member | source | states |
|---|---|---|
| Text.Trim | app/api/email-parsing/route.ts:51-56 | `trim()`: the result is the input with the maximal whitespace runs removed at both ends; it has no whitespace at either end, and trimming is idempotent (`TrimIdempotent`) |
| Text.Split | app/api/jobs/schedule/route.ts:61-62 | `split(sep)` for one character: at least one piece; `SplitPiecesFree` proves no piece holds the separator |
| Text.SplitJoin | app/api/jobs/schedule/route.ts:61-62 | splitting a join of separator-free pieces gives the pieces back; `JoinSplit` proves the converse |
| Text.FirstMatch | app/utils/gmail.ts:177-180 | the leftmost position in the range where a pattern matches, with no match at any earlier position, or none anywhere |
| Text.LeftmostMatch | app/utils/gmail.ts:179-180 | `s.match(re)` without `g`: the capture found at the least matching start, with no match before it, or none when no start matches |
| Text.LastMatch | app/utils/gmail.ts:171 | a greedy run backing off: the greatest position in the range where the rest of the pattern succeeds, with no success after it, or none in the range |
| Text.IncludesIff | app/utils/gmail.ts:192-198 | `includes` holds exactly when the needle occurs at some index |
| Js.Get | app/api/parse-email/route.ts:85 | a property read is a TypeError exactly on `null`; it finds a value exactly when an object has the key, and that value is the stored one |
| Js.BlankTextIff | app/api/parse-email/route.ts:84-86 | `data[field].toString().trim() === ''` holds exactly when the value's text is blank, for every JSON value as `String` renders it in the model (objects as `[object Object]`) |
| Js.StringToNumber | app/api/jobs/schedule/route.ts:61-62 | `Number(s)`: a blank string is 0 and a string of digits, once trimmed, is its decimal value |
| MailMessage.FindFirst | app/api/email-parsing/route.ts:84 | `find`: the least index satisfying the test, or none when no element does |
| MailMessage.HeaderOr | app/api/email-parsing/route.ts:84-86 | `headers.find(h => h.name === name)?.value \|\| default` is the default or the value of a header with that name |
| MailMessage.HeaderOrFirst | app/api/email-parsing/route.ts:84-86 | with the first header of that name at `i`, the result is its value, or the default when that value is empty |
| MailMessage.HeaderOrAbsent | app/api/email-parsing/route.ts:84-86 | without a header of that name the default is returned |
| Gmail.LastStored | app/utils/gmail.ts:122-126 | the last usable header stored under a key, with no later one, or none at all |
| Gmail.HeaderMapLast | app/utils/gmail.ts:119-127 | the dictionary holds a key iff some usable header's lower-cased name is that key, and then holds the last such header's value |
| Gmail.HeaderMapSummary | app/utils/gmail.ts:129-134 | `headers.key \|\| ''` equals the last stored value or `''` |
| Gmail.StoredValueNonEmpty | app/utils/gmail.ts:123-133 | a summary field is non-empty iff some usable header is stored under it |
| Gmail.ExtractHeaders | app/utils/gmail.ts:118-135 | the loop's four fields are the last stored values of subject, from, to and date |
| Gmail.StripTagsNoTag | app/utils/gmail.ts:156 | after replacing `<[^>]*>` no `<` is followed by a `>` |
| Gmail.StripTagsChars | app/utils/gmail.ts:156 | every non-space character left after tag stripping was in the input |
| Gmail.CollapseShape | app/utils/gmail.ts:156 | after `replace(/\s+/g, ' ')` there are no two adjacent whitespace characters and every whitespace is a plain space |
| Gmail.CollapseChars | app/utils/gmail.ts:156 | collapsing keeps every non-space character from the input |
| Gmail.CollapseNoTag | app/utils/gmail.ts:156 | collapsing whitespace does not create a tag |
| Gmail.CollapseFirst | app/utils/gmail.ts:156 | collapsing keeps a non-empty text non-empty and keeps whether it starts with whitespace |
| Gmail.HtmlToTextClean | app/utils/gmail.ts:154-156 | the HTML branch's text has no whitespace at either end, no double whitespace, only plain spaces and no tag left |
| Gmail.ExtractBody | app/utils/gmail.ts:140-164 | no payload gives `''`; payload body data wins; otherwise the first text/plain or text/html part with data, decoded (HTML simplified), else `''` |
| Gmail.FirstTextPartAt | app/utils/gmail.ts:149-158 | the part the loop stops at is the first text part with data |
| Gmail.FirstTextPartNone | app/utils/gmail.ts:149-159 | without such a part the loop finds nothing |
| Gmail.SomeIncludedCI | app/utils/gmail.ts:201-202 | `terms.some(t => s.toLowerCase().includes(t))` iff some term occurs in the lower-cased text |
| Gmail.QuoteRequestIff | app/utils/gmail.ts:192-198 | a quote request iff a quote term occurs in the lower-cased body or subject |
| Gmail.CalculateConfidence | app/utils/gmail.ts:218-226 | the score in tenths is at most 10; 10 iff name, address and phone; 0 iff none; 4 iff only an address |
| Gmail.ConfidenceMonotone | app/utils/gmail.ts:218-226 | finding more of the three fields never lowers the score |
| Gmail.CustomerName | app/utils/gmail.ts:182-189 | the trimmed body name capture when the name pattern matches; otherwise, with a non-empty `from`, the trimmed display name of the From pattern, or `''` when that has none; `''` when `from` is empty; never whitespace at either end |
| Gmail.CustomerNameChars | app/utils/gmail.ts:173-184 | a name taken from the body is made of letters and whitespace only |
| Gmail.ExtractJobInfo | app/utils/gmail.ts:169-213 | quote class iff a quote term is in body or subject; high urgency iff an urgency term is in the body; address, phone and date are the first matches or `''`; an address starts with a digit; a phone has 10 to 14 characters; the confidence comes from which fields were found |
| Gmail.UrgencyIgnoresSubject | app/utils/gmail.ts:201-202 | the subject never changes the urgency |
| Gmail.QuoteFromSubject | app/utils/gmail.ts:196-198 | a quote term in the subject alone makes a quote request |
| Gmail.FullConfidence | app/utils/gmail.ts:211 | the job score is 10 iff a name, an address and a phone were all found |
| GmailPatterns.NameAfterKeyword | app/utils/gmail.ts:173 | `\s+([A-Za-z\s]{2,30})` after the keyword captures 2 to 30 letters or whitespace, giving back spaces to `\s+` when needed |
| GmailPatterns.NameAt | app/utils/gmail.ts:173 | a name match at a position follows `my name is` or `from` and captures 2 to 30 letters or whitespace |
| GmailPatterns.NameMatch | app/utils/gmail.ts:173-179 | the name pattern's leftmost match, or none at any position; the capture has 2 to 30 letters or whitespace |
| GmailPatterns.YearGroupEnd | app/utils/gmail.ts:174 | the optional `,?\s+\d{4}` group ends within the text, at or after its start |
| GmailPatterns.DateAfterKeyword | app/utils/gmail.ts:174 | the date capture has at least three characters and starts with a letter |
| GmailPatterns.DateMatch | app/utils/gmail.ts:174-180 | the date pattern's leftmost match, or none |
| GmailPatterns.PhoneAt | app/utils/gmail.ts:172 | a phone match has 10 to 14 characters and ends in four digits |
| GmailPatterns.PhoneMatch | app/utils/gmail.ts:172-178 | the first phone match, or none |
| GmailPatterns.SuffixAt | app/utils/gmail.ts:171 | a street suffix from the list, case-insensitive, followed by a word boundary |
| GmailPatterns.LastSuffix | app/utils/gmail.ts:171 | the greedy class run backs off to the last suffix position in range, with none after it |
| GmailPatterns.AddressWith | app/utils/gmail.ts:171 | an address match is a slice of the text at its start, at least three characters, starting with a digit |
| GmailPatterns.AddressAt | app/utils/gmail.ts:171 | the same for the street suffixes of the source |
| GmailPatterns.AddressMatch | app/utils/gmail.ts:171-177 | the first address match, or none |
| GmailPatterns.DisplayName | app/utils/gmail.ts:187 | the `[^"<]+` capture backs off until `"?\s+<?mailbox` follows, keeping 1 to `len` characters |
| GmailPatterns.FromDisplayName | app/utils/gmail.ts:187-188 | capture 1 of the leftmost From match |
| EmailParsing.GetGmailClient | app/api/email-parsing/route.ts:8-33 | fails with the credentials message iff the client id, secret or refresh token is missing or empty; otherwise the client carries them |
| EmailParsing.RedirectUriNotRequired | app/api/email-parsing/route.ts:15 | the redirect URI never decides whether a client is built |
| EmailParsing.CaptureAfterColon | app/api/email-parsing/route.ts:43-48 | `:\s*([class]+)` captures at least one class character and fails iff none follows the colon |
| EmailParsing.LabelledField | app/api/email-parsing/route.ts:43-56 | none iff no label matches anywhere; otherwise the trimmed capture of the leftmost match |
| EmailParsing.DotTopLevel | app/api/email-parsing/route.ts:45 | `\.[a-zA-Z]{2,}` after the domain ends within the text, at least four past the domain start |
| EmailParsing.AddressEnd | app/api/email-parsing/route.ts:45 | an address is at least six characters with `@` after the local part |
| EmailParsing.EmailAfterLabel | app/api/email-parsing/route.ts:45 | an email capture has at least six characters and contains `@` |
| EmailParsing.EmailField | app/api/email-parsing/route.ts:45-53 | none iff nothing matches; otherwise the trimmed leftmost capture |
| EmailParsing.ParseEmailContent | app/api/email-parsing/route.ts:41-59 | each field is its labelled pattern's leftmost trimmed capture or null; `needsEstimate` iff "estimate" or "quote" occurs in the lower-cased content |
| EmailParsing.SenderAt | app/api/email-parsing/route.ts:166 | a sender address match has at least six characters and contains `@` |
| EmailParsing.SenderEmail | app/api/email-parsing/route.ts:166-167 | the leftmost sender address match, or none |
| EmailParsing.ReadContent | app/api/email-parsing/route.ts:134-148 | the loop's content equals the payload body when present, else the first text/plain part with data decoded, else `''` |
| EmailParsing.OnlyPlainPartsRead | app/api/email-parsing/route.ts:142-147 | parts that are not text/plain with data never affect the content |
| EmailParsing.AssembleResult | app/api/email-parsing/route.ts:158-176 | the result holds the parsed fields and raw content, subject and sender with their defaults, and the sender's address, else the body email |
| EmailParsing.ParseEmail | app/api/email-parsing/route.ts:113-186 | a missing id gives 400; no credentials or a failed fetch gives 500 'Failed to parse email'; empty content gives 400; otherwise the assembled result |
| EmailParsing.SummaryOf | app/api/email-parsing/route.ts:83-97 | an entry has the message id and snippet, and the subject, from and date headers with their defaults |
| EmailParsing.ListEmails | app/api/email-parsing/route.ts:62-110 | no credentials gives 500 with the credentials message; the first failed call gives 500 with its Error message or 'Failed to fetch emails'; otherwise one summary per listed id, in order |
| ParseEmail.FilledCount | app/api/parse-email/route.ts:84-86 | the count is at most the number of fields; it equals it iff all are filled and is 0 iff none are |
| ParseEmail.Hundredths | app/api/parse-email/route.ts:88 | `Number((k / 6).toFixed(2))` in hundredths is within half a hundredth of k/6; 0 iff k = 0 and 100 iff k = 6 |
| ParseEmail.HundredthsMonotone | app/api/parse-email/route.ts:88 | more filled fields never give a lower score |
| ParseEmail.EstimateConfidence | app/api/parse-email/route.ts:82-89 | `null` data throws the property-read TypeError; other non-objects score 0; objects score the hundredths of their filled required fields |
| ParseEmail.ConfidenceExtremes | app/api/parse-email/route.ts:83-88 | the score is 1.00 iff all six required fields are filled and 0 iff none are |
| ParseEmail.OtherFieldsIgnored | app/api/parse-email/route.ts:84-86 | a field outside the list never changes the count |
| ParseEmail.NotesIgnored | app/api/parse-email/route.ts:82-88 | `alternativeDates` and `notes` never change the score |
| ParseEmail.CountMonotone | app/api/parse-email/route.ts:84-86 | filling more listed fields never lowers the count |
| ParseEmail.ConfidenceMonotone | app/api/parse-email/route.ts:82-89 | filling more required fields never lowers the score |
| ParseEmail.Post | app/api/parse-email/route.ts:25-79 | an unreadable body or `null` gives 500 with the thrown message; missing content gives 400; a thrown completion gives 500 with `error.message \|\| 'Failed to parse email'`; no choices gives 500 with the TypeError message; no function call gives 500; unparsable arguments give 500 with the parse error; parsed non-null arguments give Ok with the arguments and their score, and Ok happens only that way |
| EmailsParse.NameMatch | app/api/emails/parse/route.ts:27 | `^(.*?)\s*<.*>$` matches iff some least name end is followed by optional spaces, `<` and a line ending in `>` |
| EmailsParse.AngleAt | app/api/emails/parse/route.ts:28 | `<(.+?)>` at `<` captures up to the first `>` after at least one character on the same line |
| EmailsParse.AngleMatch | app/api/emails/parse/route.ts:28 | the leftmost angle match, or none |
| EmailsParse.NoAngleWholeFrom | app/api/emails/parse/route.ts:31 | without `<` the customer email is the trimmed From |
| EmailsParse.AddressBetweenAngles | app/api/emails/parse/route.ts:28-31 | the first `<address>` gives the trimmed address |
| EmailsParse.DisplayNameForm | app/api/emails/parse/route.ts:27-31 | `Name <address>` gives the trimmed name and the trimmed address |
| EmailsParse.DisplayAddress | app/api/emails/parse/route.ts:28-31 | in `Name <address>` the email is the trimmed address |
| EmailsParse.NameOfDisplayForm | app/api/emails/parse/route.ts:27-30 | the lazy capture is the shortest name before the spaces and `<` |
| EmailsParse.NameMatchAt | app/api/emails/parse/route.ts:27 | the least name end decides the capture |
| EmailsParse.NameAfterName | app/api/emails/parse/route.ts:27 | the pattern matches with the name ending before the spaces |
| EmailsParse.NoShorterName | app/api/emails/parse/route.ts:27 | no shorter prefix of a name without `<` can be the capture |
| EmailsParse.SpacesBeforeAngle | app/api/emails/parse/route.ts:27 | `\s*` takes all the spaces before `<` |
| EmailsParse.TrailingTextAfterAddress | app/api/emails/parse/route.ts:27-31 | text after the closing `>` makes the name 'Unknown' but still gives the address |
| EmailsParse.RowFor | app/api/emails/parse/route.ts:73-87 | the row is pending, carries the analysis confidence and the parsed sender, and copies the email fields and creation time |
| EmailsParse.Post | app/api/emails/parse/route.ts:15-111 | an unreadable body gives 500; a missing field gives 400; a non-string From gives 500; a failed or `null` analysis gives 500 'Failed to parse email'; a failed insert gives 500 'Failed to save job request'; otherwise the row built from the From split and the analysis is inserted and Ok returns the first stored row and the analysis |
| EmailsFetch.BodyOf | app/api/emails/fetch/route.ts:46-62 | no payload gives `''`; without parts the payload body is decoded |
| EmailsFetch.PlainPartPreferred | app/api/emails/fetch/route.ts:49-51 | the first text/plain part, when it has data, is the body |
| EmailsFetch.FallbackToFirstData | app/api/emails/fetch/route.ts:52-57 | otherwise the first part with data is the body |
| EmailsFetch.PartsHideBodyData | app/api/emails/fetch/route.ts:47-59 | with parts, the payload's own body data is ignored |
| EmailsFetch.NoDataEmptyBody | app/api/emails/fetch/route.ts:46-62 | without data anywhere the body is `''` |
| EmailsFetch.EntryOf | app/api/emails/fetch/route.ts:38-70 | an entry has the id, the headers with their defaults (date defaulting to the clock) and the body |
| EmailsFetch.ExtractBody | app/api/emails/fetch/route.ts:46-62 | the loop's body step computes exactly `BodyOf` for the payload |
| EmailsFetch.FetchEmails | app/api/emails/fetch/route.ts:22-80 | any failure gives 500 'Failed to fetch emails'; otherwise one entry per listed id, in order, each with its own clock reading |
| Emails.ReplaceChar | app/api/emails/route.ts:19 | `replace(/c/g, d)` keeps the length and changes exactly the `c` characters to `d` |
| Emails.TranslateChars | app/api/emails/route.ts:19 | the URL-safe alphabet is mapped to the standard one: `-` to `+`, `_` to `/`, all else kept, none left |
| Emails.TranslateIdempotent | app/api/emails/route.ts:19 | translating twice is translating once |
| Emails.TranslateStandard | app/api/emails/route.ts:19 | standard base64 text is unchanged |
| Emails.BodyOf | app/api/emails/route.ts:49-51 | payload body data is decoded after translation |
| Emails.FirstTextPartOnly | app/api/emails/route.ts:54-60 | when the first text part has no data the body stays `''`, whatever later parts hold |
| Emails.FirstTextPartUsed | app/api/emails/route.ts:54-60 | otherwise the first text part is decoded |
| Emails.EntryOf | app/api/emails/route.ts:41-70 | an entry has the id, snippet and body and the headers with defaults 'No Subject', 'Unknown' and `''` |
| Emails.ExtractBody | app/api/emails/route.ts:49-61 | the loop's body step computes exactly `BodyOf` for the payload |
| Emails.ListedEntry | app/api/emails/route.ts:41-70 | one loop step builds exactly `EntryOf` for the fetched message |
| Emails.ListEmails | app/api/emails/route.ts:22-81 | the first failed call gives 500 with its non-empty Error message or 'Failed to fetch emails'; otherwise one entry per listed id, in order |
| JobStatus.MergedNotes | app/api/jobs/status/route.ts:131 | falsy notes keep the old notes; otherwise the result starts with the old notes and a newline when those were truthy, then the time, and ends with the new note |
| JobStatus.NotesAccumulate | app/api/jobs/status/route.ts:131 | a second note is appended after the first with a newline |
| JobStatus.TemplateArgsFor | app/api/jobs/status/route.ts:150-167 | confirmed and rescheduled templates get name, date and time; the others only the name |
| JobStatus.Patch | app/api/jobs/status/route.ts:71-194 | a missing id or status gives 400; a status outside the six gives 400; a failed job query gives 500 'Failed to fetch job details'; a failed job request query gives 500 'Failed to fetch customer details'; otherwise the update stores the new status, the job's notes merged with `notes` (default `''`) and the update time; a failed update gives 500; a successful one continues as `Stored` |
| JobStatus.MissingNotesKeepOld | app/api/jobs/status/route.ts:76-77 | without a `notes` key the default `''` is falsy, so the stored notes are the job's old notes |
| JobStatus.Stored | app/api/jobs/status/route.ts:145-185 | after a successful update: the update is kept; an email is attempted iff notification is due; a `null` job request with notification due gives 500 'Failed to update job status' and no email; otherwise the body is the first updated row; an email has its status's subject, and name, date and time exactly for confirmed and rescheduled |
| JobStatus.EmailIffNotify | app/api/jobs/status/route.ts:146 | after a successful update an email is attempted iff `notifyCustomer` (default true) is truthy and the status is confirmed, completed, cancelled or rescheduled |
| JobStatus.NoEmailForPendingOrInProgress | app/api/jobs/status/route.ts:146 | pending and in progress never email the customer |
| JobStatus.DeliveryIgnored | app/api/jobs/status/route.ts:169-179 | whether delivery succeeds changes nothing in the outcome |
| JobSchedule.Truncate | app/api/jobs/schedule/route.ts:66 | the integer part toward zero |
| JobSchedule.TimeClip | app/api/jobs/schedule/route.ts:66-70 | a time is valid iff within 8.64e15 ms, and an integral valid time is kept |
| JobSchedule.DateTimeSplit | app/api/jobs/schedule/route.ts:61-65 | digit groups `Y-M-D` and `H:M` reach the date constructor as Y, M - 1, D, H, M |
| JobSchedule.EndTime | app/api/jobs/schedule/route.ts:66 | the end is valid iff the duration converts to a number and start + hours × 3600000 lies within ±8.64e15 ms, and then lies within 1 ms of that exact sum |
| JobSchedule.WholeHours | app/api/jobs/schedule/route.ts:66 | for a whole number of hours k (in range), the end is exactly start + k × 3600000 |
| JobSchedule.Attendees | app/api/jobs/schedule/route.ts:93 | the assigned staff member when truthy, else nobody |
| JobSchedule.EventFor | app/api/jobs/schedule/route.ts:61-101 | an event exists iff the date and time are strings giving a valid start and end and the job request is not `null`; it has the summary `Window Cleaning - ` and the customer name, the job request's address, the attendees, the fixed reminders and the time zone, and starts and ends at the ISO strings of the start built from the split date and time and of the end computed from the duration |
| JobSchedule.RowFor | app/api/jobs/schedule/route.ts:112-122 | the row copies the body's fields, the calendar event id and the time, with the status defaulting to 'scheduled' |
| JobSchedule.Post | app/api/jobs/schedule/route.ts:26-152 | a missing required field gives 400; a failed fetch gives 500; once fetched, no event (non-string or invalid date or time, `null` job request) gives 500 'Failed to schedule job'; otherwise that event is sent; a failed or `null` calendar answer gives 500 'Failed to schedule job' with no row; otherwise the row is inserted, the request is marked scheduled, and the reply is 500 'Failed to update job details' on a failed insert, else Ok with the first stored row and the calendar data |
| JobSchedule.ZeroDurationRejected | app/api/jobs/schedule/route.ts:38-43 | a duration of 0 is falsy and rejected with 400 |
| ErrorHandling.SafeAsync | app/utils/errorHandling.ts:9-23 | status 200 iff the call succeeded, with its data; otherwise 500 and the Error's message or the default |
| ErrorHandling.WithRetry | app/utils/errorHandling.ts:26-68 | at most `maxRetries + 1` calls; every call but the last failed with a retryable error; the result is the last call's value or error; the attempts end only on success, a non-retryable error or exhaustion; one wait between consecutive calls, the k-th being `delayMs × backoffFactor^k` |
| ErrorHandling.WithRetryOptions | app/utils/errorHandling.ts:35-40 | with the defaults, at most four calls, and a failing call gets waits of 300, 600 and 1200 ms |
| ErrorHandling.FormatErrorResponse | app/utils/errorHandling.ts:80-91 | always 500; an Error's non-empty message or the default; a thrown string itself; otherwise the default |
| ErrorHandling.FormatErrorNonEmpty | app/utils/errorHandling.ts:80-91 | with a non-empty default and no empty thrown string the message is never empty |
| Middleware.Decide | middleware.ts:6-54 | public paths and requests with a session pass; without a session, pages redirect to login and API paths get 401 |
| Middleware.StoppedIff | middleware.ts:11-53 | a request is stopped iff its path is not public and there is no session |
| Middleware.ApiNeverRedirected | middleware.ts:40-51 | redirects only happen for pages, 401s only for API paths |
| Middleware.ApiPublicOnlyWithDot | middleware.ts:11-15 | an API path skips the session check only when it contains a dot |

## Left out

- Network calls to Gmail, Google Calendar, Supabase, OpenAI and nodemailer are inputs: their outcomes are parameters and the model does not describe the services.
- Base64 decoding (`Buffer`), `JSON.parse`, the `Date` constructor's local-time conversion, `toISOString`, `toLocaleDateString` and number-to-string conversion are parameters because they depend on the platform.
- Logging (`console.error`, `logError`) has no effect on results and is not modelled.
- `gmailService.fetchEmails` and `gmailService.parseEmailContent` (app/utils/gmail.ts:30-113) are not modelled separately: they only chain their network calls into the modelled `extractHeaders`, `extractBody` and `extractJobInfo`.
- The email templates' HTML and the calendar event's description text are left out; the model keeps which template is used and its arguments, and the event's summary.
- The message text of a TypeError comes from the engine; the model uses the V8 wording for the messages that reach a reply.
- Js.JsText: renders every JSON object as `[object Object]`. A JSON object with its own `toString` key (for example `{"toString": 1}`) makes `String(v)` and `v.toString()` throw a TypeError in JavaScript. The model does not capture that throw: the `toString()` of `estimateConfidence`, the `${notes}` of the status note and the `${customer_name}` of the event summary treat such an object as `[object Object]`.
- The full `Number()` grammar is left out: only blank strings and optionally signed decimal integers convert, and other syntaxes (fractions, exponents, hex, `Infinity`) give NaN in the model.
- Strings are sequences of Unicode scalars rather than UTF-16 code units, and lower-casing is ASCII-only; all lower-cased vocabulary in the source is ASCII.
- Gmail.CalculateConfidence: works in exact tenths, so it does not model the floating-point sum 0.3 + 0.4 + 0.3 (the cap `Math.min(score, 1.0)` is never reached in exact arithmetic).
- ParseEmail.Hundredths: works in exact hundredths rather than modelling the floating-point `toFixed(2)`.
- JobSchedule.EndTime: uses exact real arithmetic for `estimatedDuration * 60 * 60 * 1000`, not IEEE doubles.
- ErrorHandling.WithRetry: options are integers, so it does not model fractional or non-numeric `maxRetries`, `delayMs` or `backoffFactor`; the waits are recorded, not slept.
- The `message.id!` non-null assertion is folded into the `get` outcome: a message without an id is whatever the service answers for it.
- Middleware.Decide: the cookie callbacks and the `config.matcher` pre-filter are left out; the matcher only skips paths the function already lets through.
- GmailPatterns.FromDisplayName: the contract pins down only the leftmost match, not the semantics of each regular-expression group.
