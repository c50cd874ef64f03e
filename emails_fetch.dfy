/**
 * app/api/emails/fetch/route.ts: the GET handler that lists unread messages
 * and returns, for each, its subject, sender, date and body. The Gmail calls
 * are parameters; `clock(i)` is `new Date().toISOString()` when the `i`-th
 * message is read, and `decode` is the base64 decoder.
 */
module EmailsFetch {
  import opened Wrappers
  import opened MailMessage
  import Js

  const FetchFailed := "Failed to fetch emails"

  datatype FetchedEmail = FetchedEmail(id: string, subject: string, from: string, date: string, body: string)

  predicate IsPlainType(p: Part) { p.mimeType == "text/plain" }

  predicate HasData(p: Part) { p.data != "" }

  /**
   * The body: with parts, the first text/plain part when it has data, else
   * the first part with data, else `''`; without parts, the payload's own
   * body data, else `''`.
   */
  function BodyOf(payload: Option<Payload>, decode: string -> string): (r: string)
    ensures payload.None? ==> r == ""
    ensures payload.Some? && payload.value.parts == [] ==>
      r == if payload.value.bodyData != "" then decode(payload.value.bodyData) else ""
  {
    if payload.None? then ""
    else
      var parts := payload.value.parts;
      if |parts| > 0 then
        match FindFirst(parts, IsPlainType)
        case Some(i) =>
          if parts[i].data != "" then decode(parts[i].data)
          else FirstDataBody(parts, decode)
        case None => FirstDataBody(parts, decode)
      else if payload.value.bodyData != "" then decode(payload.value.bodyData)
      else ""
  }

  function FirstDataBody(parts: seq<Part>, decode: string -> string): string {
    match FindFirst(parts, HasData)
    case Some(j) => decode(parts[j].data)
    case None => ""
  }

  /** With parts present, the first text/plain part wins when it has data: earlier parts of other types do not matter. */
  lemma PlainPartPreferred(h: seq<Header>, bodyData: string, parts: seq<Part>, i: nat, decode: string -> string)
    requires i < |parts| && IsPlainType(parts[i]) && HasData(parts[i])
    requires forall j :: 0 <= j < i ==> !IsPlainType(parts[j])
    ensures BodyOf(Some(Payload(h, bodyData, parts)), decode) == decode(parts[i].data)
  {
    assert FindFirst(parts, IsPlainType) == Some(i) by {
      FindFirstIs(parts, IsPlainType, i);
    }
  }

  /** Otherwise the first part with data of any type is used. */
  lemma FallbackToFirstData(h: seq<Header>, bodyData: string, parts: seq<Part>, j: nat, decode: string -> string)
    requires j < |parts| && HasData(parts[j])
    requires forall k :: 0 <= k < j ==> !HasData(parts[k])
    requires forall k :: 0 <= k < |parts| && IsPlainType(parts[k]) ==> !HasData(parts[k]) || exists m :: 0 <= m < k && IsPlainType(parts[m])
    ensures BodyOf(Some(Payload(h, bodyData, parts)), decode) == decode(parts[j].data)
  {
    FindFirstIs(parts, HasData, j);
  }

  /** With parts present, the payload's own body data is never read. */
  lemma PartsHideBodyData(h: seq<Header>, d1: string, d2: string, parts: seq<Part>, decode: string -> string)
    requires parts != []
    ensures BodyOf(Some(Payload(h, d1, parts)), decode) == BodyOf(Some(Payload(h, d2, parts)), decode)
  {
  }

  /** The body is `''` when no candidate has data, whatever `decode` does. */
  lemma NoDataEmptyBody(payload: Payload, decode: string -> string)
    requires payload.bodyData == "" && forall k :: 0 <= k < |payload.parts| ==> !HasData(payload.parts[k])
    ensures BodyOf(Some(payload), decode) == ""
  {
    var parts := payload.parts;
    if parts != [] {
      match FindFirst(parts, IsPlainType)
      case Some(i) => assert !HasData(parts[i]);
      case None =>
    }
  }

  /** One entry: header defaults 'No Subject', 'Unknown Sender' and the current time. */
  function EntryOf(id: string, m: Message, now: string, decode: string -> string): (r: FetchedEmail)
    ensures r.id == id && r.body == BodyOf(m.payload, decode)
    ensures r.subject == HeaderOr(HeadersOf(m), "Subject", "No Subject")
    ensures r.from == HeaderOr(HeadersOf(m), "From", "Unknown Sender")
    ensures r.date == HeaderOr(HeadersOf(m), "Date", now)
  {
    var hs := HeadersOf(m);
    FetchedEmail(id, HeaderOr(hs, "Subject", "No Subject"), HeaderOr(hs, "From", "Unknown Sender"),
      HeaderOr(hs, "Date", now), BodyOf(m.payload, decode))
  }

  /**
   * GET: one entry per listed message, in list order; any thrown error
   * ends the handler with a 500 and a fixed message.
   */
  method FetchEmails(list: Result<seq<string>, Js.Thrown>, get: string -> Result<Message, Js.Thrown>,
                     clock: nat -> string, decode: string -> string) returns (r: Js.Reply<seq<FetchedEmail>>)
    ensures list.Failure? ==> r == Js.Err(500, FetchFailed)
    ensures r.Err? ==> r == Js.Err(500, FetchFailed)
    ensures list.Success? ==>
      var ids := list.value;
      (r.Ok? <==> forall i :: 0 <= i < |ids| ==> get(ids[i]).Success?) &&
      (r.Ok? ==> (|r.body| == |ids| &&
        forall i :: 0 <= i < |ids| ==> r.body[i] == EntryOf(ids[i], get(ids[i]).value, clock(i), decode)))
  {
    if list.Failure? {
      return Js.Err(500, FetchFailed);
    }
    var ids := list.value;
    var emailsData: seq<FetchedEmail> := [];
    var i := 0;
    while i < |ids|
      invariant 0 <= i <= |ids|
      invariant forall j :: 0 <= j < i ==> get(ids[j]).Success?
      invariant |emailsData| == i
      invariant forall j :: 0 <= j < i ==> emailsData[j] == EntryOf(ids[j], get(ids[j]).value, clock(j), decode)
    {
      var email := get(ids[i]);
      if email.Failure? {
        return Js.Err(500, FetchFailed);
      }
      var hs := HeadersOf(email.value);
      var subject := HeaderOr(hs, "Subject", "No Subject");
      var from := HeaderOr(hs, "From", "Unknown Sender");
      var date := HeaderOr(hs, "Date", clock(i));
      var body := ExtractBody(email.value.payload, decode);
      assert FetchedEmail(ids[i], subject, from, date, body) == EntryOf(ids[i], email.value, clock(i), decode);
      emailsData := emailsData + [FetchedEmail(ids[i], subject, from, date, body)];
      i := i + 1;
    }
    r := Js.Ok(emailsData);
  }

  /**
   * The body step of the loop: the first text/plain part's data when it has
   * any, else the first part with data; with no parts, the payload's own
   * body data; `''` otherwise.
   */
  method ExtractBody(payload: Option<Payload>, decode: string -> string) returns (body: string)
    ensures body == BodyOf(payload, decode)
  {
    body := "";
    if payload.Some? && |payload.value.parts| > 0 {
      var parts := payload.value.parts;
      var textPart := FindFirst(parts, IsPlainType);
      if textPart.Some? && parts[textPart.value].data != "" {
        body := decode(parts[textPart.value].data);
      } else {
        var firstPartWithData := FindFirst(parts, HasData);
        if firstPartWithData.Some? {
          body := decode(parts[firstPartWithData.value].data);
        }
      }
    } else if payload.Some? && payload.value.bodyData != "" {
      body := decode(payload.value.bodyData);
    }
  }
}
