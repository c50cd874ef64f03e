/**
 * app/api/email-parsing/route.ts: the Gmail credential check, the labelled
 * field extraction `parseEmailContent`, and the GET (list) and POST (parse
 * one email) handlers. The Gmail API calls are parameters: `list` is the
 * outcome of listing unread messages, `get` the outcome of fetching one, and
 * `decode` is the base64 decoder.
 */
module EmailParsing {
  import opened Wrappers
  import opened Text
  import opened MailMessage
  import Js

  // ------------------------------------------------------- getGmailClient

  const CredentialsMissing :=
    "Gmail API credentials missing. Please set GMAIL_CLIENT_ID, GMAIL_CLIENT_SECRET, and GMAIL_REFRESH_TOKEN in your environment variables."

  datatype GmailClient = GmailClient(clientId: string, clientSecret: string, redirectUri: Option<string>, refreshToken: string)

  /** An environment variable, `''` when it is not set (both are falsy). */
  function EnvOr(env: map<string, string>, name: string): string {
    if name in env then env[name] else ""
  }

  predicate HasCredentials(env: map<string, string>) {
    EnvOr(env, "GMAIL_CLIENT_ID") != "" && EnvOr(env, "GMAIL_CLIENT_SECRET") != "" &&
    EnvOr(env, "GMAIL_REFRESH_TOKEN") != ""
  }

  /**
   * `getGmailClient`: throws unless the client id, client secret and refresh
   * token are all set and non-empty; the redirect URI is passed through as
   * it is, set or not.
   */
  function GetGmailClient(env: map<string, string>): (r: Result<GmailClient, Js.Thrown>)
    ensures r.Failure? <==> !HasCredentials(env)
    ensures r.Failure? ==> r.error == Js.ErrorObject(CredentialsMissing)
    ensures r.Success? ==> r.value.clientId == env["GMAIL_CLIENT_ID"] && r.value.clientSecret == env["GMAIL_CLIENT_SECRET"]
    ensures r.Success? ==> r.value.refreshToken == env["GMAIL_REFRESH_TOKEN"]
  {
    if !HasCredentials(env) then Failure(Js.ErrorObject(CredentialsMissing))
    else
      var redirect := if "REDIRECT_URI" in env then Some(env["REDIRECT_URI"]) else None;
      Success(GmailClient(env["GMAIL_CLIENT_ID"], env["GMAIL_CLIENT_SECRET"], redirect, env["GMAIL_REFRESH_TOKEN"]))
  }

  /** Whether the client can be built never depends on the redirect URI. */
  lemma RedirectUriNotRequired(env: map<string, string>, uri: string)
    ensures GetGmailClient(env).Success? == GetGmailClient(env["REDIRECT_URI" := uri]).Success?
    ensures GetGmailClient(env).Success? == GetGmailClient(env - {"REDIRECT_URI"}).Success?
  {
    assert EnvOr(env["REDIRECT_URI" := uri], "GMAIL_CLIENT_ID") == EnvOr(env, "GMAIL_CLIENT_ID");
    assert EnvOr(env - {"REDIRECT_URI"}, "GMAIL_CLIENT_ID") == EnvOr(env, "GMAIL_CLIENT_ID");
  }

  // ---------------------------------------------------- labelled patterns
  // /(?:label|...):\s*([class]+)/i

  /** `[\w\s]` */
  predicate IsNameClass(c: char) { IsWordChar(c) || IsSpace(c) }

  /** `[\d\-\+\(\)\s]` */
  predicate IsPhoneClass(c: char) {
    IsDigit(c) || c == '-' || c == '+' || c == '(' || c == ')' || IsSpace(c)
  }

  /** `[\w\s,.-]`, the class of the address, service and date labels. */
  predicate IsTextClass(c: char) {
    IsWordChar(c) || IsSpace(c) || c == ',' || c == '.' || c == '-'
  }

  /**
   * `\s*([class]+)` at `x`, for a class that contains every space. The
   * greedy `\s*` keeps all the spaces when a class character follows them,
   * and otherwise gives the last space back to the capture.
   */
  function CaptureAfterColon(s: string, x: nat, cls: char -> bool): (r: Option<string>)
    requires forall c :: IsSpace(c) ==> cls(c)
    ensures r.Some? ==> |r.value| >= 1 && forall i :: 0 <= i < |r.value| ==> cls(r.value[i])
    ensures r.None? <==> x >= |s| || !cls(s[x])
  {
    var w := SpaceRun(s, x);
    var n := Run(s, x + w, cls);
    if n >= 1 then
      var c := s[x + w..x + w + n];
      assert forall i :: 0 <= i < |c| ==> c[i] == s[x + w + i];
      Some(c)
    else if w >= 1 then Some(s[x + w - 1..x + w])
    else None
  }

  /** The whole labelled pattern at `p`: a label (case-insensitive), a colon, then the capture. */
  function LabelledAt(s: string, p: nat, labels: seq<string>, cls: char -> bool): Option<string>
    requires forall c :: IsSpace(c) ==> cls(c)
  {
    KeywordThen(s, p, labels, (x: nat) => if x < |s| && s[x] == ':' then CaptureAfterColon(s, x + 1, cls) else None)
  }

  /**
   * `m ? m[1].trim() : null` for a labelled pattern: absent exactly when the
   * pattern matches nowhere, and otherwise the trimmed capture of the
   * leftmost match.
   */
  function LabelledField(s: string, labels: seq<string>, cls: char -> bool): (r: Option<string>)
    requires forall c :: IsSpace(c) ==> cls(c)
    ensures r.None? <==> forall p: nat :: p <= |s| ==> LabelledAt(s, p, labels, cls).None?
    ensures r.Some? ==> exists p: nat :: (p <= |s| && LabelledAt(s, p, labels, cls).Some? &&
      r.value == Trim(LabelledAt(s, p, labels, cls).value) &&
      forall q: nat :: q < p ==> LabelledAt(s, q, labels, cls).None?)
  {
    var at := p => LabelledAt(s, p, labels, cls);
    assert forall q: nat :: at(q) == LabelledAt(s, q, labels, cls);
    var c := LeftmostMatch(at, |s|);
    if c.Some? then Some(Trim(c.value)) else None
  }

  // ------------------------------------------------------- e-mail address
  // [local]+@[domain]+\.[a-zA-Z]{2,}

  /** `[a-zA-Z0-9._%+-]`, the same set as `[\w.%+-]`. */
  predicate IsLocalChar(c: char) {
    IsLetter(c) || IsDigit(c) || c == '.' || c == '_' || c == '%' || c == '+' || c == '-'
  }

  /** `[a-zA-Z0-9.-]`, the domain class of the body pattern. */
  predicate IsBodyDomainChar(c: char) { IsLetter(c) || IsDigit(c) || c == '.' || c == '-' }

  /** `[\w.-]`, the domain class of the From pattern: it also admits `_`. */
  predicate IsSenderDomainChar(c: char) { IsWordChar(c) || c == '.' || c == '-' }

  /**
   * `[domain]+\.[a-zA-Z]{2,}` once the greedy domain run `m` is fixed: the
   * run backs off until a `.` followed by at least two letters comes next;
   * the top-level part then takes every letter.
   */
  function DotTopLevel(s: string, d0: nat, m: nat): (r: Option<nat>)
    decreases m
    ensures r.Some? ==> d0 + 4 <= r.value <= |s|
  {
    if m == 0 then None
    else
      var dot := d0 + m;
      var tld := Run(s, dot + 1, IsLetter);
      if dot < |s| && s[dot] == '.' && tld >= 2 then Some(dot + 1 + tld)
      else DotTopLevel(s, d0, m - 1)
  }

  /**
   * The address at `y`: where it ends. The local run must stop right at the
   * `@`, since backing it off leaves a local character where `@` is required.
   */
  function AddressEnd(s: string, y: nat, local: char -> bool, domain: char -> bool): (r: Option<nat>)
    ensures r.Some? ==> y + 6 <= r.value <= |s|
    ensures r.Some? ==> y + Run(s, y, local) < |s| && s[y + Run(s, y, local)] == '@'
  {
    var l := Run(s, y, local);
    var at := y + l;
    if l == 0 || at >= |s| || s[at] != '@' then None
    else DotTopLevel(s, at + 1, Run(s, at + 1, domain))
  }

  /** `:\s*(address)` after an e-mail label: `\s*` must keep every space. */
  function EmailAfterLabel(s: string, x: nat): (r: Option<string>)
    ensures r.Some? ==> |r.value| >= 6 && '@' in r.value
  {
    if !(x < |s| && s[x] == ':') then None
    else
      var y := x + 1 + SpaceRun(s, x + 1);
      match AddressEnd(s, y, IsLocalChar, IsBodyDomainChar)
      case Some(e) =>
        var c := s[y..e];
        assert c[Run(s, y, IsLocalChar)] == '@';
        Some(c)
      case None => None
  }

  function EmailAt(s: string, p: nat): Option<string> {
    KeywordThen(s, p, ["email", "e-mail"], x => EmailAfterLabel(s, x))
  }

  /** The trimmed capture of the leftmost e-mail match, or absent. */
  function EmailField(s: string): (r: Option<string>)
    ensures r.None? <==> forall p: nat :: p <= |s| ==> EmailAt(s, p).None?
    ensures r.Some? ==> exists p: nat :: (p <= |s| && EmailAt(s, p).Some? &&
      r.value == Trim(EmailAt(s, p).value) &&
      forall q: nat :: q < p ==> EmailAt(s, q).None?)
  {
    var at := p => EmailAt(s, p);
    var m := FirstMatch(at, 0, |s|);
    assert forall q: nat :: at(q) == EmailAt(s, q);
    if m.Some? then
      assert EmailAt(s, m.value.0) == Some(m.value.1);
      Some(Trim(m.value.1))
    else None
  }

  // ---------------------------------------------------------- parseEmailContent

  datatype ParsedContent = ParsedContent(
    name: Option<string>,
    phone: Option<string>,
    email: Option<string>,
    address: Option<string>,
    service: Option<string>,
    requestedDate: Option<string>,
    needsEstimate: bool)

  const NameLabels: seq<string> := ["name", "customer", "client"]
  const PhoneLabels: seq<string> := ["phone", "telephone", "cell"]
  const AddressLabels: seq<string> := ["address", "location"]
  const ServiceLabels: seq<string> := ["service", "work", "job"]
  const DateLabels: seq<string> := ["date", "scheduled", "appointment"]

  /** `parseEmailContent`: six labelled fields, `null` when unmatched, and the estimate flag. */
  function ParseEmailContent(content: string): (r: ParsedContent)
    ensures r.name == LabelledField(content, NameLabels, IsNameClass)
    ensures r.phone == LabelledField(content, PhoneLabels, IsPhoneClass)
    ensures r.email == EmailField(content)
    ensures r.address == LabelledField(content, AddressLabels, IsTextClass)
    ensures r.service == LabelledField(content, ServiceLabels, IsTextClass)
    ensures r.requestedDate == LabelledField(content, DateLabels, IsTextClass)
    ensures r.needsEstimate <==>
      (exists i :: OccursAt(ToLower(content), "estimate", i)) || (exists i :: OccursAt(ToLower(content), "quote", i))
  {
    IncludesIff(ToLower(content), "estimate");
    IncludesIff(ToLower(content), "quote");
    ParsedContent(
      LabelledField(content, NameLabels, IsNameClass),
      LabelledField(content, PhoneLabels, IsPhoneClass),
      EmailField(content),
      LabelledField(content, AddressLabels, IsTextClass),
      LabelledField(content, ServiceLabels, IsTextClass),
      LabelledField(content, DateLabels, IsTextClass),
      IncludesCI(content, "estimate") || IncludesCI(content, "quote"))
  }

  // ------------------------------------------------------------ sender address
  // /(?:<)?([\w.%+-]+@[\w.-]+\.[a-zA-Z]{2,})(?:>)?/

  /** The From pattern at `p`: an optional `<`, then the address, captured. */
  function SenderAt(s: string, p: nat): (r: Option<string>)
    ensures r.Some? ==> |r.value| >= 6 && '@' in r.value
  {
    var y := if p < |s| && s[p] == '<' then p + 1 else p;
    match AddressEnd(s, y, IsLocalChar, IsSenderDomainChar)
    case Some(e) =>
      var c := s[y..e];
      assert c[Run(s, y, IsLocalChar)] == '@';
      Some(c)
    case None => None
  }

  /** `senderEmailMatch ? senderEmailMatch[1] : null`. */
  function SenderEmail(from: string): (r: Option<string>)
    ensures r.None? <==> forall p: nat :: p <= |from| ==> SenderAt(from, p).None?
    ensures r.Some? ==> exists p: nat :: p <= |from| && SenderAt(from, p) == r && forall q: nat :: q < p ==> SenderAt(from, q).None?
  {
    var at := p => SenderAt(from, p);
    assert forall q: nat :: at(q) == SenderAt(from, q);
    LeftmostMatch(at, |from|)
  }

  // ------------------------------------------------------------------ POST

  const ParseFailed := "Failed to parse email"
  const EmailIdRequired := "Email ID is required"
  const NoContent := "Unable to extract email content"

  /** A part the POST loop stops at: text/plain with body data. */
  predicate IsPlainPart(p: Part) {
    p.mimeType == "text/plain" && p.data != ""
  }

  /**
   * The content POST reads: the payload's own body data when present,
   * otherwise the data of the first text/plain part that has data, otherwise `''`.
   */
  function PlainContent(payload: Option<Payload>, decode: string -> string): string {
    if payload.None? then ""
    else if payload.value.bodyData != "" then decode(payload.value.bodyData)
    else match FindFirst(payload.value.parts, IsPlainPart)
      case Some(i) => decode(payload.value.parts[i].data)
      case None => ""
  }

  /** The loop over the parts in POST, stopping at the first text/plain part with data. */
  method ReadContent(payload: Option<Payload>, decode: string -> string) returns (content: string)
    ensures content == PlainContent(payload, decode)
  {
    content := "";
    if payload.Some? && payload.value.bodyData != "" {
      content := decode(payload.value.bodyData);
    } else if payload.Some? {
      var parts := payload.value.parts;
      var i := 0;
      while i < |parts|
        invariant 0 <= i <= |parts|
        invariant forall j :: 0 <= j < i ==> !IsPlainPart(parts[j])
      {
        var part := parts[i];
        if part.mimeType == "text/plain" && part.data != "" {
          content := decode(part.data);
          assert FindFirst(parts, IsPlainPart) == Some(i);
          return;
        }
        i := i + 1;
      }
      assert FindFirst(parts, IsPlainPart) == None;
    }
  }

  /**
   * Only text/plain parts with data are ever read: two part lists that agree
   * on those read the same content, whatever their other parts hold.
   */
  lemma {:induction false} OnlyPlainPartsRead(h: seq<Header>, parts1: seq<Part>, parts2: seq<Part>, decode: string -> string)
    requires |parts1| == |parts2|
    requires forall i :: 0 <= i < |parts1| ==> parts1[i] == parts2[i] || (!IsPlainPart(parts1[i]) && !IsPlainPart(parts2[i]))
    ensures PlainContent(Some(Payload(h, "", parts1)), decode) == PlainContent(Some(Payload(h, "", parts2)), decode)
    decreases |parts1|
  {
    if parts1 != [] {
      OnlyPlainPartsRead(h, parts1[1..], parts2[1..], decode);
      var f1 := FindFirst(parts1[1..], IsPlainPart);
      var f2 := FindFirst(parts2[1..], IsPlainPart);
      if !IsPlainPart(parts1[0]) && f1.Some? {
        assert parts1[1..][f1.value] == parts1[f1.value + 1];
        assert parts2[1..][f2.value] == parts2[f2.value + 1];
      }
    }
  }

  /** The record POST returns: every parsed field, plus the subject, the sender and the raw content. */
  datatype ParseResult = ParseResult(
    parsed: ParsedContent,
    subject: string,
    sender: string,
    senderEmail: Option<string>,
    rawContent: string)

  /**
   * The result assembly: exact-case `Subject` and `From` lookups with their
   * defaults, and the sender address preferred to the one in the body.
   */
  function AssembleResult(content: string, headers: seq<Header>): (r: ParseResult)
    ensures r.parsed == ParseEmailContent(content) && r.rawContent == content
    ensures r.subject == HeaderOr(headers, "Subject", "No Subject")
    ensures r.sender == HeaderOr(headers, "From", "Unknown Sender")
    ensures SenderEmail(r.sender).Some? ==> r.senderEmail == SenderEmail(r.sender)
    ensures SenderEmail(r.sender).None? ==> r.senderEmail == r.parsed.email
  {
    var from := HeaderOr(headers, "From", "Unknown Sender");
    var parsed := ParseEmailContent(content);
    var sender := SenderEmail(from);
    ParseResult(parsed, HeaderOr(headers, "Subject", "No Subject"), from,
      if sender.Some? then sender else parsed.email, content)
  }

  /** A request body whose `emailId` reads as a truthy value. */
  predicate EmailIdGiven(request: Option<Js.Json>) {
    request.Some? && !request.value.JNull? && Js.Truthy(Js.ReadValue(Js.Get(request.value, "emailId")))
  }

  function EmailId(request: Option<Js.Json>): Js.Json
    requires EmailIdGiven(request)
  {
    Js.ReadValue(Js.Get(request.value, "emailId")).value
  }

  /**
   * POST: `request` is the parsed body (`None` when `request.json()`
   * throws) and `get` the message fetched for an id (`None` when the call
   * throws). Every thrown error becomes a 500 with a fixed message.
   */
  method ParseEmail(request: Option<Js.Json>, env: map<string, string>, get: Js.Json -> Option<Message>,
                    decode: string -> string) returns (r: Js.Reply<ParseResult>)
    ensures request.None? || request.value.JNull? ==> r == Js.Err(500, ParseFailed)
    ensures request.Some? && !request.value.JNull? && !EmailIdGiven(request) ==> r == Js.Err(400, EmailIdRequired)
    ensures EmailIdGiven(request) && !HasCredentials(env) ==> r == Js.Err(500, ParseFailed)
    ensures EmailIdGiven(request) && HasCredentials(env) && get(EmailId(request)).None? ==> r == Js.Err(500, ParseFailed)
    ensures EmailIdGiven(request) && HasCredentials(env) && get(EmailId(request)).Some? ==>
      var m := get(EmailId(request)).value;
      var content := PlainContent(m.payload, decode);
      r == if content == "" then Js.Err(400, NoContent) else Js.Ok(AssembleResult(content, HeadersOf(m)))
  {
    if request.None? {
      return Js.Err(500, ParseFailed);
    }
    var read := Js.Get(request.value, "emailId");
    if read.TypeError? {
      return Js.Err(500, ParseFailed);
    }
    var emailId := Js.ReadValue(read);
    if !Js.Truthy(emailId) {
      return Js.Err(400, EmailIdRequired);
    }
    var client := GetGmailClient(env);
    if client.Failure? {
      return Js.Err(500, ParseFailed);
    }
    var email := get(emailId.value);
    if email.None? {
      return Js.Err(500, ParseFailed);
    }
    var emailContent := ReadContent(email.value.payload, decode);
    if emailContent == "" {
      return Js.Err(400, NoContent);
    }
    r := Js.Ok(AssembleResult(emailContent, HeadersOf(email.value)));
  }

  // ------------------------------------------------------------------- GET

  const FetchFailed := "Failed to fetch emails"

  datatype EmailSummary = EmailSummary(id: string, subject: string, from: string, date: string, snippet: string)

  /** One entry of the GET list, with the header defaults. */
  function SummaryOf(id: string, m: Message): (r: EmailSummary)
    ensures r.id == id && r.snippet == m.snippet
    ensures r.subject == HeaderOr(HeadersOf(m), "Subject", "No Subject")
    ensures r.from == HeaderOr(HeadersOf(m), "From", "Unknown Sender")
    ensures r.date == HeaderOr(HeadersOf(m), "Date", "")
  {
    var hs := HeadersOf(m);
    EmailSummary(id, HeaderOr(hs, "Subject", "No Subject"), HeaderOr(hs, "From", "Unknown Sender"),
      HeaderOr(hs, "Date", ""), m.snippet)
  }

  /**
   * GET: `list` is the outcome of listing the unread messages (their ids),
   * `get` the outcome of fetching one. The first error thrown ends the
   * handler with a 500 carrying that error's message.
   */
  method ListEmails(env: map<string, string>, list: Result<seq<string>, Js.Thrown>,
                    get: string -> Result<Message, Js.Thrown>) returns (r: Js.Reply<seq<EmailSummary>>)
    ensures !HasCredentials(env) ==> r == Js.Err(500, CredentialsMissing)
    ensures HasCredentials(env) && list.Failure? ==> r == Js.Err(500, Js.ErrorMessageOr(list.error, FetchFailed))
    ensures HasCredentials(env) && list.Success? ==>
      var ids := list.value;
      (forall i :: 0 <= i < |ids| ==> get(ids[i]).Success?) ==>
        r.Ok? && |r.body| == |ids| &&
        forall i :: 0 <= i < |ids| ==> r.body[i] == SummaryOf(ids[i], get(ids[i]).value)
    ensures HasCredentials(env) && list.Success? ==>
      var ids := list.value;
      forall i :: 0 <= i < |ids| && get(ids[i]).Failure? && (forall j :: 0 <= j < i ==> get(ids[j]).Success?) ==>
        r == Js.Err(500, Js.ErrorMessageOr(get(ids[i]).error, FetchFailed))
  {
    var client := GetGmailClient(env);
    if client.Failure? {
      return Js.Err(500, Js.ErrorMessageOr(client.error, FetchFailed));
    }
    if list.Failure? {
      return Js.Err(500, Js.ErrorMessageOr(list.error, FetchFailed));
    }
    var ids := list.value;
    var emails: seq<EmailSummary> := [];
    var i := 0;
    while i < |ids|
      invariant 0 <= i <= |ids|
      invariant forall j :: 0 <= j < i ==> get(ids[j]).Success?
      invariant |emails| == i
      invariant forall j :: 0 <= j < i ==> emails[j] == SummaryOf(ids[j], get(ids[j]).value)
    {
      var emailData := get(ids[i]);
      if emailData.Failure? {
        return Js.Err(500, Js.ErrorMessageOr(emailData.error, FetchFailed));
      }
      emails := emails + [SummaryOf(ids[i], emailData.value)];
      i := i + 1;
    }
    r := Js.Ok(emails);
  }
}
