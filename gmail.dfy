/**
 * app/utils/gmail.ts: header and body extraction from a Gmail message, the
 * HTML-to-text simplification, the job-information extraction and its
 * confidence score. Base64 decoding is the parameter `decode`.
 */
module Gmail {
  import opened Wrappers
  import opened Text
  import opened MailMessage
  import GmailPatterns

  // ---------------------------------------------------------------- headers

  /** The four header values `extractHeaders` returns. */
  datatype HeaderSummary = HeaderSummary(subject: string, from: string, to: string, date: string)

  /** An entry the loop stores: `header.name && header.value`. */
  predicate Usable(h: Header) {
    h.name != "" && h.value != ""
  }

  predicate StoredUnder(h: Header, key: string) {
    Usable(h) && ToLower(h.name) == key
  }

  /** The dictionary the loop has built after reading `hs`: `headers[name.toLowerCase()] = value`. */
  function HeaderMap(hs: seq<Header>): map<string, string>
    decreases |hs|
  {
    if hs == [] then map[]
    else
      var m := HeaderMap(hs[..|hs| - 1]);
      var h := hs[|hs| - 1];
      if Usable(h) then m[ToLower(h.name) := h.value] else m
  }

  /** Reference definition: the last entry stored under `key`. */
  function LastStored(hs: seq<Header>, key: string): (r: Option<nat>)
    decreases |hs|
    ensures r.Some? ==> r.value < |hs| && StoredUnder(hs[r.value], key)
    ensures r.Some? ==> forall j :: r.value < j < |hs| ==> !StoredUnder(hs[j], key)
    ensures r.None? ==> forall j :: 0 <= j < |hs| ==> !StoredUnder(hs[j], key)
  {
    if hs == [] then None
    else if StoredUnder(hs[|hs| - 1], key) then Some(|hs| - 1)
    else LastStored(hs[..|hs| - 1], key)
  }

  /** The value the summary reports for `key`: the last stored value, or `''`. */
  function StoredValue(hs: seq<Header>, key: string): string {
    match LastStored(hs, key)
    case Some(i) => hs[i].value
    case None => ""
  }

  /**
   * The dictionary holds `key` exactly when some usable entry's lower-cased
   * name is `key`, and then holds the value of the last such entry.
   */
  lemma {:induction false} HeaderMapLast(hs: seq<Header>, key: string)
    decreases |hs|
    ensures key in HeaderMap(hs) <==> LastStored(hs, key).Some?
    ensures key in HeaderMap(hs) ==> HeaderMap(hs)[key] == hs[LastStored(hs, key).value].value
  {
    if hs != [] {
      HeaderMapLast(hs[..|hs| - 1], key);
    }
  }

  lemma HeaderMapSummary(hs: seq<Header>, key: string)
    ensures (if key in HeaderMap(hs) then HeaderMap(hs)[key] else "") == StoredValue(hs, key)
  {
    HeaderMapLast(hs, key);
  }

  /** The summary value for `key` is non-empty exactly when a usable entry is stored under it. */
  lemma StoredValueNonEmpty(hs: seq<Header>, key: string)
    ensures StoredValue(hs, key) != "" <==> exists i :: 0 <= i < |hs| && StoredUnder(hs[i], key)
  {
    var r := LastStored(hs, key);
    if r.Some? {
      assert StoredUnder(hs[r.value], key);
    }
  }

  /**
   * `extractHeaders`: reads every header into a dictionary keyed by the
   * lower-cased name (skipping entries with an empty name or value, a later
   * entry overwriting an earlier one) and reports four keys, `''` when absent.
   */
  method ExtractHeaders(message: Message) returns (r: HeaderSummary)
    ensures r.subject == StoredValue(HeadersOf(message), "subject")
    ensures r.from == StoredValue(HeadersOf(message), "from")
    ensures r.to == StoredValue(HeadersOf(message), "to")
    ensures r.date == StoredValue(HeadersOf(message), "date")
  {
    var headers: map<string, string> := map[];
    var hs := HeadersOf(message);
    var i := 0;
    while i < |hs|
      invariant 0 <= i <= |hs|
      invariant headers == HeaderMap(hs[..i])
    {
      var h := hs[i];
      if h.name != "" && h.value != "" {
        headers := headers[ToLower(h.name) := h.value];
      }
      assert hs[..i + 1][..i] == hs[..i];
      i := i + 1;
    }
    assert hs[..i] == hs;
    HeaderMapSummary(hs, "subject");
    HeaderMapSummary(hs, "from");
    HeaderMapSummary(hs, "to");
    HeaderMapSummary(hs, "date");
    r := HeaderSummary(
      if "subject" in headers then headers["subject"] else "",
      if "from" in headers then headers["from"] else "",
      if "to" in headers then headers["to"] else "",
      if "date" in headers then headers["date"] else "");
  }

  // ------------------------------------------------------------ HTML to text

  /**
   * `replace(/<[^>]*>/g, ' ')`: every `<` that has a `>` somewhere after it
   * starts a tag running to the first such `>`, and the tag becomes one space.
   */
  function StripTags(s: string): string
    decreases |s|
  {
    if s == [] then []
    else if s[0] == '<' && '>' in s[1..] then
      var j := FirstIndex(s[1..], '>');
      " " + StripTags(s[j + 2..])
    else [s[0]] + StripTags(s[1..])
  }

  /** `replace(/\s+/g, ' ')`: every maximal run of whitespace becomes one space. */
  function CollapseSpaces(s: string): string
    decreases |s|
  {
    if s == [] then []
    else if IsSpace(s[0]) then " " + CollapseSpaces(s[SpaceRun(s, 0)..])
    else [s[0]] + CollapseSpaces(s[1..])
  }

  /** The HTML branch of `extractBody`. */
  function HtmlToText(html: string): string {
    Trim(CollapseSpaces(StripTags(html)))
  }

  /** No `<` is followed, anywhere later, by a `>`. */
  predicate NoTagLeft(t: string) {
    forall i, j :: 0 <= i < j < |t| && t[i] == '<' ==> t[j] != '>'
  }

  /** No two adjacent whitespace characters. */
  predicate NoDoubleSpace(t: string) {
    forall i :: 0 <= i < |t| - 1 ==> !(IsSpace(t[i]) && IsSpace(t[i + 1]))
  }

  /** Every whitespace character is a plain space. */
  predicate OnlyPlainSpaces(t: string) {
    forall i :: 0 <= i < |t| ==> IsSpace(t[i]) ==> t[i] == ' '
  }

  lemma ConsNoTag(c: char, u: string)
    requires NoTagLeft(u)
    requires c == '<' ==> '>' !in u
    ensures NoTagLeft([c] + u)
  {
    var t := [c] + u;
    forall i, j | 0 <= i < j < |t| && t[i] == '<'
      ensures t[j] != '>'
    {
      if i == 0 {
        assert t[j] == u[j - 1];
      } else {
        assert t[i] == u[i - 1] && t[j] == u[j - 1];
      }
    }
  }

  lemma SliceNoTag(t: string, a: nat, b: nat)
    requires a <= b <= |t| && NoTagLeft(t)
    ensures NoTagLeft(t[a..b])
  {
    var u := t[a..b];
    forall i, j | 0 <= i < j < |u| && u[i] == '<'
      ensures u[j] != '>'
    {
      assert u[i] == t[a + i] && u[j] == t[a + j];
    }
  }

  /** Every character of the stripped text other than a space comes from the input. */
  lemma {:induction false} StripTagsChars(s: string, c: char)
    requires c != ' ' && c in StripTags(s)
    decreases |s|
    ensures c in s
  {
    if s[0] == '<' && '>' in s[1..] {
      var j := FirstIndex(s[1..], '>');
      assert c in StripTags(s[j + 2..]);
      StripTagsChars(s[j + 2..], c);
      assert s[j + 2..] == s[1..][j + 1..];
    } else if c != s[0] {
      assert c in StripTags(s[1..]);
      StripTagsChars(s[1..], c);
    }
  }

  lemma {:induction false} StripTagsNoTag(s: string)
    decreases |s|
    ensures NoTagLeft(StripTags(s))
  {
    if s != [] {
      if s[0] == '<' && '>' in s[1..] {
        var j := FirstIndex(s[1..], '>');
        StripTagsNoTag(s[j + 2..]);
        ConsNoTag(' ', StripTags(s[j + 2..]));
        assert StripTags(s) == " " + StripTags(s[j + 2..]);
      } else {
        assert StripTags(s) == [s[0]] + StripTags(s[1..]);
        StripTagsNoTag(s[1..]);
        if s[0] == '<' && '>' in StripTags(s[1..]) {
          StripTagsChars(s[1..], '>');
        }
        ConsNoTag(s[0], StripTags(s[1..]));
      }
    }
  }

  lemma {:induction false} CollapseChars(s: string, c: char)
    requires c != ' ' && c in CollapseSpaces(s)
    decreases |s|
    ensures c in s
  {
    if IsSpace(s[0]) {
      var k := SpaceRun(s, 0);
      assert c in CollapseSpaces(s[k..]);
      CollapseChars(s[k..], c);
    } else if c != s[0] {
      assert c in CollapseSpaces(s[1..]);
      CollapseChars(s[1..], c);
    }
  }

  lemma {:induction false} CollapseNoTag(s: string)
    requires NoTagLeft(s)
    decreases |s|
    ensures NoTagLeft(CollapseSpaces(s))
  {
    if s != [] {
      if IsSpace(s[0]) {
        var k := SpaceRun(s, 0);
        SliceNoTag(s, k, |s|);
        CollapseNoTag(s[k..]);
        ConsNoTag(' ', CollapseSpaces(s[k..]));
      } else {
        SliceNoTag(s, 1, |s|);
        CollapseNoTag(s[1..]);
        if s[0] == '<' && '>' in CollapseSpaces(s[1..]) {
          CollapseChars(s[1..], '>');
        }
        ConsNoTag(s[0], CollapseSpaces(s[1..]));
      }
    }
  }

  lemma CollapseFirst(s: string)
    requires s != []
    ensures CollapseSpaces(s) != []
    ensures IsSpace(CollapseSpaces(s)[0]) <==> IsSpace(s[0])
  {
  }

  lemma {:induction false} CollapseShape(s: string)
    decreases |s|
    ensures NoDoubleSpace(CollapseSpaces(s)) && OnlyPlainSpaces(CollapseSpaces(s))
  {
    if s != [] {
      var rest := if IsSpace(s[0]) then s[SpaceRun(s, 0)..] else s[1..];
      var head := if IsSpace(s[0]) then ' ' else s[0];
      CollapseShape(rest);
      var u := CollapseSpaces(rest);
      var t := CollapseSpaces(s);
      assert t == [head] + u;
      if u != [] {
        CollapseFirst(rest);
        assert IsSpace(s[0]) ==> !IsSpace(rest[0]);
      }
      forall i | 0 <= i < |t| - 1
        ensures !(IsSpace(t[i]) && IsSpace(t[i + 1]))
      {
        if i > 0 { assert t[i] == u[i - 1] && t[i + 1] == u[i]; }
      }
      forall i | 0 <= i < |t| && IsSpace(t[i])
        ensures t[i] == ' '
      {
        if i > 0 { assert t[i] == u[i - 1]; }
      }
    }
  }

  /**
   * The HTML branch's output has no whitespace at either end, no two
   * adjacent whitespace characters, only plain spaces as whitespace, and no
   * `<` with a `>` after it.
   */
  lemma HtmlToTextClean(html: string)
    ensures var t := HtmlToText(html);
      && Trimmed(t) && NoDoubleSpace(t) && OnlyPlainSpaces(t) && NoTagLeft(t)
  {
    var c := CollapseSpaces(StripTags(html));
    StripTagsNoTag(html);
    CollapseNoTag(StripTags(html));
    CollapseShape(StripTags(html));
    var a := LeadingSpaces(c);
    var t := Trim(c);
    assert t == c[a..a + |t|];
    SliceNoTag(c, a, a + |t|);
    SliceShape(c, a, a + |t|);
  }

  /** A slice keeps the whitespace shape of the text it is cut from. */
  lemma SliceShape(c: string, a: nat, b: nat)
    requires a <= b <= |c| && NoDoubleSpace(c) && OnlyPlainSpaces(c)
    ensures NoDoubleSpace(c[a..b]) && OnlyPlainSpaces(c[a..b])
  {
    var t := c[a..b];
    forall i | 0 <= i < |t| - 1
      ensures !(IsSpace(t[i]) && IsSpace(t[i + 1]))
    {
      assert t[i] == c[a + i] && t[i + 1] == c[a + i + 1];
    }
    forall i | 0 <= i < |t| && IsSpace(t[i])
      ensures t[i] == ' '
    {
      assert t[i] == c[a + i];
    }
  }

  // -------------------------------------------------------------------- body

  /** A part the loop stops at: text/plain or text/html with body data. */
  predicate IsTextPart(p: Part) {
    (p.mimeType == "text/plain" || p.mimeType == "text/html") && p.data != ""
  }

  /** The text the loop takes from the part it stops at. */
  function PartText(p: Part, decode: string -> string): string {
    if p.mimeType == "text/plain" then decode(p.data) else HtmlToText(decode(p.data))
  }

  /**
   * `extractBody`: the payload's own body data when present (parts are then
   * ignored); otherwise the first part that is text/plain or text/html and
   * has data, the HTML one simplified to text; otherwise `''`.
   */
  method ExtractBody(message: Message, decode: string -> string) returns (body: string)
    ensures message.payload.None? ==> body == ""
    ensures message.payload.Some? && message.payload.value.bodyData != "" ==>
      body == decode(message.payload.value.bodyData)
    ensures message.payload.Some? && message.payload.value.bodyData == "" ==>
      var parts := message.payload.value.parts;
      match FindFirst(parts, IsTextPart)
      case None => body == ""
      case Some(i) => body == PartText(parts[i], decode)
  {
    body := "";
    if message.payload.Some? {
      var payload := message.payload.value;
      if payload.bodyData != "" {
        body := decode(payload.bodyData);
      } else {
        var parts := payload.parts;
        var i := 0;
        while i < |parts|
          invariant 0 <= i <= |parts|
          invariant forall j :: 0 <= j < i ==> !IsTextPart(parts[j])
          invariant body == ""
        {
          var part := parts[i];
          if part.mimeType == "text/plain" && part.data != "" {
            body := decode(part.data);
            FirstTextPartAt(parts, i);
            return;
          } else if part.mimeType == "text/html" && part.data != "" {
            var htmlBody := decode(part.data);
            body := Trim(CollapseSpaces(StripTags(htmlBody)));
            FirstTextPartAt(parts, i);
            return;
          }
          i := i + 1;
        }
        FirstTextPartNone(parts);
      }
    }
  }

  lemma FirstTextPartAt(parts: seq<Part>, i: nat)
    requires i < |parts| && IsTextPart(parts[i])
    requires forall j :: 0 <= j < i ==> !IsTextPart(parts[j])
    ensures FindFirst(parts, IsTextPart) == Some(i)
  {
  }

  lemma FirstTextPartNone(parts: seq<Part>)
    requires forall j :: 0 <= j < |parts| ==> !IsTextPart(parts[j])
    ensures FindFirst(parts, IsTextPart) == None
  {
  }

  // --------------------------------------------------------- job information

  datatype RequestType = QuoteRequest | GeneralInquiry

  datatype Urgency = High | Normal

  /** The record `extractJobInfo` returns; `confidence` is in tenths. */
  datatype JobInfo = JobInfo(
    customerName: string,
    address: string,
    phone: string,
    requestType: RequestType,
    requestedDate: string,
    urgency: Urgency,
    confidence: nat)

  const QuoteTerms: seq<string> := ["quote", "estimate", "price"]

  const UrgencyTerms: seq<string> := ["urgent", "asap", "as soon as possible", "tomorrow", "today", "emergency"]

  /** `terms.some(term => s.toLowerCase().includes(term))`, scanning the list in order. */
  function SomeIncludedCI(s: string, terms: seq<string>): (r: bool)
    decreases |terms|
    ensures r <==> exists k :: 0 <= k < |terms| && IncludesCI(s, terms[k])
  {
    if terms == [] then false
    else
      assert forall k :: 1 <= k < |terms| ==> terms[k] == terms[1..][k - 1];
      IncludesCI(s, terms[0]) || SomeIncludedCI(s, terms[1..])
  }

  /** The six `includes` tests of `isQuoteRequest`, body first. */
  predicate IsQuoteRequest(body: string, subject: string) {
    IncludesCI(body, "quote") || IncludesCI(body, "estimate") || IncludesCI(body, "price") ||
    IncludesCI(subject, "quote") || IncludesCI(subject, "estimate") || IncludesCI(subject, "price")
  }

  /** A quote request is one where some quote term occurs in the lower-cased body or subject. */
  lemma QuoteRequestIff(body: string, subject: string)
    ensures IsQuoteRequest(body, subject) <==>
      exists k :: 0 <= k < |QuoteTerms| && (IncludesCI(body, QuoteTerms[k]) || IncludesCI(subject, QuoteTerms[k]))
  {
    assert QuoteTerms[0] == "quote" && QuoteTerms[1] == "estimate" && QuoteTerms[2] == "price";
  }

  /**
   * `calculateConfidence` in tenths: 3 for a non-empty name, 4 for an
   * address, 3 for a phone, capped at 10.
   */
  function CalculateConfidence(hasName: bool, hasAddress: bool, hasPhone: bool): (r: nat)
    ensures r <= 10
    ensures r == 10 <==> hasName && hasAddress && hasPhone
    ensures r == 0 <==> !hasName && !hasAddress && !hasPhone
    ensures r == 4 <==> !hasName && hasAddress && !hasPhone
  {
    var score := (if hasName then 3 else 0) + (if hasAddress then 4 else 0) + (if hasPhone then 3 else 0);
    Min(score, 10)
  }

  /** Finding more fields never lowers the score. */
  lemma ConfidenceMonotone(n1: bool, a1: bool, p1: bool, n2: bool, a2: bool, p2: bool)
    requires (n1 ==> n2) && (a1 ==> a2) && (p1 ==> p2)
    ensures CalculateConfidence(n1, a1, p1) <= CalculateConfidence(n2, a2, p2)
  {
  }

  /**
   * The customer name: the trimmed body name capture when the name pattern
   * matches; otherwise, when `from` is non-empty, the trimmed display name of
   * the From pattern; otherwise `''`.
   */
  function CustomerName(body: string, from: string): (r: string)
    ensures Trimmed(r)
    ensures GmailPatterns.NameMatch(body).Some? ==> r == Trim(GmailPatterns.NameMatch(body).value)
    ensures GmailPatterns.NameMatch(body).None? && from == "" ==> r == ""
    ensures GmailPatterns.NameMatch(body).None? && from != "" ==>
      r == (if GmailPatterns.FromDisplayName(from).Some? then Trim(GmailPatterns.FromDisplayName(from).value) else "")
  {
    var m := GmailPatterns.NameMatch(body);
    if m.Some? then Trim(m.value)
    else if from == "" then ""
    else
      var n := GmailPatterns.FromDisplayName(from);
      if n.Some? then Trim(n.value) else ""
  }

  /** A name taken from the body is made of letters and whitespace only. */
  lemma CustomerNameChars(body: string, from: string)
    requires GmailPatterns.NameMatch(body).Some?
    ensures forall i :: 0 <= i < |CustomerName(body, from)| ==> GmailPatterns.IsNameChar(CustomerName(body, from)[i])
  {
    TrimKeeps(GmailPatterns.NameMatch(body).value, GmailPatterns.IsNameChar);
  }

  /**
   * `extractJobInfo(body, headers)`: first matches or `''` for address, phone
   * and date; quote terms searched in the body and subject, urgency terms in
   * the body only.
   */
  function ExtractJobInfo(body: string, headers: HeaderSummary): (r: JobInfo)
    ensures r.requestType == QuoteRequest <==> IsQuoteRequest(body, headers.subject)
    ensures r.urgency == High <==> exists k :: 0 <= k < |UrgencyTerms| && IncludesCI(body, UrgencyTerms[k])
    ensures r.customerName == CustomerName(body, headers.from)
    ensures r.address == GmailPatterns.AddressMatch(body).GetOr("")
    ensures r.phone == GmailPatterns.PhoneMatch(body).GetOr("")
    ensures r.requestedDate == GmailPatterns.DateMatch(body).GetOr("")
    ensures r.address != "" ==> IsDigit(r.address[0])
    ensures r.phone != "" ==> 10 <= |r.phone| <= 14
    ensures r.confidence == CalculateConfidence(r.customerName != "",
      GmailPatterns.AddressMatch(body).Some?, GmailPatterns.PhoneMatch(body).Some?)
  {
    var name := CustomerName(body, headers.from);
    var address := GmailPatterns.AddressMatch(body);
    var phone := GmailPatterns.PhoneMatch(body);
    var date := GmailPatterns.DateMatch(body);
    JobInfo(
      name,
      address.GetOr(""),
      phone.GetOr(""),
      if IsQuoteRequest(body, headers.subject) then QuoteRequest else GeneralInquiry,
      date.GetOr(""),
      if SomeIncludedCI(body, UrgencyTerms) then High else Normal,
      CalculateConfidence(name != "", address.Some?, phone.Some?))
  }

  /** The subject never affects urgency. */
  lemma UrgencyIgnoresSubject(body: string, h1: HeaderSummary, h2: HeaderSummary)
    ensures ExtractJobInfo(body, h1).urgency == ExtractJobInfo(body, h2).urgency
  {
  }

  /** A quote term anywhere in the lower-cased subject makes the email a quote request. */
  lemma QuoteFromSubject(body: string, headers: HeaderSummary, k: nat, i: nat)
    requires k < |QuoteTerms| && OccursAt(ToLower(headers.subject), QuoteTerms[k], i)
    ensures ExtractJobInfo(body, headers).requestType == QuoteRequest
  {
    IncludesIff(ToLower(headers.subject), QuoteTerms[k]);
    QuoteRequestIff(body, headers.subject);
  }

  /** The score is 10 exactly when a name, an address and a phone are all found. */
  lemma FullConfidence(body: string, headers: HeaderSummary)
    ensures ExtractJobInfo(body, headers).confidence == 10 <==>
      ExtractJobInfo(body, headers).customerName != "" &&
      ExtractJobInfo(body, headers).address != "" &&
      ExtractJobInfo(body, headers).phone != ""
  {
    var r := ExtractJobInfo(body, headers);
    var a := GmailPatterns.AddressMatch(body);
    var p := GmailPatterns.PhoneMatch(body);
    assert a.Some? <==> r.address != "" by {
      if a.Some? {
        assert |a.value| >= 3;
      }
    }
    assert p.Some? <==> r.phone != "";
  }
}
