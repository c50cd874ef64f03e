/**
 * app/api/emails/route.ts: the GET handler that lists inbox messages with
 * their headers, snippet and body, and `decodeBase64`, which first rewrites
 * the URL-safe base64 alphabet (section 5 of RFC 4648) into the standard one
 * (section 4). The Gmail calls are parameters and `decode` is the standard
 * base64 decoder.
 */
module Emails {
  import opened Wrappers
  import opened MailMessage
  import Js

  const FetchFailed := "Failed to fetch emails"

  /** `s.replace(/c/g, d)` for a single character `c`. */
  function ReplaceChar(s: string, c: char, d: char): (r: string)
    decreases |s|
    ensures |r| == |s|
    ensures forall i :: 0 <= i < |s| ==> r[i] == (if s[i] == c then d else s[i])
  {
    if s == [] then []
    else [if s[0] == c then d else s[0]] + ReplaceChar(s[1..], c, d)
  }

  /** The alphabet rewrite inside `decodeBase64`: `-` becomes `+`, then `_` becomes `/`. */
  function Translate(data: string): string {
    ReplaceChar(ReplaceChar(data, '-', '+'), '_', '/')
  }

  /** Each character is mapped on its own; the length is kept and no `-` or `_` is left. */
  lemma TranslateChars(data: string)
    ensures |Translate(data)| == |data|
    ensures forall i :: 0 <= i < |data| && data[i] == '-' ==> Translate(data)[i] == '+'
    ensures forall i :: 0 <= i < |data| && data[i] == '_' ==> Translate(data)[i] == '/'
    ensures forall i :: 0 <= i < |data| && data[i] != '-' && data[i] != '_' ==> Translate(data)[i] == data[i]
    ensures '-' !in Translate(data) && '_' !in Translate(data)
  {
    var t := Translate(data);
    forall i | 0 <= i < |t|
      ensures t[i] != '-' && t[i] != '_'
    {
      assert ReplaceChar(data, '-', '+')[i] == (if data[i] == '-' then '+' else data[i]);
    }
  }

  /** Rewriting twice is rewriting once. */
  lemma TranslateIdempotent(data: string)
    ensures Translate(Translate(data)) == Translate(data)
  {
    TranslateChars(data);
    TranslateChars(Translate(data));
  }

  /** Standard-alphabet text passes through unchanged. */
  lemma TranslateStandard(data: string)
    requires '-' !in data && '_' !in data
    ensures Translate(data) == data
  {
    TranslateChars(data);
  }

  function DecodeBase64(data: string, decode: string -> string): string {
    decode(Translate(data))
  }

  predicate IsTextType(p: Part) { p.mimeType == "text/plain" || p.mimeType == "text/html" }

  /**
   * The body: the payload's own body data when present; otherwise the data
   * of the first text/plain or text/html part (`textParts[0]`) when it has
   * any; otherwise `''`.
   */
  function BodyOf(payload: Option<Payload>, decode: string -> string): (r: string)
    ensures payload.Some? && payload.value.bodyData != "" ==> r == DecodeBase64(payload.value.bodyData, decode)
  {
    if payload.None? then ""
    else if payload.value.bodyData != "" then DecodeBase64(payload.value.bodyData, decode)
    else match FindFirst(payload.value.parts, IsTextType)
      case Some(i) => if payload.value.parts[i].data != "" then DecodeBase64(payload.value.parts[i].data, decode) else ""
      case None => ""
  }

  /** Only the first text part is considered: if it has no data the body is `''`, whatever later parts hold. */
  lemma FirstTextPartOnly(h: seq<Header>, parts: seq<Part>, i: nat, decode: string -> string)
    requires i < |parts| && IsTextType(parts[i]) && parts[i].data == ""
    requires forall j :: 0 <= j < i ==> !IsTextType(parts[j])
    ensures BodyOf(Some(Payload(h, "", parts)), decode) == ""
  {
    FindFirstIs(parts, IsTextType, i);
  }

  lemma FirstTextPartUsed(h: seq<Header>, parts: seq<Part>, i: nat, decode: string -> string)
    requires i < |parts| && IsTextType(parts[i]) && parts[i].data != ""
    requires forall j :: 0 <= j < i ==> !IsTextType(parts[j])
    ensures BodyOf(Some(Payload(h, "", parts)), decode) == DecodeBase64(parts[i].data, decode)
  {
    FindFirstIs(parts, IsTextType, i);
  }

  datatype ListedEmail = ListedEmail(id: string, subject: string, from: string, date: string, body: string, snippet: string)

  /** One entry: header defaults 'No Subject', 'Unknown' and `''`; the snippet defaults to `''`. */
  function EntryOf(id: string, m: Message, decode: string -> string): (r: ListedEmail)
    ensures r.id == id && r.snippet == m.snippet && r.body == BodyOf(m.payload, decode)
    ensures r.subject == HeaderOr(HeadersOf(m), "Subject", "No Subject")
    ensures r.from == HeaderOr(HeadersOf(m), "From", "Unknown")
    ensures r.date == HeaderOr(HeadersOf(m), "Date", "")
  {
    var hs := HeadersOf(m);
    ListedEmail(id, HeaderOr(hs, "Subject", "No Subject"), HeaderOr(hs, "From", "Unknown"),
      HeaderOr(hs, "Date", ""), BodyOf(m.payload, decode), m.snippet)
  }

  /**
   * GET: one entry per listed message, in list order; the first thrown
   * error ends the handler with a 500 and that error's message, or the
   * default when it has none.
   */
  method ListEmails(list: Result<seq<string>, Js.Thrown>, get: string -> Result<Message, Js.Thrown>,
                    decode: string -> string) returns (r: Js.Reply<seq<ListedEmail>>)
    ensures list.Failure? ==> r == Js.Err(500, Js.MessageOr(list.error, FetchFailed))
    ensures list.Success? ==>
      var ids := list.value;
      (forall i :: 0 <= i < |ids| ==> get(ids[i]).Success?) ==>
        (r.Ok? && |r.body| == |ids| && forall i :: 0 <= i < |ids| ==> r.body[i] == EntryOf(ids[i], get(ids[i]).value, decode))
    ensures list.Success? ==>
      var ids := list.value;
      forall i :: 0 <= i < |ids| && get(ids[i]).Failure? && (forall j :: 0 <= j < i ==> get(ids[j]).Success?) ==>
        r == Js.Err(500, Js.MessageOr(get(ids[i]).error, FetchFailed))
  {
    if list.Failure? {
      return Js.Err(500, Js.MessageOr(list.error, FetchFailed));
    }
    var ids := list.value;
    var emails: seq<ListedEmail> := [];
    var i := 0;
    while i < |ids|
      invariant 0 <= i <= |ids|
      invariant forall j :: 0 <= j < i ==> get(ids[j]).Success?
      invariant |emails| == i
      invariant forall j :: 0 <= j < i ==> emails[j] == EntryOf(ids[j], get(ids[j]).value, decode)
    {
      var emailData := get(ids[i]);
      if emailData.Failure? {
        assert !(forall k :: 0 <= k < |ids| ==> get(ids[k]).Success?);
        assert forall k :: 0 <= k < |ids| && get(ids[k]).Failure? && (forall j :: 0 <= j < k ==> get(ids[j]).Success?) ==> k == i;
        return Js.Err(500, Js.MessageOr(emailData.error, FetchFailed));
      }
      var entry := ListedEntry(ids[i], emailData.value, decode);
      emails := emails + [entry];
      i := i + 1;
    }
    r := Js.Ok(emails);
  }

  /** One entry of the loop: headers with their defaults, the body and the snippet. */
  method ListedEntry(id: string, m: Message, decode: string -> string) returns (entry: ListedEmail)
    ensures entry == EntryOf(id, m, decode)
  {
    var hs := HeadersOf(m);
    var body := ExtractBody(m.payload, decode);
    entry := ListedEmail(id, HeaderOr(hs, "Subject", "No Subject"), HeaderOr(hs, "From", "Unknown"),
      HeaderOr(hs, "Date", ""), body, m.snippet);
  }

  /**
   * The body step of the loop: the payload's own body data when present,
   * else the first text/plain or text/html part's data, decoded; `''`
   * otherwise.
   */
  method ExtractBody(payload: Option<Payload>, decode: string -> string) returns (body: string)
    ensures body == BodyOf(payload, decode)
  {
    body := "";
    if payload.Some? && payload.value.bodyData != "" {
      body := DecodeBase64(payload.value.bodyData, decode);
    } else if payload.Some? {
      var textParts := FindFirst(payload.value.parts, IsTextType);
      if textParts.Some? && payload.value.parts[textParts.value].data != "" {
        body := DecodeBase64(payload.value.parts[textParts.value].data, decode);
      }
    }
  }
}
