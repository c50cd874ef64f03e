/**
 * The Gmail API message resource as the route handlers read it: headers,
 * the payload's own base64 body data and its top-level parts. An absent
 * header name or value, part MIME type or body data is the empty string, and
 * absent `headers` or `parts` lists are empty: every copy of the code treats
 * the absent and the empty form alike.
 */
module MailMessage {
  import opened Wrappers

  datatype Header = Header(name: string, value: string)

  /** A top-level MIME part: its type and its base64 body data. */
  datatype Part = Part(mimeType: string, data: string)

  datatype Payload = Payload(headers: seq<Header>, bodyData: string, parts: seq<Part>)

  datatype Message = Message(id: string, snippet: string, payload: Option<Payload>)

  /** `message.payload?.headers || []`. */
  function HeadersOf(m: Message): seq<Header> {
    if m.payload.Some? then m.payload.value.headers else []
  }

  /** `xs.findIndex(ok)` as an option: the first index whose element satisfies `ok`. */
  function FindFirst<T>(xs: seq<T>, ok: T -> bool): (r: Option<nat>)
    decreases |xs|
    ensures r.Some? ==> r.value < |xs| && ok(xs[r.value])
    ensures r.Some? ==> forall j :: 0 <= j < r.value ==> !ok(xs[j])
    ensures r.None? ==> forall j :: 0 <= j < |xs| ==> !ok(xs[j])
  {
    if xs == [] then None
    else if ok(xs[0]) then Some(0)
    else
      var k := FindFirst(xs[1..], ok);
      if k.Some? then Some(k.value + 1) else None
  }

  /** An index that satisfies `ok` with none before it is the one `FindFirst` finds. */
  lemma FindFirstIs<T>(xs: seq<T>, ok: T -> bool, i: nat)
    requires i < |xs| && ok(xs[i]) && forall j :: 0 <= j < i ==> !ok(xs[j])
    ensures FindFirst(xs, ok) == Some(i)
  {
  }

  /** `headers.find(h => h.name === name)?.value || default`: exact-case name, first entry wins. */
  function HeaderOr(hs: seq<Header>, name: string, default: string): (r: string)
    ensures r == default || exists i :: 0 <= i < |hs| && hs[i].name == name && r == hs[i].value
  {
    match FindFirst(hs, (h: Header) => h.name == name)
    case Some(i) => if hs[i].value != "" then hs[i].value else default
    case None => default
  }

  lemma HeaderOrFirst(hs: seq<Header>, name: string, default: string, i: nat)
    requires i < |hs| && hs[i].name == name
    requires forall j :: 0 <= j < i ==> hs[j].name != name
    ensures HeaderOr(hs, name, default) == if hs[i].value != "" then hs[i].value else default
  {
  }

  lemma HeaderOrAbsent(hs: seq<Header>, name: string, default: string)
    requires forall j :: 0 <= j < |hs| ==> hs[j].name != name
    ensures HeaderOr(hs, name, default) == default
  {
  }
}
