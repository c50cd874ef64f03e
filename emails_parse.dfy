/**
 * app/api/emails/parse/route.ts: the POST handler that checks the required
 * email fields, splits the From header into a customer name and address,
 * asks a language model to analyse the email, and stores a pending job
 * request. The model call (with `JSON.parse` of its answer), the clock and
 * the database insert are parameters.
 */
module EmailsParse {
  import opened Wrappers
  import opened Text
  import opened Js

  /** No line terminator in `s[i..j]`: the span a `.` may cover. */
  predicate NoLineBreak(s: string, i: nat, j: nat) {
    forall k :: i <= k < j && k < |s| ==> !IsLineTerminator(s[k])
  }

  // ------------------------------------------------------------- the name
  // /^(.*?)\s*<.*>$/

  /**
   * The name pattern succeeds with the lazy group ending at `l`: the spaces
   * after it lead to a `<`, and `.*>$` then needs the last character to be
   * `>` with no line break between.
   */
  predicate NameEndsAt(s: string, l: nat) {
    var g := l + SpaceRun(s, l);
    l <= |s| && NoLineBreak(s, 0, l) && g + 1 < |s| && s[g] == '<' && s[|s| - 1] == '>' &&
    NoLineBreak(s, g + 1, |s| - 1)
  }

  /** Group 1 of the name pattern: the lazy group takes the shortest prefix that works. */
  function NameMatch(s: string): (r: Option<string>)
    ensures r.None? <==> forall l: nat :: l <= |s| ==> !NameEndsAt(s, l)
    ensures r.Some? ==> exists l: nat :: (l <= |s| && NameEndsAt(s, l) && r.value == s[..l] &&
      forall k: nat :: k < l ==> !NameEndsAt(s, k))
    ensures r.Some? ==> |s| >= 2 && s[|s| - 1] == '>'
  {
    var at := (l: nat) => if NameEndsAt(s, l) then Some(l) else None;
    var m := FirstMatch(at, 0, |s|);
    assert forall l: nat :: at(l).Some? <==> NameEndsAt(s, l);
    if m.Some? then
      assert NameEndsAt(s, m.value.0);
      Some(s[..m.value.0])
    else None
  }

  /** `nameMatch ? nameMatch[1].trim() : 'Unknown'`. */
  function CustomerName(from: string): string {
    match NameMatch(from)
    case Some(c) => Trim(c)
    case None => "Unknown"
  }

  // ------------------------------------------------------------ the address
  // /<(.+?)>/

  /** The lazy `(.+?)>` after a `<` at `p` can close at `e`. */
  predicate ClosesAt(s: string, p: nat, e: nat) {
    p + 2 <= e < |s| && s[e] == '>' && NoLineBreak(s, p + 1, e)
  }

  /** The pattern at `p`: the text up to the first `>` that closes it. */
  function AngleAt(s: string, p: nat): (r: Option<string>)
    ensures r.Some? ==> p < |s| && s[p] == '<'
    ensures r.Some? ==> exists e: nat :: (ClosesAt(s, p, e) && r.value == s[p + 1..e] &&
      forall k: nat :: k < e ==> !ClosesAt(s, p, k))
    ensures r.None? && p < |s| && s[p] == '<' ==> forall e: nat :: !ClosesAt(s, p, e)
  {
    if !(p < |s| && s[p] == '<') then None
    else
      var at := (e: nat) => if ClosesAt(s, p, e) then Some(e) else None;
      var m := FirstMatch(at, 0, |s|);
      assert forall e: nat :: at(e).Some? <==> ClosesAt(s, p, e);
      if m.Some? then
        assert ClosesAt(s, p, m.value.0);
        Some(s[p + 1..m.value.0])
      else None
  }

  /** Group 1 of the leftmost match of the address pattern. */
  function AngleMatch(s: string): (r: Option<string>)
    ensures r.None? <==> forall p: nat :: p <= |s| ==> AngleAt(s, p).None?
    ensures r.Some? ==> exists p: nat :: p <= |s| && AngleAt(s, p) == r && forall q: nat :: q < p ==> AngleAt(s, q).None?
  {
    var at := p => AngleAt(s, p);
    assert forall q: nat :: at(q) == AngleAt(s, q);
    LeftmostMatch(at, |s|)
  }

  /** `emailMatch ? emailMatch[1].trim() : from.trim()`. */
  function CustomerEmail(from: string): string {
    match AngleMatch(from)
    case Some(c) => Trim(c)
    case None => Trim(from)
  }

  /** Without any `<...>` on one line the address is the whole trimmed From. */
  lemma NoAngleWholeFrom(from: string)
    requires '<' !in from
    ensures CustomerEmail(from) == Trim(from)
  {
    assert forall p: nat :: p <= |from| ==> AngleAt(from, p).None?;
  }

  /**
   * The address is the text between the first `<` and the next `>`, trimmed,
   * whenever that text is on one line and holds no `>`.
   */
  lemma AddressBetweenAngles(pre: string, a: string, post: string)
    requires '<' !in pre && '>' !in a && a != [] && NoLineBreak(a, 0, |a|)
    ensures CustomerEmail(pre + "<" + a + ">" + post) == Trim(a)
  {
    var s := pre + "<" + a + ">" + post;
    var g := |pre|;
    var e := g + 1 + |a|;
    assert s[g] == '<' && s[e] == '>';
    assert s[g + 1..e] == a;
    forall q: nat | q < g
      ensures AngleAt(s, q).None?
    {
      assert s[q] == pre[q];
    }
    assert ClosesAt(s, g, e) by {
      forall k | g + 1 <= k < e ensures !IsLineTerminator(s[k]) {
        assert s[k] == a[k - g - 1];
      }
    }
    forall k: nat | k < e
      ensures !ClosesAt(s, g, k)
    {
      if g + 2 <= k {
        assert s[k] == a[k - g - 1];
      }
    }
    AngleAtClose(s, g, e);
    AngleMatchAt(s, g);
  }

  /** The least closing `>` is the one `AngleAt` takes. */
  lemma AngleAtClose(s: string, p: nat, e: nat)
    requires p < |s| && s[p] == '<' && ClosesAt(s, p, e)
    requires forall k: nat :: k < e ==> !ClosesAt(s, p, k)
    ensures AngleAt(s, p) == Some(s[p + 1..e])
  {
  }

  /** The leftmost position where the pattern matches gives the match. */
  lemma AngleMatchAt(s: string, p: nat)
    requires p <= |s| && AngleAt(s, p).Some?
    requires forall q: nat :: q < p ==> AngleAt(s, q).None?
    ensures AngleMatch(s) == AngleAt(s, p)
  {
  }

  /** The least end that works is the one `NameMatch` takes. */
  lemma NameMatchAt(s: string, l: nat)
    requires l <= |s| && NameEndsAt(s, l)
    requires forall k: nat :: k < l ==> !NameEndsAt(s, k)
    ensures NameMatch(s) == Some(s[..l])
  {
    var m := NameMatch(s);
    var l': nat :| l' <= |s| && NameEndsAt(s, l') && m.value == s[..l'] && forall k: nat :: k < l' ==> !NameEndsAt(s, k);
    assert l' == l;
  }

  /** The spaces `w` before the `<` form the whole space run after the name `n`. */
  lemma SpacesBeforeAngle(n: string, w: string, rest: string)
    requires forall i :: 0 <= i < |w| ==> IsSpace(w[i])
    requires rest != [] && rest[0] == '<'
    ensures SpaceRun(n + w + rest, |n|) == |w|
  {
    var s := n + w + rest;
    var r := SpaceRun(s, |n|);
    assert s[|n| + |w|] == '<';
  }

  /** No shorter group works: the space run from inside the name stops at a name character. */
  lemma NoShorterName(n: string, rest: string, l: nat)
    requires n != [] ==> !IsSpace(n[|n| - 1])
    requires '<' !in n
    requires l < |n|
    ensures !NameEndsAt(n + rest, l)
  {
    var s := n + rest;
    var r := SpaceRun(s, l);
    assert s[|n| - 1] == n[|n| - 1];
    assert s[l + r] == n[l + r];
  }

  /**
   * For `Name <address>`, with spaces before the `<`, the name is the text
   * before those spaces and the address the text inside the brackets.
   */
  lemma DisplayNameForm(n: string, w: string, a: string)
    requires n != [] ==> !IsSpace(n[|n| - 1])
    requires '<' !in n && NoLineBreak(n, 0, |n|)
    requires forall i :: 0 <= i < |w| ==> IsSpace(w[i])
    requires '>' !in a && a != [] && NoLineBreak(a, 0, |a|)
    ensures CustomerName(n + w + "<" + a + ">") == Trim(n)
    ensures CustomerEmail(n + w + "<" + a + ">") == Trim(a)
  {
    var s := n + w + "<" + a + ">";
    NameAfterName(n, w, a);
    assert s == n + (w + "<" + a + ">");
    NameOfDisplayForm(n, w + "<" + a + ">", s);
    DisplayAddress(n, w, a);
  }

  lemma DisplayAddress(n: string, w: string, a: string)
    requires '<' !in n
    requires forall i :: 0 <= i < |w| ==> IsSpace(w[i])
    requires '>' !in a && a != [] && NoLineBreak(a, 0, |a|)
    ensures CustomerEmail(n + w + "<" + a + ">") == Trim(a)
  {
    var pre := n + w;
    assert '<' !in pre by {
      forall i | 0 <= i < |pre| ensures pre[i] != '<' {
        if i >= |n| {
          assert pre[i] == w[i - |n|];
        } else {
          assert pre[i] == n[i];
        }
      }
    }
    assert n + w + "<" + a + ">" == pre + "<" + a + ">" + [];
    AddressBetweenAngles(pre, a, []);
  }

  lemma NameOfDisplayForm(n: string, rest: string, s: string)
    requires s == n + rest
    requires n != [] ==> !IsSpace(n[|n| - 1])
    requires '<' !in n
    requires NameEndsAt(s, |n|)
    ensures NameMatch(s) == Some(n)
  {
    forall l: nat | l < |n|
      ensures !NameEndsAt(s, l)
    {
      NoShorterName(n, rest, l);
    }
    NameMatchAt(s, |n|);
    assert s[..|n|] == n;
  }

  lemma NameAfterName(n: string, w: string, a: string)
    requires NoLineBreak(n, 0, |n|)
    requires forall i :: 0 <= i < |w| ==> IsSpace(w[i])
    requires NoLineBreak(a, 0, |a|)
    ensures NameEndsAt(n + w + "<" + a + ">", |n|)
  {
    var s := n + w + "<" + a + ">";
    assert s == n + w + ("<" + a + ">");
    SpacesBeforeAngle(n, w, "<" + a + ">");
    var g := |n| + |w|;
    assert s[g] == '<' && s[|s| - 1] == '>';
    forall k | 0 <= k < |n| ensures !IsLineTerminator(s[k]) { assert s[k] == n[k]; }
    forall k | g + 1 <= k < |s| - 1 ensures !IsLineTerminator(s[k]) { assert s[k] == a[k - g - 1]; }
  }

  /**
   * The name pattern is anchored at the end: anything after the closing `>`
   * (that does not itself end in `>`) gives the name 'Unknown', while the
   * address is still found.
   */
  lemma TrailingTextAfterAddress(n: string, a: string, x: string)
    requires '<' !in n && '>' !in a && a != [] && NoLineBreak(a, 0, |a|)
    requires x != [] && x[|x| - 1] != '>'
    ensures CustomerName(n + "<" + a + ">" + x) == "Unknown"
    ensures CustomerEmail(n + "<" + a + ">" + x) == Trim(a)
  {
    var s := n + "<" + a + ">" + x;
    AddressBetweenAngles(n, a, x);
    assert s[|s| - 1] == x[|x| - 1];
    UnknownWithoutClosing(s);
  }

  /** A From header that does not end in `>` never matches the name pattern. */
  lemma UnknownWithoutClosing(s: string)
    requires s != [] && s[|s| - 1] != '>'
    ensures CustomerName(s) == "Unknown"
  {
  }

  // ------------------------------------------------------------------ POST

  const MissingFields := "Missing required email information"
  const ParseFailed := "Failed to parse email"
  const SaveFailed := "Failed to save job request"

  /** The `job_requests` row the handler inserts. */
  datatype JobRequestRow = JobRequestRow(
    emailId: Json,
    customerName: string,
    customerEmail: string,
    serviceType: Option<Json>,
    address: Option<Json>,
    requestedDate: Option<Json>,
    specialInstructions: Option<Json>,
    estimatedSize: Option<Json>,
    confidenceScore: Option<Json>,
    status: string,
    emailSubject: Json,
    emailBody: Json,
    createdAt: string)

  datatype InsertOutcome = Inserted(rows: seq<Json>) | InsertFailed

  /** The success body: the first stored row (absent when none came back) and the analysis. */
  datatype Saved = Saved(jobRequest: Option<Json>, analysis: Json)

  /** `analysisResult.key` for a non-null analysis. */
  function Field(analysis: Json, key: string): Option<Json> {
    ReadValue(Get(analysis, key))
  }

  /** The row to insert: the From split, the analysis fields as read, status 'pending'. */
  function RowFor(emailId: Json, subject: Json, from: string, body: Json, analysis: Json, now: string): (r: JobRequestRow)
    ensures r.status == "pending"
    ensures r.confidenceScore == Field(analysis, "confidence")
    ensures r.customerName == CustomerName(from) && r.customerEmail == CustomerEmail(from)
    ensures r.emailId == emailId && r.emailSubject == subject && r.emailBody == body && r.createdAt == now
  {
    JobRequestRow(emailId, CustomerName(from), CustomerEmail(from),
      Field(analysis, "service"), Field(analysis, "address"), Field(analysis, "dateRequested"),
      Field(analysis, "specialInstructions"), Field(analysis, "estimatedSize"),
      Field(analysis, "confidence"), "pending", subject, body, now)
  }

  /** `emailId`, `subject`, `from` and `body` of a non-null request body are all truthy. */
  predicate AllGiven(v: Json) {
    Truthy(Field(v, "emailId")) && Truthy(Field(v, "subject")) && Truthy(Field(v, "from")) &&
    Truthy(Field(v, "body"))
  }

  /**
   * POST: `request` is the parsed body (`None` when `request.json()`
   * throws), `analyze` gives the parsed model answer for the subject and
   * body (`None` when the call or `JSON.parse` throws), `now` is the
   * creation time and `insert` the outcome of the insert.
   */
  function Post(request: Option<Json>, analyze: (Json, Json) -> Option<Json>, now: string,
                insert: JobRequestRow -> InsertOutcome): (r: Reply<Saved>)
    ensures request.None? || request.value.JNull? ==> r == Err(500, ParseFailed)
    ensures request.Some? && !request.value.JNull? && !AllGiven(request.value) ==> r == Err(400, MissingFields)
    ensures request.Some? && !request.value.JNull? && AllGiven(request.value) && !Field(request.value, "from").value.JStr? ==>
      r == Err(500, ParseFailed)
    ensures request.Some? && !request.value.JNull? && AllGiven(request.value) && Field(request.value, "from").value.JStr? ==>
      var v := request.value;
      var analysis := analyze(Field(v, "subject").value, Field(v, "body").value);
      (analysis.None? || analysis.value.JNull? ==> r == Err(500, ParseFailed)) &&
      (analysis.Some? && !analysis.value.JNull? ==>
        var row := RowFor(Field(v, "emailId").value, Field(v, "subject").value, Field(v, "from").value.s,
                          Field(v, "body").value, analysis.value, now);
        (insert(row).InsertFailed? ==> r == Err(500, SaveFailed)) &&
        (insert(row).Inserted? ==>
          r == Ok(Saved(if |insert(row).rows| > 0 then Some(insert(row).rows[0]) else None, analysis.value))))
    ensures r.Ok? ==> request.Some? && !request.value.JNull? && AllGiven(request.value)
    ensures r.Ok? ==>
      var v := request.value;
      var analysis := analyze(Field(v, "subject").value, Field(v, "body").value);
      Field(v, "from").value.JStr? && analysis.Some? && !analysis.value.JNull? &&
      r.body.analysis == analysis.value &&
      var row := RowFor(Field(v, "emailId").value, Field(v, "subject").value, Field(v, "from").value.s,
                        Field(v, "body").value, analysis.value, now);
      insert(row).Inserted? && r.body.jobRequest == (if |insert(row).rows| > 0 then Some(insert(row).rows[0]) else None)
    ensures r.Err? ==> r.status == 400 || r.status == 500
  {
    if request.None? || request.value.JNull? then Err(500, ParseFailed)
    else
      var v := request.value;
      if !AllGiven(v) then Err(400, MissingFields)
      else
        var from := Field(v, "from").value;
        if !from.JStr? then Err(500, ParseFailed)
        else
          var subject := Field(v, "subject").value;
          var body := Field(v, "body").value;
          match analyze(subject, body)
          case None => Err(500, ParseFailed)
          case Some(analysis) =>
            if analysis.JNull? then Err(500, ParseFailed)
            else
              var row := RowFor(Field(v, "emailId").value, subject, from.s, body, analysis, now);
              match insert(row)
              case InsertFailed => Err(500, SaveFailed)
              case Inserted(rows) => Ok(Saved(if |rows| > 0 then Some(rows[0]) else None, analysis))
  }
}
