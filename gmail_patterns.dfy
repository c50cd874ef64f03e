/**
 * The five regular expressions of `extractJobInfo` (app/utils/gmail.ts), each
 * as a scanner that returns what the JavaScript engine returns: the leftmost
 * match, and at that position the first alternative in backtracking order.
 * Where a quantifier is followed by a disjoint class, greedy matching can only
 * succeed with the maximal run, and the scanner takes that run directly.
 */
module GmailPatterns {
  import opened Wrappers
  import opened Text

  // ------------------------------------------------------------------ name
  // /(?:my name is|from)\s+([A-Za-z\s]{2,30})/i

  predicate IsNameChar(c: char) { IsLetter(c) || IsSpace(c) }

  /**
   * `\s+([A-Za-z\s]{2,30})` at `x`. The capture class includes whitespace, so
   * `\s+` gives back spaces when fewer than two class characters follow it:
   * it keeps the most spaces `t` that leave two, and the capture takes up to
   * 30 class characters after them.
   */
  function NameAfterKeyword(s: string, x: nat): (r: Option<string>)
    ensures r.Some? ==> 2 <= |r.value| <= 30
    ensures r.Some? ==> forall i :: 0 <= i < |r.value| ==> IsNameChar(r.value[i])
  {
    var k := SpaceRun(s, x);
    var m := Run(s, x, IsNameChar);
    RunWider(s, x, IsSpace, IsNameChar);
    var t: int := if m - k >= 2 then k else m - 2;
    if k == 0 || t < 1 then None
    else
      var c := s[x + t..x + t + Min(30, m - t)];
      assert forall i :: 0 <= i < |c| ==> c[i] == s[x + t + i];
      Some(c)
  }

  function NameAt(s: string, p: nat): (r: Option<string>)
    ensures r.Some? ==> 2 <= |r.value| <= 30 && forall i :: 0 <= i < |r.value| ==> IsNameChar(r.value[i])
  {
    KeywordThen(s, p, ["my name is", "from"], x => NameAfterKeyword(s, x))
  }

  /** Capture group 1 of `body.match(namePattern)`. */
  function NameMatch(s: string): (r: Option<string>)
    ensures r.Some? ==> exists p: nat :: p <= |s| && NameAt(s, p) == r && forall q: nat :: q < p ==> NameAt(s, q).None?
    ensures r.None? ==> forall p: nat :: p <= |s| ==> NameAt(s, p).None?
    ensures r.Some? ==> 2 <= |r.value| <= 30 && forall i :: 0 <= i < |r.value| ==> IsNameChar(r.value[i])
  {
    var at := p => NameAt(s, p);
    var m := FirstMatch(at, 0, |s|);
    assert forall q: nat :: at(q) == NameAt(s, q);
    if m.Some? then
      assert NameAt(s, m.value.0) == Some(m.value.1);
      Some(m.value.1)
    else None
  }

  // ------------------------------------------------------------------ date
  // /(?:on|for|by|date)\s+([A-Za-z]+\s+\d{1,2}(?:st|nd|rd|th)?(?:,?\s+\d{4})?)/i

  predicate OrdinalAt(s: string, e: nat) {
    MatchesCI(s, e, "st") || MatchesCI(s, e, "nd") || MatchesCI(s, e, "rd") || MatchesCI(s, e, "th")
  }

  /** `\s+\d{4}` at `c`: where the four year digits end. */
  function YearAt(s: string, c: nat): Option<nat> {
    var w := SpaceRun(s, c);
    if w >= 1 && DigitsAt(s, c + w, 4) then Some(c + w + 4) else None
  }

  /** `(?:,?\s+\d{4})?` at `e`: the comma is tried first; the group is empty when neither way matches. */
  function YearGroupEnd(s: string, e: nat): (r: nat)
    requires e <= |s|
    ensures e <= r <= |s|
  {
    if e < |s| && s[e] == ',' && YearAt(s, e + 1).Some? then YearAt(s, e + 1).value
    else if YearAt(s, e).Some? then YearAt(s, e).value
    else e
  }

  /** `\s+([A-Za-z]+\s+\d{1,2}(?:st|nd|rd|th)?(?:,?\s+\d{4})?)` at `x`. */
  function DateAfterKeyword(s: string, x: nat): (r: Option<string>)
    ensures r.Some? ==> |r.value| >= 3 && IsLetter(r.value[0])
  {
    var k := SpaceRun(s, x);
    if k == 0 then None
    else match DateEnd(s, x + k)
      case Some(e) =>
        var c := s[x + k..e];
        assert c[0] == s[x + k];
        Some(c)
      case None => None
  }

  /** Where the capture `[A-Za-z]+\s+\d{1,2}(?:st|nd|rd|th)?(?:,?\s+\d{4})?` starting at `y` ends. */
  function DateEnd(s: string, y: nat): (r: Option<nat>)
    ensures r.Some? ==> y + 3 <= r.value <= |s| && IsLetter(s[y])
  {
    var letters := Run(s, y, IsLetter);
    var z := y + letters;
    var w := SpaceRun(s, z);
    var d0 := z + w;
    var digits := Run(s, d0, IsDigit);
    if letters == 0 || w == 0 || digits == 0 then None
    else
      var e := d0 + Min(digits, 2);
      var e2 := if OrdinalAt(s, e) then e + 2 else e;
      Some(YearGroupEnd(s, e2))
  }

  function DateAt(s: string, p: nat): Option<string> {
    KeywordThen(s, p, ["on", "for", "by", "date"], x => DateAfterKeyword(s, x))
  }

  /** Capture group 1 of `body.match(datePattern)`. */
  function DateMatch(s: string): (r: Option<string>)
    ensures r.Some? ==> exists p: nat :: p <= |s| && DateAt(s, p) == r && forall q: nat :: q < p ==> DateAt(s, q).None?
    ensures r.None? ==> forall p: nat :: p <= |s| ==> DateAt(s, p).None?
  {
    var at := p => DateAt(s, p);
    assert forall q: nat :: at(q) == DateAt(s, q);
    LeftmostMatch(at, |s|)
  }

  // ----------------------------------------------------------------- phone
  // /\(?\d{3}\)?[-.\s]?\d{3}[-.\s]?\d{4}/g

  predicate IsPhoneSep(c: char) { c == '-' || c == '.' || IsSpace(c) }

  /**
   * The phone pattern at `p`. Each optional character is taken when present:
   * leaving it out would leave a non-digit where a digit is required.
   */
  function PhoneAt(s: string, p: nat): (r: Option<string>)
    ensures r.Some? ==> 10 <= |r.value| <= 14
    ensures r.Some? ==> forall i :: |r.value| - 4 <= i < |r.value| ==> IsDigit(r.value[i])
  {
    var a := if p < |s| && s[p] == '(' then p + 1 else p;
    var b := a + 3;
    var b1 := if DigitsAt(s, a, 3) && b < |s| && s[b] == ')' then b + 1 else b;
    var c := if b1 < |s| && IsPhoneSep(s[b1]) then b1 + 1 else b1;
    var d := c + 3;
    var d1 := if DigitsAt(s, c, 3) && d < |s| && IsPhoneSep(s[d]) then d + 1 else d;
    if DigitsAt(s, a, 3) && DigitsAt(s, c, 3) && DigitsAt(s, d1, 4) then
      var t := s[p..d1 + 4];
      assert forall i :: |t| - 4 <= i < |t| ==> t[i] == s[p + i];
      Some(t)
    else None
  }

  /** `phones[0]` of `body.match(phonePattern) || []`. */
  function PhoneMatch(s: string): (r: Option<string>)
    ensures r.Some? ==> exists p: nat :: p <= |s| && PhoneAt(s, p) == r && forall q: nat :: q < p ==> PhoneAt(s, q).None?
    ensures r.None? ==> forall p: nat :: p <= |s| ==> PhoneAt(s, p).None?
  {
    var at := p => PhoneAt(s, p);
    assert forall q: nat :: at(q) == PhoneAt(s, q);
    LeftmostMatch(at, |s|)
  }

  // --------------------------------------------------------------- address
  // /\b\d+\s+[A-Za-z0-9\s,\.]+(?:Road|Rd|Street|St|...|Way)\b/gi

  predicate IsAddressChar(c: char) {
    IsLetter(c) || IsDigit(c) || IsSpace(c) || c == ',' || c == '.'
  }

  /** The street suffixes in the order of the alternation, lower-cased for the `/i` comparison. */
  const StreetSuffixes: seq<string> := [
    "road", "rd", "street", "st", "avenue", "ave", "lane", "ln", "drive", "dr",
    "boulevard", "blvd", "highway", "hwy", "court", "ct", "circle", "cir",
    "place", "pl", "terrace", "ter", "way"]

  /** `\b` just after a word character at `e - 1`. */
  predicate BoundaryAfterWord(s: string, e: nat) {
    e >= |s| || !IsWordChar(s[e])
  }

  /** The first suffix of `sufs` at `q` that is followed by a word boundary: its length. */
  function SuffixAt(s: string, q: nat, sufs: seq<string>): (r: Option<nat>)
    decreases |sufs|
    ensures r.Some? ==> exists k :: 0 <= k < |sufs| && r.value == |sufs[k]| && MatchesCI(s, q, sufs[k])
    ensures r.Some? ==> q + r.value <= |s| && BoundaryAfterWord(s, q + r.value)
  {
    if sufs == [] then None
    else if MatchesCI(s, q, sufs[0]) && BoundaryAfterWord(s, q + |sufs[0]|) then Some(|sufs[0]|)
    else
      var r := SuffixAt(s, q, sufs[1..]);
      assert forall k :: 1 <= k < |sufs| ==> sufs[k] == sufs[1..][k - 1];
      r
  }

  /**
   * The last position in `lo..hi` where a street suffix matches: the class run
   * is greedy, so the engine backs off from its end one character at a time.
   */
  function LastSuffix(s: string, lo: nat, hi: nat, sufs: seq<string>): (r: Option<(nat, nat)>)
    ensures r.Some? ==> lo <= r.value.0 <= hi && SuffixAt(s, r.value.0, sufs) == Some(r.value.1)
    ensures r.Some? ==> forall q :: r.value.0 < q <= hi ==> SuffixAt(s, q, sufs).None?
    ensures r.None? ==> forall q :: lo <= q <= hi ==> SuffixAt(s, q, sufs).None?
  {
    var at := q => SuffixAt(s, q, sufs);
    assert forall q: nat :: at(q) == SuffixAt(s, q, sufs);
    LastMatch(at, lo, hi)
  }

  /**
   * The address pattern at `p` with the suffix alternation `sufs`: a word
   * boundary, the digit run, at least one space, then class characters up to
   * the rightmost suffix that ends on a word boundary. `\s+` and the class
   * both take spaces, so every suffix position from two characters after the
   * digits to the end of the class run is a candidate.
   */
  function AddressWith(s: string, p: nat, sufs: seq<string>): (r: Option<string>)
    ensures r.Some? ==> OccursAt(s, r.value, p)
    ensures r.Some? ==> |r.value| >= 3 && IsDigit(r.value[0])
  {
    if !(p < |s| && IsDigit(s[p]) && (p == 0 || !IsWordChar(s[p - 1]))) then None
    else
      assert Run(s, p, IsDigit) >= 1;
      match AddressEnd(s, p + Run(s, p, IsDigit), sufs)
      case Some(e) =>
        var c := s[p..e];
        assert c[0] == s[p];
        Some(c)
      case None => None
  }

  /** Where the address ends after the digit run ending at `a`: after the rightmost suffix candidate. */
  function AddressEnd(s: string, a: nat, sufs: seq<string>): (r: Option<nat>)
    ensures r.Some? ==> a + 2 <= r.value <= |s|
  {
    var run := Run(s, a, IsAddressChar);
    if SpaceRun(s, a) == 0 then None
    else match LastSuffix(s, a + 2, a + run, sufs)
      case Some((q, len)) => Some(q + len)
      case None => None
  }

  function AddressAt(s: string, p: nat): (r: Option<string>)
    ensures r.Some? ==> OccursAt(s, r.value, p)
    ensures r.Some? ==> |r.value| >= 3 && IsDigit(r.value[0])
  {
    AddressWith(s, p, StreetSuffixes)
  }

  /** `addresses[0]` of `body.match(addressPattern) || []`. */
  function AddressMatch(s: string): (r: Option<string>)
    ensures r.Some? ==> exists p: nat :: p <= |s| && AddressAt(s, p) == r && forall q: nat :: q < p ==> AddressAt(s, q).None?
    ensures r.None? ==> forall p: nat :: p <= |s| ==> AddressAt(s, p).None?
  {
    var at := p => AddressAt(s, p);
    assert forall q: nat :: at(q) == AddressAt(s, q);
    LeftmostMatch(at, |s|)
  }

  // ----------------------------------------------------------- From header
  // /(?:"?([^"<]+)"?\s+)?<?([^@>]+)@[^>]+>?/

  predicate NotQuoteOrLt(c: char) { c != '"' && c != '<' }

  predicate NotAtOrGt(c: char) { c != '@' && c != '>' }

  /** `([^@>]+)@[^>]+` at `x`; the greedy run must stop right at the `@`. */
  predicate MailboxFrom(s: string, x: nat) {
    var r := Run(s, x, NotAtOrGt);
    r >= 1 && x + r + 1 < |s| && s[x + r] == '@' && s[x + r + 1] != '>'
  }

  /** `<?([^@>]+)@[^>]+>?` at `j`: with the `<` first, then without it. */
  predicate MailboxAt(s: string, j: nat) {
    (j < |s| && s[j] == '<' && MailboxFrom(s, j + 1)) || MailboxFrom(s, j)
  }

  /** `\s+` then the mailbox, for some number of spaces from `w` down to 1. */
  predicate SpacesThenMailbox(s: string, x: nat, w: nat)
    decreases w
  {
    w >= 1 && (MailboxAt(s, x + w) || SpacesThenMailbox(s, x, w - 1))
  }

  /**
   * The optional display-name group with capture length at most `len`: the
   * longest capture after which an optional quote, `\s+` and the mailbox
   * follow.
   */
  function DisplayName(s: string, start: nat, len: nat): (r: Option<string>)
    requires start + len <= |s|
    decreases len
    ensures r.Some? ==> 1 <= |r.value| <= len
  {
    if len == 0 then None
    else
      var x := start + len;
      var x2 := if x < |s| && s[x] == '"' then x + 1 else x;
      if SpacesThenMailbox(s, x2, SpaceRun(s, x2)) then Some(s[start..x])
      else DisplayName(s, start, len - 1)
  }

  /** The display-name group at `p`, with the opening quote taken when present. */
  function GroupAt(s: string, p: nat): Option<string> {
    if p > |s| then None else
    var quoted := if p < |s| && s[p] == '"' then p + 1 else p;
    var g := DisplayName(s, quoted, Run(s, quoted, NotQuoteOrLt));
    if g.Some? || quoted == p then g
    else DisplayName(s, p, Run(s, p, NotQuoteOrLt))
  }

  /** The whole pattern at `p`: `Some(capture 1)`, where capture 1 is absent when the group was skipped. */
  function FromAt(s: string, p: nat): Option<Option<string>> {
    var g := GroupAt(s, p);
    if g.Some? then Some(g)
    else if MailboxAt(s, p) then Some(None)
    else None
  }

  /** Capture group 1 of `headers.from.match(...)`, absent when there is no match or the group was skipped. */
  function FromDisplayName(s: string): (r: Option<string>)
    ensures r.Some? ==> exists p: nat :: p <= |s| && FromAt(s, p) == Some(r) && forall q: nat :: q < p ==> FromAt(s, q).None?
  {
    var at := p => FromAt(s, p);
    var m := FirstMatch(at, 0, |s|);
    assert forall q: nat :: at(q) == FromAt(s, q);
    if m.Some? then
      assert FromAt(s, m.value.0) == Some(m.value.1);
      m.value.1
    else None
  }
}
