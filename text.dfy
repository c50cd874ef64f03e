/**
 * The JavaScript string operations the core relies on, over `seq<char>`:
 * the whitespace set of `\s` and `trim()`, ASCII case folding, `includes`,
 * `startsWith`, `trim` and `split` with a one-character separator.
 */
module Text {
  import opened Wrappers

  /** WhiteSpace and LineTerminator of ECMAScript: the set matched by `\s` and removed by `trim()`. */
  predicate IsSpace(c: char) {
    c == ' ' || c == '\t' || c == '\n' || c == '\r' || c == '\U{B}' || c == '\U{C}'
    || c == '\U{A0}' || c == '\U{1680}' || ('\U{2000}' <= c <= '\U{200A}')
    || c == '\U{2028}' || c == '\U{2029}' || c == '\U{202F}' || c == '\U{205F}'
    || c == '\U{3000}' || c == '\U{FEFF}'
  }

  /** The characters a regular-expression `.` does not match. */
  predicate IsLineTerminator(c: char) {
    c == '\n' || c == '\r' || c == '\U{2028}' || c == '\U{2029}'
  }

  predicate IsDigit(c: char) { '0' <= c <= '9' }

  predicate IsLetter(c: char) { ('a' <= c <= 'z') || ('A' <= c <= 'Z') }

  /** `\w`: letters, digits and underscore. */
  predicate IsWordChar(c: char) { IsLetter(c) || IsDigit(c) || c == '_' }

  function LowerChar(c: char): char {
    if 'A' <= c <= 'Z' then (c as int + 32) as char else c
  }

  /** `toLowerCase()` on the ASCII letters; every other character is kept. */
  function ToLower(s: string): string {
    seq(|s|, i requires 0 <= i < |s| => LowerChar(s[i]))
  }

  lemma ToLowerSlice(s: string, i: nat, j: nat)
    requires i <= j <= |s|
    ensures ToLower(s)[i..j] == ToLower(s[i..j])
  {
  }

  predicate StartsWith(s: string, prefix: string) {
    |prefix| <= |s| && s[..|prefix|] == prefix
  }

  predicate OccursAt(s: string, t: string, i: nat) {
    i + |t| <= |s| && s[i..i + |t|] == t
  }

  /** `indexOf(t, from)`: the first position at or after `from` where `t` occurs. */
  function IndexOf(s: string, t: string, from: nat): (r: Option<nat>)
    decreases |s| - from
    ensures r.Some? ==> from <= r.value && OccursAt(s, t, r.value)
    ensures r.Some? ==> forall j :: from <= j < r.value ==> !OccursAt(s, t, j)
    ensures r.None? ==> forall j :: from <= j ==> !OccursAt(s, t, j)
  {
    if from + |t| > |s| then None
    else if s[from..from + |t|] == t then Some(from)
    else IndexOf(s, t, from + 1)
  }

  /** `s.includes(t)`. */
  predicate Includes(s: string, t: string) {
    IndexOf(s, t, 0).Some?
  }

  lemma IncludesIff(s: string, t: string)
    ensures Includes(s, t) <==> exists i :: OccursAt(s, t, i)
  {
    if Includes(s, t) {
      assert OccursAt(s, t, IndexOf(s, t, 0).value);
    }
  }

  /** `s.toLowerCase().includes(t)` for a lower-case term `t`. */
  predicate IncludesCI(s: string, t: string) {
    Includes(ToLower(s), t)
  }

  /** `lit` (lower-case) occurs at `p` ignoring ASCII case, as under the `/i` flag. */
  predicate MatchesCI(s: string, p: nat, lit: string) {
    p + |lit| <= |s| && ToLower(s[p..p + |lit|]) == lit
  }

  /** The length of the longest run of characters satisfying `ok` that starts at `i`. */
  function Run(s: string, i: nat, ok: char -> bool): (r: nat)
    decreases |s| - i
    ensures i <= |s| ==> i + r <= |s|
    ensures i > |s| ==> r == 0
    ensures forall k :: i <= k < i + r ==> ok(s[k])
    ensures i + r < |s| ==> !ok(s[i + r])
  {
    if i < |s| && ok(s[i]) then 1 + Run(s, i + 1, ok) else 0
  }

  function SpaceRun(s: string, i: nat): nat {
    Run(s, i, IsSpace)
  }

  /** The number of whitespace characters at the start of `s`. */
  function LeadingSpaces(s: string): (r: nat)
    ensures r <= |s|
    ensures forall i :: 0 <= i < r ==> IsSpace(s[i])
    ensures r < |s| ==> !IsSpace(s[r])
  {
    if s != [] && IsSpace(s[0]) then 1 + LeadingSpaces(s[1..]) else 0
  }

  /** The number of whitespace characters at the end of `s`. */
  function TrailingSpaces(s: string): (r: nat)
    ensures r <= |s|
    ensures forall i :: |s| - r <= i < |s| ==> IsSpace(s[i])
    ensures r < |s| ==> !IsSpace(s[|s| - 1 - r])
  {
    if s != [] && IsSpace(s[|s| - 1]) then 1 + TrailingSpaces(s[..|s| - 1]) else 0
  }

  /** No whitespace at either end. */
  predicate Trimmed(t: string) {
    t != [] ==> !IsSpace(t[0]) && !IsSpace(t[|t| - 1])
  }

  /**
   * `trim()`: the slice of `s` left after removing whitespace at both ends.
   * The contract determines the result: a slice starting after the leading
   * whitespace, with only whitespace around it, and no whitespace at its ends.
   */
  function Trim(s: string): (r: string)
    ensures |r| <= |s| && LeadingSpaces(s) + |r| <= |s|
    ensures r == s[LeadingSpaces(s)..LeadingSpaces(s) + |r|]
    ensures forall i :: LeadingSpaces(s) + |r| <= i < |s| ==> IsSpace(s[i])
    ensures r == [] <==> forall i :: 0 <= i < |s| ==> IsSpace(s[i])
    ensures Trimmed(r)
  {
    var a := LeadingSpaces(s);
    var rest := s[a..];
    var b := TrailingSpaces(rest);
    rest[..|rest| - b]
  }

  /** Every character of `trim(s)` comes from `s`, so it keeps any property all of `s` has. */
  lemma TrimKeeps(s: string, p: char -> bool)
    requires forall i :: 0 <= i < |s| ==> p(s[i])
    ensures forall i :: 0 <= i < |Trim(s)| ==> p(Trim(s)[i])
  {
    var t := Trim(s);
    assert forall i :: 0 <= i < |t| ==> t[i] == s[LeadingSpaces(s) + i];
  }

  /** `trim()` changes nothing on a string without whitespace at its ends. */
  lemma TrimNoop(s: string)
    requires s != [] ==> !IsSpace(s[0]) && !IsSpace(s[|s| - 1])
    ensures Trim(s) == s
  {
    if s != [] {
      assert LeadingSpaces(s) == 0;
      assert !IsSpace(s[|s| - 1]);
    }
  }

  lemma TrimIdempotent(s: string)
    ensures Trim(Trim(s)) == Trim(s)
  {
    TrimNoop(Trim(s));
  }

  /** The position of the first `c` in `s`. */
  function FirstIndex(s: string, c: char): (r: nat)
    requires c in s
    ensures r < |s| && s[r] == c && c !in s[..r]
  {
    if s[0] == c then 0 else 1 + FirstIndex(s[1..], c)
  }

  /** `s.split(sep)` for a one-character separator. */
  function Split(s: string, sep: char): (r: seq<string>)
    decreases |s|
    ensures |r| >= 1
  {
    if sep in s then
      var i := FirstIndex(s, sep);
      [s[..i]] + Split(s[i + 1..], sep)
    else [s]
  }

  /** `parts.join(sep)`. */
  function Join(parts: seq<string>, sep: char): string
    decreases |parts|
  {
    if |parts| == 0 then ""
    else if |parts| == 1 then parts[0]
    else parts[0] + [sep] + Join(parts[1..], sep)
  }

  /** No piece of a split contains the separator. */
  lemma {:induction false} SplitPiecesFree(s: string, sep: char)
    decreases |s|
    ensures forall k :: 0 <= k < |Split(s, sep)| ==> sep !in Split(s, sep)[k]
  {
    if sep in s {
      var i := FirstIndex(s, sep);
      SplitPiecesFree(s[i + 1..], sep);
      assert Split(s, sep) == [s[..i]] + Split(s[i + 1..], sep);
    }
  }

  lemma JoinCons(head: string, rest: seq<string>, sep: char)
    requires |rest| >= 1
    ensures Join([head] + rest, sep) == head + [sep] + Join(rest, sep)
  {
    assert ([head] + rest)[1..] == rest;
  }

  /** Joining the pieces with the separator gives back the string. */
  lemma {:induction false} JoinSplit(s: string, sep: char)
    decreases |s|
    ensures Join(Split(s, sep), sep) == s
  {
    if sep in s {
      var i := FirstIndex(s, sep);
      JoinSplit(s[i + 1..], sep);
      var rest := Split(s[i + 1..], sep);
      assert Split(s, sep) == [s[..i]] + rest;
      JoinCons(s[..i], rest, sep);
      assert s == s[..i] + [sep] + s[i + 1..];
    }
  }

  /** Splitting a join of separator-free pieces gives back the pieces. */
  lemma {:induction false} SplitJoin(parts: seq<string>, sep: char)
    requires |parts| >= 1
    requires forall k :: 0 <= k < |parts| ==> sep !in parts[k]
    decreases |parts|
    ensures Split(Join(parts, sep), sep) == parts
  {
    if |parts| > 1 {
      var s := Join(parts, sep);
      var rest := Join(parts[1..], sep);
      assert s == parts[0] + [sep] + rest;
      assert sep in s by { assert s[|parts[0]|] == sep; }
      var i := FirstIndex(s, sep);
      assert s[..|parts[0]|] == parts[0];
      assert i == |parts[0]|;
      assert s[..i] == parts[0];
      assert s[i + 1..] == rest;
      SplitJoin(parts[1..], sep);
    }
  }

  /**
   * The leftmost match of a non-global regular expression: the least
   * position in `from..to` at which `at` succeeds, with what it found there.
   */
  function FirstMatch<T>(at: nat -> Option<T>, from: nat, to: nat): (r: Option<(nat, T)>)
    decreases to + 1 - from
    ensures r.Some? ==> from <= r.value.0 <= to && at(r.value.0) == Some(r.value.1)
    ensures r.Some? ==> forall q :: from <= q < r.value.0 ==> at(q).None?
    ensures r.None? ==> forall q :: from <= q <= to ==> at(q).None?
  {
    if from > to then None
    else match at(from)
      case Some(v) => Some((from, v))
      case None => FirstMatch(at, from + 1, to)
  }

  /** The greatest position in `lo..hi` at which `at` succeeds, with what it found there. */
  function LastMatch<T>(at: nat -> Option<T>, lo: nat, hi: nat): (r: Option<(nat, T)>)
    decreases hi
    ensures r.Some? ==> lo <= r.value.0 <= hi && at(r.value.0) == Some(r.value.1)
    ensures r.Some? ==> forall q :: r.value.0 < q <= hi ==> at(q).None?
    ensures r.None? ==> forall q :: lo <= q <= hi ==> at(q).None?
  {
    if hi < lo then None
    else match at(hi)
      case Some(v) => Some((hi, v))
      case None => if hi == lo then None else LastMatch(at, lo, hi - 1)
  }

  /**
   * The capture of the leftmost match of a pattern tried at `0..n`: the result
   * at the least position where `at` succeeds, or none when it succeeds nowhere.
   */
  function LeftmostMatch<T>(at: nat -> Option<T>, n: nat): (r: Option<T>)
    ensures r.Some? ==> exists p: nat :: p <= n && at(p) == r && forall q: nat :: q < p ==> at(q).None?
    ensures r.None? ==> forall p: nat :: p <= n ==> at(p).None?
  {
    var m := FirstMatch(at, 0, n);
    if m.Some? then
      assert at(m.value.0) == Some(m.value.1);
      Some(m.value.1)
    else None
  }

  /**
   * `(?:k1|k2|...)` under the `/i` flag followed by the rest of a pattern:
   * the alternatives are tried in order, and the first one after which the
   * rest succeeds gives the result.
   */
  function KeywordThen<T>(s: string, p: nat, kws: seq<string>, rest: nat -> Option<T>): (r: Option<T>)
    decreases |kws|
    ensures r.Some? ==> exists k :: 0 <= k < |kws| && MatchesCI(s, p, kws[k]) && r == rest(p + |kws[k]|)
    ensures r.None? ==> forall k :: 0 <= k < |kws| && MatchesCI(s, p, kws[k]) ==> rest(p + |kws[k]|).None?
  {
    if kws == [] then None
    else if MatchesCI(s, p, kws[0]) && rest(p + |kws[0]|).Some? then rest(p + |kws[0]|)
    else
      var r := KeywordThen(s, p, kws[1..], rest);
      assert forall k :: 1 <= k < |kws| ==> kws[k] == kws[1..][k - 1];
      r
  }

  /** `n` digits start at `i`. */
  predicate DigitsAt(s: string, i: nat, n: nat) {
    i + n <= |s| && forall k :: i <= k < i + n ==> IsDigit(s[k])
  }

  /** A run of characters in a wider class is at least as long. */
  lemma RunWider(s: string, i: nat, narrow: char -> bool, wide: char -> bool)
    requires forall c :: narrow(c) ==> wide(c)
    ensures Run(s, i, narrow) <= Run(s, i, wide)
  {
  }

  function Min(a: int, b: int): int { if a <= b then a else b }
}
