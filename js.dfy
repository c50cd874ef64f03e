/**
 * The JavaScript values the route handlers read from JSON request bodies and
 * from parsed model output, with the coercions the handlers apply to them:
 * truthiness, property reads, `String(v)` and `Number(v)`.
 */
module Js {
  import opened Wrappers
  import Text

  /** A JSON value. Numbers are exact reals: JSON cannot encode NaN or the infinities. */
  datatype Json =
    | JNull
    | JBool(b: bool)
    | JNum(n: real)
    | JStr(s: string)
    | JArr(items: seq<Json>)
    | JObj(fields: map<string, Json>)

  /** A property of a request body: `None` is `undefined`, a key the body does not have. */
  function Prop(body: map<string, Json>, key: string): Option<Json> {
    if key in body then Some(body[key]) else None
  }

  /** JavaScript truthiness: `undefined`, `null`, `false`, `0` and `''` are falsy; arrays and objects never are. */
  predicate Truthy(v: Option<Json>) {
    match v
    case None => false
    case Some(JNull) => false
    case Some(JBool(b)) => b
    case Some(JNum(n)) => n != 0.0
    case Some(JStr(s)) => s != ""
    case Some(JArr(_)) => true
    case Some(JObj(_)) => true
  }

  /** The outcome of reading `v[key]` or `v.key`. */
  datatype Read = Undefined | Found(value: Json) | TypeError(message: string)

  /** V8's message for reading a property of `null`. */
  function NullReadMessage(key: string): string {
    "Cannot read properties of null (reading '" + key + "')"
  }

  /**
   * Property read on a value: a key of an object, `undefined` for a missing
   * key or a primitive, and a TypeError for `null`.
   */
  function Get(v: Json, key: string): (r: Read)
    ensures r.TypeError? <==> v.JNull?
    ensures r.Found? <==> v.JObj? && key in v.fields
    ensures r.Found? ==> r.value == v.fields[key]
  {
    match v
    case JNull => TypeError(NullReadMessage(key))
    case JObj(m) => if key in m then Found(m[key]) else Undefined
    case _ => Undefined
  }

  function ReadValue(r: Read): Option<Json> {
    if r.Found? then Some(r.value) else None
  }

  /** A value that a `throw` produced: an `Error` object, a string, or anything else. */
  datatype Thrown = ErrorObject(message: string) | ThrownString(s: string) | ThrownOther

  /**
   * `String(v)`. `Number::toString` is not modelled: `numberText` renders a
   * number. Array elements that are `null` render as the empty string.
   */
  function JsText(v: Json, numberText: real -> string): string
    decreases v
  {
    match v
    case JNull => "null"
    case JBool(b) => if b then "true" else "false"
    case JNum(n) => numberText(n)
    case JStr(s) => s
    case JArr(items) =>
      Text.Join(seq(|items|, i requires 0 <= i < |items| =>
        if items[i].JNull? then "" else JsText(items[i], numberText)), ',')
    case JObj(_) => "[object Object]"
  }

  /**
   * Whether `String(v).trim() === ''`, decided on the shape of `v`: only a
   * blank string, an empty array, or an array whose one element is `null` or
   * blank. A number renders with at least one digit, and two or more array
   * elements are joined by a comma.
   */
  predicate BlankText(v: Json)
    decreases v
  {
    match v
    case JStr(s) => Text.Trim(s) == ""
    case JArr(items) =>
      |items| == 0 || (|items| == 1 && (items[0].JNull? || BlankText(items[0])))
    case _ => false
  }

  predicate AllSpace(s: string) {
    forall i :: 0 <= i < |s| ==> Text.IsSpace(s[i])
  }

  lemma {:induction false} JoinAllSpace(parts: seq<string>)
    requires |parts| >= 2
    ensures !AllSpace(Text.Join(parts, ','))
    decreases |parts|
  {
    var j := Text.Join(parts, ',');
    assert j == parts[0] + [','] + Text.Join(parts[1..], ',');
    assert j[|parts[0]|] == ',';
  }

  /**
   * `BlankText` agrees with trimming the rendered text, whatever renders the
   * numbers, as long as a rendered number is never blank.
   */
  lemma {:induction false} BlankTextIff(v: Json, numberText: real -> string)
    requires forall n :: Text.Trim(numberText(n)) != ""
    decreases v
    ensures BlankText(v) <==> Text.Trim(JsText(v, numberText)) == ""
  {
    match v
    case JNull =>
      assert !Text.IsSpace(JsText(v, numberText)[0]);
    case JBool(b) =>
      assert !Text.IsSpace(JsText(v, numberText)[0]);
    case JNum(n) =>
    case JStr(s) =>
    case JObj(_) =>
      assert !Text.IsSpace(JsText(v, numberText)[0]);
    case JArr(items) =>
      var parts := seq(|items|, i requires 0 <= i < |items| =>
        if items[i].JNull? then "" else JsText(items[i], numberText));
      assert JsText(v, numberText) == Text.Join(parts, ',');
      if |items| == 1 {
        assert Text.Join(parts, ',') == parts[0];
        if !items[0].JNull? {
          BlankTextIff(items[0], numberText);
        }
      } else if |items| >= 2 {
        JoinAllSpace(parts);
      }
  }

  function DigitValue(c: char): nat
    requires Text.IsDigit(c)
  {
    c as int - '0' as int
  }

  /** The value of a string of decimal digits. */
  function DigitsValue(s: string): nat
    requires forall i :: 0 <= i < |s| ==> Text.IsDigit(s[i])
    decreases |s|
  {
    if s == [] then 0 else 10 * DigitsValue(s[..|s| - 1]) + DigitValue(s[|s| - 1])
  }

  predicate AllDigits(s: string) {
    s != [] && forall i :: 0 <= i < |s| ==> Text.IsDigit(s[i])
  }

  /**
   * `Number(s)` for a string: surrounding whitespace is ignored, the empty
   * string is 0, and an optionally signed run of decimal digits is its value.
   * `None` is NaN.
   */
  function StringToNumber(s: string): (r: Option<real>)
    ensures Text.Trim(s) == "" ==> r == Some(0.0)
    ensures AllDigits(Text.Trim(s)) ==> r == Some(DigitsValue(Text.Trim(s)) as real)
  {
    var t := Text.Trim(s);
    if t == "" then Some(0.0)
    else if AllDigits(t) then Some(DigitsValue(t) as real)
    else if (t[0] == '+' || t[0] == '-') && AllDigits(t[1..]) then
      var m := DigitsValue(t[1..]) as real;
      Some(if t[0] == '-' then -m else m)
    else None
  }

  /**
   * `Number(v)` for a JSON value; `None` is NaN. An array converts through
   * its text: empty is 0, one element converts as that element's text does,
   * and two or more have a comma in their text, which is never a number.
   */
  function ToNumber(v: Json): Option<real>
    decreases v
  {
    match v
    case JNull => Some(0.0)
    case JBool(b) => Some(if b then 1.0 else 0.0)
    case JNum(n) => Some(n)
    case JStr(s) => StringToNumber(s)
    case JArr(items) =>
      if |items| == 0 then Some(0.0)
      else if |items| >= 2 then None
      else if items[0].JNull? then Some(0.0)
      else if items[0].JBool? || items[0].JObj? then None
      else ToNumber(items[0])
    case JObj(_) => None
  }

  /** `error.message || default`: the non-empty message of a thrown `Error`, or `default`. */
  function MessageOr(t: Thrown, default: string): string {
    if t.ErrorObject? && t.message != "" then t.message else default
  }

  /** `error instanceof Error ? error.message : default`. */
  function ErrorMessageOr(t: Thrown, default: string): string {
    if t.ErrorObject? then t.message else default
  }

  /**
   * A route handler's JSON reply: the success body, or `{ error }` with an
   * error status.
   */
  datatype Reply<T> = Ok(body: T) | Err(status: int, error: string)

}
