/**
 * app/api/parse-email/route.ts: the POST handler that asks a language model
 * to extract scheduling fields from an email, and the confidence estimate,
 * the share of the six required fields that came back non-blank, in
 * hundredths. The model call and `JSON.parse` are parameters.
 */
module ParseEmail {
  import opened Wrappers
  import opened Js

  const RequiredFields: seq<string> := ["customerName", "phone", "email", "address", "service", "preferredDate"]

  /** `data[field] && data[field].toString().trim() !== ''`. */
  predicate Filled(v: Option<Json>) {
    Truthy(v) && !BlankText(v.value)
  }

  /** How many of `names` are filled in the object `fields`. */
  function FilledCount(fields: map<string, Json>, names: seq<string>): (r: nat)
    decreases |names|
    ensures r <= |names|
    ensures r == |names| <==> forall k :: 0 <= k < |names| ==> Filled(Prop(fields, names[k]))
    ensures r == 0 <==> forall k :: 0 <= k < |names| ==> !Filled(Prop(fields, names[k]))
  {
    if names == [] then 0
    else
      var rest := FilledCount(fields, names[1..]);
      assert forall k :: 1 <= k < |names| ==> names[k] == names[1..][k - 1];
      (if Filled(Prop(fields, names[0])) then 1 else 0) + rest
  }

  /**
   * `Number((k / 6).toFixed(2))` in hundredths. No `k / 6` lies halfway
   * between two hundredths, so this is the hundredth nearest to it.
   */
  function Hundredths(k: nat): (r: nat)
    requires k <= 6
    ensures 100 * k - 3 < 6 * r <= 100 * k + 3
    ensures r <= 100
    ensures r == 0 <==> k == 0
    ensures r == 100 <==> k == 6
  {
    (100 * k + 3) / 6
  }

  lemma HundredthsMonotone(k1: nat, k2: nat)
    requires k1 <= k2 <= 6
    ensures Hundredths(k1) <= Hundredths(k2)
  {
  }

  /**
   * `estimateConfidence(data)`: reading a field of `null` throws; any other
   * value that is not an object has no fields, so scores 0.
   */
  function EstimateConfidence(data: Json): (r: Result<nat, Thrown>)
    ensures r.Failure? <==> data.JNull?
    ensures r.Failure? ==> r.error == ErrorObject(NullReadMessage("customerName"))
    ensures r.Success? ==> r.value <= 100
    ensures r.Success? && !data.JObj? ==> r.value == 0
    ensures data.JObj? ==> r == Success(Hundredths(FilledCount(data.fields, RequiredFields)))
  {
    match data
    case JNull => Failure(ErrorObject(NullReadMessage("customerName")))
    case JObj(fields) => Success(Hundredths(FilledCount(fields, RequiredFields)))
    case _ => Success(0)
  }

  /** Confidence is 100 exactly when all six required fields are filled, and 0 exactly when none is. */
  lemma ConfidenceExtremes(fields: map<string, Json>)
    ensures EstimateConfidence(JObj(fields)) == Success(100) <==>
      forall k :: 0 <= k < |RequiredFields| ==> Filled(Prop(fields, RequiredFields[k]))
    ensures EstimateConfidence(JObj(fields)) == Success(0) <==>
      forall k :: 0 <= k < |RequiredFields| ==> !Filled(Prop(fields, RequiredFields[k]))
  {
    var n := FilledCount(fields, RequiredFields);
    assert Hundredths(n) == 100 <==> n == 6;
  }

  /** Fields outside the required six, `alternativeDates` and `notes` among them, never change the count. */
  lemma {:induction false} OtherFieldsIgnored(fields: map<string, Json>, names: seq<string>, key: string, v: Json)
    requires key !in names
    decreases |names|
    ensures FilledCount(fields[key := v], names) == FilledCount(fields, names)
  {
    if names != [] {
      OtherFieldsIgnored(fields, names[1..], key, v);
      assert Prop(fields[key := v], names[0]) == Prop(fields, names[0]);
    }
  }

  lemma NotesIgnored(fields: map<string, Json>, alternativeDates: Json, notes: Json)
    ensures EstimateConfidence(JObj(fields["alternativeDates" := alternativeDates]["notes" := notes])) ==
      EstimateConfidence(JObj(fields))
  {
    OutsideRequired();
    OtherFieldsIgnored(fields["alternativeDates" := alternativeDates], RequiredFields, "notes", notes);
    OtherFieldsIgnored(fields, RequiredFields, "alternativeDates", alternativeDates);
  }

  lemma OutsideRequired()
    ensures "notes" !in RequiredFields && "alternativeDates" !in RequiredFields
  {
    assert forall k :: 0 <= k < |RequiredFields| ==> |RequiredFields[k]| != 16 && RequiredFields[k][0] != 'n';
  }

  /** Filling more of the required fields never lowers the count. */
  lemma {:induction false} CountMonotone(f1: map<string, Json>, f2: map<string, Json>, names: seq<string>)
    requires forall k :: 0 <= k < |names| && Filled(Prop(f1, names[k])) ==> Filled(Prop(f2, names[k]))
    decreases |names|
    ensures FilledCount(f1, names) <= FilledCount(f2, names)
  {
    if names != [] {
      assert forall k :: 1 <= k < |names| ==> names[k] == names[1..][k - 1];
      CountMonotone(f1, f2, names[1..]);
    }
  }

  lemma ConfidenceMonotone(f1: map<string, Json>, f2: map<string, Json>)
    requires forall k :: 0 <= k < |RequiredFields| && Filled(Prop(f1, RequiredFields[k])) ==> Filled(Prop(f2, RequiredFields[k]))
    ensures EstimateConfidence(JObj(f1)).value <= EstimateConfidence(JObj(f2)).value
  {
    CountMonotone(f1, f2, RequiredFields);
    HundredthsMonotone(FilledCount(f1, RequiredFields), FilledCount(f2, RequiredFields));
  }

  // ------------------------------------------------------------------ POST

  /**
   * What the chat completion call gives: a thrown error, a response with no
   * choices, a first choice without a function call, or the function call's
   * argument text.
   */
  datatype Completion = Threw(error: Thrown) | NoChoices | NoFunctionCall | FunctionCall(arguments: string)

  datatype Extracted = Extracted(data: Json, confidence: nat)

  const ParseFailed := "Failed to parse email"

  /** `error.message || 'Failed to parse email'` for an error the handler caught. */
  function CaughtMessage(t: Thrown): string {
    MessageOr(t, ParseFailed)
  }

  /** V8's message for destructuring `emailContent` out of a `null` body. */
  const DestructureNullMessage := "Cannot destructure property 'emailContent' of 'body' as it is null."

  /** V8's message for reading `.message` of a missing first choice. */
  const NoChoiceMessage := "Cannot read properties of undefined (reading 'message')"

  /** A request body whose `emailContent` reads as a truthy value. */
  predicate ContentGiven(request: Result<Json, Thrown>) {
    request.Success? && !request.value.JNull? && Truthy(ReadValue(Get(request.value, "emailContent")))
  }

  function ContentOf(request: Result<Json, Thrown>): Json
    requires ContentGiven(request)
  {
    ReadValue(Get(request.value, "emailContent")).value
  }

  /**
   * POST: `request` is the outcome of `request.json()`, `completion` the
   * model call for the given email content, `parseJson` the outcome of
   * `JSON.parse`.
   */
  function Post(request: Result<Json, Thrown>, completion: Json -> Completion,
                parseJson: string -> Result<Json, Thrown>): (r: Reply<Extracted>)
    ensures request.Failure? ==> r == Err(500, CaughtMessage(request.error))
    ensures request.Success? && request.value.JNull? ==> r == Err(500, DestructureNullMessage)
    ensures request.Success? && !request.value.JNull? && !ContentGiven(request) ==>
      r == Err(400, "Email content is required")
    ensures ContentGiven(request) && completion(ContentOf(request)).Threw? ==>
      r == Err(500, CaughtMessage(completion(ContentOf(request)).error))
    ensures ContentGiven(request) && completion(ContentOf(request)).NoChoices? ==> r == Err(500, NoChoiceMessage)
    ensures ContentGiven(request) && completion(ContentOf(request)).NoFunctionCall? ==>
      r == Err(500, "Failed to extract information")
    ensures ContentGiven(request) && completion(ContentOf(request)).FunctionCall? ==>
      var parsed := parseJson(completion(ContentOf(request)).arguments);
      (parsed.Failure? ==> r == Err(500, CaughtMessage(parsed.error))) &&
      (parsed.Success? && parsed.value.JNull? ==> r == Err(500, NullReadMessage("customerName"))) &&
      (parsed.Success? && EstimateConfidence(parsed.value).Success? ==>
        r == Ok(Extracted(parsed.value, EstimateConfidence(parsed.value).value)))
    ensures r.Ok? ==> ContentGiven(request) && completion(ContentOf(request)).FunctionCall?
    ensures r.Ok? ==> parseJson(completion(ContentOf(request)).arguments) == Success(r.body.data)
    ensures r.Ok? ==> EstimateConfidence(r.body.data) == Success(r.body.confidence)
  {
    if request.Failure? then Err(500, CaughtMessage(request.error))
    else if request.value.JNull? then Err(500, DestructureNullMessage)
    else
      var emailContent := ReadValue(Get(request.value, "emailContent"));
      if !Truthy(emailContent) then Err(400, "Email content is required")
      else match completion(emailContent.value)
        case Threw(e) => Err(500, CaughtMessage(e))
        case NoChoices => Err(500, NoChoiceMessage)
        case NoFunctionCall => Err(500, "Failed to extract information")
        case FunctionCall(arguments) =>
          match parseJson(arguments)
          case Failure(e) => Err(500, CaughtMessage(e))
          case Success(data) =>
            match EstimateConfidence(data)
            case Failure(e) => Err(500, CaughtMessage(e))
            case Success(confidence) => Ok(Extracted(data, confidence))
  }
}
