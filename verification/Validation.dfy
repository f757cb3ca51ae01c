/**
 * Required-field validation of the wizard: the per-step loop, the whole-form gate that
 * bounces to the first failing step, and the landing scan of a future-tickets prefill.
 */
module ValidationModel {
  import opened Base
  import opened Text

  datatype Tier = Lower | High | Special | Shariat | Supreme | Fcc

  datatype FieldType = StructuredAddress | Bench | Plain

  datatype ShowWhen = ShowWhen(field: string, value: Option<string>, valueIn: Option<seq<string>>, valueNotIn: Option<seq<string>>)

  /** `test` is `None` for a malformed regex, which the loop skips. */
  datatype Pattern = Pattern(test: Option<string -> bool>, message: string)

  datatype Field = Field(
    key: string, labelText: string, ftype: FieldType, required: bool,
    requiredByCourtTier: map<Tier, bool>, showWhen: Option<ShowWhen>, pattern: Option<Pattern>)

  /** The two value parsers the loop calls: a complete delivery address, a bench with a named judge. */
  datatype Parsers = Parsers(addressComplete: string -> bool, benchFilled: string -> bool)

  type Payload = map<string, string>

  /** Everything the rules read besides the fields. */
  datatype Context = Context(payload: Payload, tier: Option<Tier>, parsers: Parsers)

  const GEO_HANDLED_KEYS := {
    "province", "district_id", "station_id", "other_station_id", "city_type", "office_name",
    "select_court", "select_court_city", "documents_upload_note", "select_service",
    "city", "city_id", "cities"
  }

  function Value(p: Payload, key: string): Option<string> {
    if key in p then Some(p[key]) else None
  }

  /** `resolveRequired`. */
  predicate Required(f: Field, tier: Option<Tier>) {
    if tier.Some? && tier.value in f.requiredByCourtTier then f.requiredByCourtTier[tier.value] else f.required
  }

  /** `showWhenSatisfied`. */
  predicate Shown(f: Field, p: Payload) {
    match f.showWhen
    case None => true
    case Some(sw) =>
      var current := Value(p, sw.field).GetOr("");
      if sw.valueNotIn.Some? then current !in sw.valueNotIn.value
      else (sw.value.Some? && current == sw.value.value) || (sw.valueIn.Some? && current in sw.valueIn.value)
  }

  // ---- The declarative rule ----

  predicate GeoChip(f: Field) { f.key == "city_type" || f.key == "station_id" }

  /** Whether the form asks for this field at all. */
  predicate Asked(f: Field, c: Context) {
    && Shown(f, c.payload)
    && (if GeoChip(f) then Required(f, c.tier)
        else if f.key == "case_type_other" then Value(c.payload, "case_type") == Some("Other")
        else f.key !in GEO_HANDLED_KEYS && Required(f, c.tier))
  }

  predicate Met(f: Field, c: Context) {
    var v := Value(c.payload, f.key);
    if f.key == "station_id" then HasValue(v) || HasValue(Value(c.payload, "police_station"))
    else if f.key == "city_type" || f.key == "case_type_other" then HasValue(v)
    else match f.ftype
      case StructuredAddress => c.parsers.addressComplete(v.GetOr(""))
      case Bench => c.parsers.benchFilled(v.GetOr(""))
      case Plain => HasValue(v) && (f.pattern.Some? && f.pattern.value.test.Some? ==> f.pattern.value.test.value(v.value))
  }

  /** The message a field that is asked for and not met gets. */
  function Message(f: Field, c: Context): string {
    if GeoChip(f) || f.key == "case_type_other" then f.labelText + " is required"
    else match f.ftype
      case StructuredAddress => "Please complete the delivery address"
      case Bench => f.labelText + " is required"
      case Plain =>
        if HasValue(Value(c.payload, f.key)) && f.pattern.Some? then f.pattern.value.message else f.labelText + " is required"
  }

  predicate Fails(f: Field, c: Context) { Asked(f, c) && !Met(f, c) }

  /** The errors of a step: for each key with a failing field, the message of the last one. */
  function ErrorsOf(fields: seq<Field>, c: Context): map<string, string> {
    if |fields| == 0 then map[]
    else
      var rest, f := ErrorsOf(fields[..|fields| - 1], c), fields[|fields| - 1];
      if Fails(f, c) then rest[f.key := Message(f, c)] else rest
  }

  function TouchedOf(fields: seq<Field>, c: Context): map<string, bool> {
    if |fields| == 0 then map[]
    else
      var rest, f := TouchedOf(fields[..|fields| - 1], c), fields[|fields| - 1];
      if Asked(f, c) then rest[f.key := true] else rest
  }

  /** `firstInvalidKey`: set while it is still falsy, so an empty key is overwritten. */
  function FirstInvalid(fields: seq<Field>, c: Context): Option<string> {
    if |fields| == 0 then None
    else
      var sofar, f := FirstInvalid(fields[..|fields| - 1], c), fields[|fields| - 1];
      if Fails(f, c) && (sofar.None? || sofar.value == "") then Some(f.key) else sofar
  }

  /** `Object.values(errors).some(Boolean)`. */
  predicate SomeMessage(errors: map<string, string>) {
    exists k :: k in errors && errors[k] != ""
  }

  predicate Passes(fields: seq<Field>, c: Context) {
    !SomeMessage(ErrorsOf(fields, c))
  }

  /** `stepFieldErrors`: the loop fills exactly what the declarative rule prescribes. */
  method StepFieldErrors(fields: seq<Field>, c: Context)
    returns (newErrors: map<string, string>, newTouched: map<string, bool>, firstInvalidKey: Option<string>)
    ensures newErrors == ErrorsOf(fields, c)
    ensures newTouched == TouchedOf(fields, c)
    ensures firstInvalidKey == FirstInvalid(fields, c)
  {
    newErrors, newTouched, firstInvalidKey := map[], map[], None;
    var p := c.payload;
    for i := 0 to |fields|
      invariant newErrors == ErrorsOf(fields[..i], c)
      invariant newTouched == TouchedOf(fields[..i], c)
      invariant firstInvalidKey == FirstInvalid(fields[..i], c)
    {
      var f := fields[i];
      assert fields[..i + 1][..i] == fields[..i];
      var v := Value(p, f.key);
      var error: Option<string> := None;
      if f.key == "city_type" || f.key == "station_id" {
        if !Required(f, c.tier) { continue; }
        if !Shown(f, p) { continue; }
        newTouched := newTouched[f.key := true];
        var satisfied := if f.key == "station_id"
                         then HasValue(Value(p, "station_id")) || HasValue(Value(p, "police_station"))
                         else HasValue(Value(p, "city_type"));
        if !satisfied { error := Some(f.labelText + " is required"); }
      } else if f.key in GEO_HANDLED_KEYS {
        continue;
      } else if f.key == "case_type_other" {
        if Value(p, "case_type") == Some("Other") && Shown(f, p) {
          newTouched := newTouched[f.key := true];
          if !HasValue(v) { error := Some(f.labelText + " is required"); }
        }
      } else {
        if !Required(f, c.tier) { continue; }
        if !Shown(f, p) { continue; }
        newTouched := newTouched[f.key := true];
        if f.ftype.StructuredAddress? {
          if !c.parsers.addressComplete(v.GetOr("")) { error := Some("Please complete the delivery address"); }
        } else if f.ftype.Bench? {
          if !c.parsers.benchFilled(v.GetOr("")) { error := Some(f.labelText + " is required"); }
        } else if !HasValue(v) {
          error := Some(f.labelText + " is required");
        } else if f.pattern.Some? && f.pattern.value.test.Some? {
          if !f.pattern.value.test.value(v.value) { error := Some(f.pattern.value.message); }
        }
      }
      if error.Some? {
        newErrors := newErrors[f.key := error.value];
        if firstInvalidKey.None? || firstInvalidKey.value == "" { firstInvalidKey := Some(f.key); }
      }
    }
    assert fields[..|fields|] == fields;
  }

  // ---- What the rule says of one field ----

  /** The payload has something other than white space under the key. */
  predicate Filled(p: Payload, key: string) { key in p && Trim(p[key]) != "" }

  /** Per-tier overrides decide alone where there are any. */
  predicate IsRequired(f: Field, tier: Option<Tier>) {
    || (tier.Some? && tier.value in f.requiredByCourtTier && f.requiredByCourtTier[tier.value])
    || ((tier.None? || tier.value !in f.requiredByCourtTier) && f.required)
  }

  /** A list of excluded values decides alone; otherwise the value is the wanted one or among the listed ones. */
  predicate IsShown(f: Field, p: Payload) {
    f.showWhen.Some? ==>
      var sw := f.showWhen.value;
      var current := if sw.field in p then p[sw.field] else "";
      && (sw.valueNotIn.Some? ==> current !in sw.valueNotIn.value)
      && (sw.valueNotIn.None? ==> sw.value == Some(current) || (sw.valueIn.Some? && current in sw.valueIn.value))
  }

  /** The keys that the location and court pickers answer for. */
  predicate PickersAnswer(key: string) {
    || key == "province" || key == "district_id" || key == "other_station_id" || key == "office_name"
    || key == "select_court" || key == "select_court_city" || key == "documents_upload_note" || key == "select_service"
    || key == "city" || key == "city_id" || key == "cities"
  }

  /** Which fields the form asks for. */
  lemma AskedExactly(f: Field, c: Context)
    ensures Asked(f, c)
            <==> && IsShown(f, c.payload) && !PickersAnswer(f.key)
                 && (if f.key == "case_type_other" then "case_type" in c.payload && c.payload["case_type"] == "Other"
                     else IsRequired(f, c.tier))
  {
    assert f.key in GEO_HANDLED_KEYS <==> PickersAnswer(f.key) || f.key == "station_id" || f.key == "city_type";
  }

  /** When a field fails, kind by kind. */
  lemma FailsExactly(f: Field, c: Context)
    ensures Fails(f, c)
            <==> && IsShown(f, c.payload) && !PickersAnswer(f.key)
                 && (if f.key == "case_type_other" then
                       "case_type" in c.payload && c.payload["case_type"] == "Other" && !Filled(c.payload, f.key)
                     else
                       && IsRequired(f, c.tier)
                       && if f.key == "station_id" then !Filled(c.payload, "station_id") && !Filled(c.payload, "police_station")
                          else if f.key == "city_type" then !Filled(c.payload, "city_type")
                          else if f.ftype.StructuredAddress? then !c.parsers.addressComplete(Value(c.payload, f.key).GetOr(""))
                          else if f.ftype.Bench? then !c.parsers.benchFilled(Value(c.payload, f.key).GetOr(""))
                          else || !Filled(c.payload, f.key)
                               || (f.pattern.Some? && f.pattern.value.test.Some? && !f.pattern.value.test.value(c.payload[f.key])))
  {
    assert f.key in GEO_HANDLED_KEYS <==> PickersAnswer(f.key) || f.key == "station_id" || f.key == "city_type";
  }

  /** What a failing field says: a filled one its pattern's message, an address its own, any other that it is required. */
  lemma FailureSays(f: Field, c: Context)
    requires Fails(f, c)
    ensures var special := f.key == "station_id" || f.key == "city_type" || f.key == "case_type_other";
            Message(f, c)
            == if !special && f.ftype.StructuredAddress? then "Please complete the delivery address"
               else if !special && f.ftype.Plain? && Filled(c.payload, f.key) then f.pattern.value.message
               else f.labelText + " is required"
  {
  }

  lemma {:induction false} TouchedExactly(fields: seq<Field>, c: Context, k: string)
    ensures k in TouchedOf(fields, c) <==> exists f :: f in fields && Asked(f, c) && f.key == k
    ensures k in TouchedOf(fields, c) ==> TouchedOf(fields, c)[k]
  {
    if fields != [] {
      TouchedExactly(fields[..|fields| - 1], c, k);
      assert fields == fields[..|fields| - 1] + [fields[|fields| - 1]];
    }
  }

  /** The focused key is the first failing field's, when no failing field has the empty key. */
  lemma {:induction false} FirstInvalidExactly(fields: seq<Field>, c: Context)
    requires forall f :: f in fields && Fails(f, c) ==> f.key != ""
    ensures match FirstInvalid(fields, c)
            case None => forall f :: f in fields ==> !Fails(f, c)
            case Some(k) => exists i :: 0 <= i < |fields| && Fails(fields[i], c) && fields[i].key == k
                                        && forall j :: 0 <= j < i ==> !Fails(fields[j], c)
  {
    if fields != [] {
      var n := |fields| - 1;
      var front := fields[..n];
      FirstInvalidExactly(front, c);
      assert fields == front + [fields[n]];
      assert forall j :: 0 <= j < n ==> fields[j] == front[j];
      if FirstInvalid(front, c).None? && Fails(fields[n], c) {
        assert forall j :: 0 <= j < n ==> front[j] in front;
      } else if FirstInvalid(front, c).Some? {
        var i :| 0 <= i < n && Fails(front[i], c) && front[i].key == FirstInvalid(front, c).value
                 && forall j :: 0 <= j < i ==> !Fails(front[j], c);
        assert fields[i] == front[i];
      }
    }
  }

  // ---- When a step passes ----

  /** `fields[i]` fails and no later field with its key does: its message is the one that stays. */
  predicate LastFailure(fields: seq<Field>, c: Context, i: nat) {
    i < |fields| && Fails(fields[i], c) && forall j :: i < j < |fields| && fields[j].key == fields[i].key ==> !Fails(fields[j], c)
  }

  /** A last field leaves the failures before it standing, unless it fails under the same key. */
  lemma LastFailureStep(fields: seq<Field>, c: Context, i: nat)
    requires i < |fields| - 1
    ensures var f := fields[|fields| - 1];
            LastFailure(fields, c, i)
            <==> LastFailure(fields[..|fields| - 1], c, i) && !(f.key == fields[i].key && Fails(f, c))
  {
    var front := fields[..|fields| - 1];
    assert forall j :: 0 <= j < |front| ==> front[j] == fields[j];
  }

  lemma {:induction false} ErrorsAreLastFailures(fields: seq<Field>, c: Context, k: string)
    ensures k in ErrorsOf(fields, c) <==> exists i :: 0 <= i < |fields| && LastFailure(fields, c, i) && fields[i].key == k
    ensures forall i :: 0 <= i < |fields| && LastFailure(fields, c, i) && fields[i].key == k ==>
              k in ErrorsOf(fields, c) && ErrorsOf(fields, c)[k] == Message(fields[i], c)
  {
    var n := |fields|;
    if n > 0 {
      var front, f := fields[..n - 1], fields[n - 1];
      ErrorsAreLastFailures(front, c, k);
      forall i | 0 <= i < n - 1
        ensures front[i] == fields[i]
        ensures LastFailure(fields, c, i) <==> LastFailure(front, c, i) && !(f.key == fields[i].key && Fails(f, c))
      {
        LastFailureStep(fields, c, i);
      }
      if Fails(f, c) && f.key == k { assert LastFailure(fields, c, n - 1); }
    }
  }

  /** Exactly: every field whose failure stays has an empty message. */
  lemma PassesExactly(fields: seq<Field>, c: Context)
    ensures Passes(fields, c) <==> forall i :: 0 <= i < |fields| && LastFailure(fields, c, i) ==> Message(fields[i], c) == ""
  {
    forall i | 0 <= i < |fields| && LastFailure(fields, c, i)
      ensures fields[i].key in ErrorsOf(fields, c) && ErrorsOf(fields, c)[fields[i].key] == Message(fields[i], c)
    {
      ErrorsAreLastFailures(fields, c, fields[i].key);
    }
    forall k | k in ErrorsOf(fields, c)
      ensures exists i :: 0 <= i < |fields| && LastFailure(fields, c, i) && ErrorsOf(fields, c)[k] == Message(fields[i], c)
    {
      ErrorsAreLastFailures(fields, c, k);
    }
  }

  predicate SpeakingPatterns(fields: seq<Field>) {
    forall i :: 0 <= i < |fields| && fields[i].pattern.Some? ==> fields[i].pattern.value.message != ""
  }

  lemma {:induction false} SomeFailureStays(fields: seq<Field>, c: Context, i: nat) returns (last: nat)
    requires i < |fields| && Fails(fields[i], c)
    ensures i <= last < |fields| && fields[last].key == fields[i].key && LastFailure(fields, c, last)
    decreases |fields| - i
  {
    if LastFailure(fields, c, i) { last := i; }
    else {
      var j :| i < j < |fields| && fields[j].key == fields[i].key && Fails(fields[j], c);
      last := SomeFailureStays(fields, c, j);
    }
  }

  /** With no empty pattern message, a step passes exactly when every asked field meets its rule. */
  lemma PassesIffRulesMet(fields: seq<Field>, c: Context)
    requires SpeakingPatterns(fields)
    ensures Passes(fields, c) <==> forall i :: 0 <= i < |fields| && Asked(fields[i], c) ==> Met(fields[i], c)
  {
    PassesExactly(fields, c);
    if i :| 0 <= i < |fields| && Fails(fields[i], c) {
      var last := SomeFailureStays(fields, c, i);
      assert Message(fields[last], c) != "";
    }
  }

  /**
   * A pattern with an empty message would block nothing: the value fails it and the step passes.
   * No field definition of the repository has one.
   */
  lemma EmptyMessageLetsThrough(key: string, labelText: string, v: string, parsers: Parsers)
    requires key !in GEO_HANDLED_KEYS && key != "case_type_other" && Trim(v) != ""
    ensures var f := Field(key, labelText, Plain, true, map[], None, Some(Pattern(Some(_ => false), "")));
            var c := Context(map[key := v], None, parsers);
            Fails(f, c) && Passes([f], c)
  {
    var f := Field(key, labelText, Plain, true, map[], None, Some(Pattern(Some(_ => false), "")));
    var c := Context(map[key := v], None, parsers);
    PassesExactly([f], c);
  }

  // ---- The whole-form gate ----

  datatype Step = Step(title: string, fields: seq<Field>)

  /** `validateLocationStep` and `validateServiceStep` read these. */
  datatype FirstStep = FirstStep(consumerId: string, isFirFlow: bool, provinceId: string, districtId: string, cityId: string,
                                 serviceId: string, isJudicial: bool)

  predicate LocationOk(s: FirstStep) {
    s.consumerId != "" && (if s.isFirFlow then s.provinceId != "" && s.districtId != "" else s.cityId != "")
  }

  predicate ServiceOk(s: FirstStep, p: Payload) {
    s.serviceId != "" && (s.isJudicial ==> Value(p, "select_court").GetOr("") != "")
  }

  predicate FirstOk(s: FirstStep, p: Payload) { LocationOk(s) && ServiceOk(s, p) }

  /** The first step asks for a consumer, a place (a district for a FIR, else a city), a court and, for a judicial flow, a service. */
  lemma FirstStepExactly(s: FirstStep, p: Payload)
    ensures FirstOk(s, p)
            <==> && s.consumerId != "" && s.serviceId != ""
                 && (s.isFirFlow ==> s.provinceId != "" && s.districtId != "")
                 && (!s.isFirFlow ==> s.cityId != "")
                 && (s.isJudicial ==> "select_court" in p && p["select_court"] != "")
  {
  }

  /** Step number `n` (1-indexed) is the first that fails. */
  predicate FirstRejected(s: FirstStep, steps: seq<Step>, c: Context, n: nat) {
    if !FirstOk(s, c.payload) then n == 1
    else 2 <= n <= |steps| && !Passes(steps[n - 1].fields, c) && forall i :: 1 <= i < n - 1 ==> Passes(steps[i].fields, c)
  }

  predicate AllPass(s: FirstStep, steps: seq<Step>, c: Context) {
    FirstOk(s, c.payload) && forall i :: 1 <= i < |steps| ==> Passes(steps[i].fields, c)
  }

  class Gate {
    var draftStep: nat
    var touched: map<string, bool>
    var errors: map<string, string>
    var apiError: string

    constructor (step: nat)
      ensures draftStep == step && touched == map[] && errors == map[] && apiError == ""
    {
      draftStep, touched, errors, apiError := step, map[], map[], "";
    }

    /** `validateLocationStep() && validateServiceStep()`. */
    method ValidateFirst(s: FirstStep, p: Payload) returns (ok: bool)
      modifies this`apiError
      ensures ok <==> FirstOk(s, p)
      ensures ok ==> apiError == old(apiError)
      ensures !ok ==> apiError != ""
    {
      if s.consumerId == "" { apiError := "Please select a consumer"; return false; }
      if s.isFirFlow {
        if s.provinceId == "" { apiError := "Please select a province"; return false; }
        if s.districtId == "" { apiError := "Please select a district"; return false; }
      }
      if !s.isFirFlow && s.cityId == "" { apiError := "Please select a city"; return false; }
      if s.serviceId == "" { apiError := "Please select a court"; return false; }
      if s.isJudicial && Value(p, "select_court").GetOr("") == "" { apiError := "Please select a service"; return false; }
      return true;
    }

    /** `validateAllSteps`: true exactly when every step passes; otherwise the draft moves to the first that does not. */
    method ValidateAllSteps(s: FirstStep, steps: seq<Step>, c: Context) returns (ok: bool)
      modifies this
      ensures ok <==> AllPass(s, steps, c)
      ensures ok ==> draftStep == old(draftStep) && touched == old(touched) && errors == old(errors) && apiError == ""
      ensures !ok ==> FirstRejected(s, steps, c, draftStep) && apiError != ""
      ensures !ok && FirstOk(s, c.payload) ==>
                && errors == old(errors) + ErrorsOf(steps[draftStep - 1].fields, c)
                && touched == old(touched) + TouchedOf(steps[draftStep - 1].fields, c)
    {
      apiError := "";
      var first := ValidateFirst(s, c.payload);
      if !first {
        draftStep := 1;
        return false;
      }
      var i := 1;
      while i < |steps|
        invariant 1 <= i && (i <= |steps| || i == 1)
        invariant forall k :: 1 <= k < i && k < |steps| ==> Passes(steps[k].fields, c)
        invariant draftStep == old(draftStep) && touched == old(touched) && errors == old(errors) && apiError == ""
      {
        var newErrors, newTouched, _ := StepFieldErrors(steps[i].fields, c);
        if SomeMessage(newErrors) {
          touched := touched + newTouched;
          errors := errors + newErrors;
          draftStep := i + 1;
          apiError := "Please complete the highlighted required fields before submitting.";
          return false;
        }
        i := i + 1;
      }
      return true;
    }
  }

  // ---- The landing scan of a future-tickets prefill ----

  predicate Incomplete(f: Field, c: Context) {
    Required(f, c.tier) && Shown(f, c.payload) && f.key !in GEO_HANDLED_KEYS && !HasValue(Value(c.payload, f.key))
  }

  /** The scan looks at required, shown fields outside the pickers' keys, and at nothing but whether they are filled. */
  lemma IncompleteExactly(f: Field, c: Context)
    ensures Incomplete(f, c)
            <==> && IsRequired(f, c.tier) && IsShown(f, c.payload) && !Filled(c.payload, f.key)
                 && !PickersAnswer(f.key) && f.key != "station_id" && f.key != "city_type"
  {
    assert f.key in GEO_HANDLED_KEYS <==> PickersAnswer(f.key) || f.key == "station_id" || f.key == "city_type";
  }

  predicate StepIncomplete(st: Step, c: Context) {
    exists i :: 0 <= i < |st.fields| && Incomplete(st.fields[i], c)
  }

  /** The first incomplete step after the first, else the last. */
  predicate IsLanding(steps: seq<Step>, c: Context, land: nat) {
    && 1 <= land
    && (forall i :: 1 <= i < land - 1 && i < |steps| ==> !StepIncomplete(steps[i], c))
    && (|| (2 <= land <= |steps| && StepIncomplete(steps[land - 1], c))
        || (land == (if |steps| > 1 then |steps| else 1) && forall i :: 1 <= i < |steps| ==> !StepIncomplete(steps[i], c)))
  }

  /** The step number the prefill lands on. */
  method LandingStep(flowSteps: seq<Step>, c: Context) returns (land: nat)
    ensures IsLanding(flowSteps, c, land)
  {
    land := if |flowSteps| > 1 then |flowSteps| else 1;
    var i := 1;
    while i < |flowSteps|
      invariant 1 <= i && land == if |flowSteps| > 1 then |flowSteps| else 1
      invariant forall k :: 1 <= k < i && k < |flowSteps| ==> !StepIncomplete(flowSteps[k], c)
    {
      if exists k :: 0 <= k < |flowSteps[i].fields| && Incomplete(flowSteps[i].fields[k], c) {
        land := i + 1;
        break;
      }
      i := i + 1;
    }
  }

  /** Blank values are never a complete address or a named bench. */
  predicate BlankFails(parsers: Parsers, v: string) {
    Trim(v) == "" ==> !parsers.addressComplete(v) && !parsers.benchFilled(v)
  }

  /** How every flow declares `case_type_other`: shown only when the case type is "Other". */
  predicate OtherFieldShown(f: Field) {
    f.key == "case_type_other" ==> f.showWhen == Some(ShowWhen("case_type", Some("Other"), None, None))
  }

  predicate OtherFieldsShown(steps: seq<Step>) {
    forall i, k :: 0 <= i < |steps| && 0 <= k < |steps[i].fields| ==> OtherFieldShown(steps[i].fields[k])
  }

  /** A field the scan counts as incomplete is one the gate asks for, and it fails there. */
  lemma IncompleteFails(f: Field, c: Context)
    requires Incomplete(f, c) && OtherFieldShown(f) && forall v :: BlankFails(c.parsers, v)
    ensures Fails(f, c)
  {
    var v := Value(c.payload, f.key).GetOr("");
    assert BlankFails(c.parsers, v);
    assert Trim(v) == "" by { if f.key !in c.payload { assert Trim("") == ""; } }
  }

  /** The gate rejects every step the scan counts as incomplete. */
  lemma IncompleteStepIsRejected(st: Step, c: Context)
    requires StepIncomplete(st, c) && forall v :: BlankFails(c.parsers, v)
    requires forall k :: 0 <= k < |st.fields| ==> OtherFieldShown(st.fields[k])
    ensures !Passes(st.fields, c)
  {
    var i :| 0 <= i < |st.fields| && Incomplete(st.fields[i], c);
    IncompleteFails(st.fields[i], c);
    var last := SomeFailureStays(st.fields, c, i);
    assert Trim(Value(c.payload, st.fields[last].key).GetOr("")) == "" by { assert Trim("") == ""; }
    assert Message(st.fields[last], c) != "";
    PassesExactly(st.fields, c);
  }

  /**
   * For one list of steps, payload and tier, the gate's first rejection is never later than the step
   * the scan lands on; and when the scan stopped at an incomplete step, the gate does reject something.
   */
  lemma RejectedNotAfterLanding(s: FirstStep, steps: seq<Step>, c: Context, land: nat)
    requires OtherFieldsShown(steps) && forall v :: BlankFails(c.parsers, v)
    requires IsLanding(steps, c, land)
    ensures forall rejected: nat :: FirstRejected(s, steps, c, rejected) ==> rejected <= land
    ensures 2 <= land <= |steps| && StepIncomplete(steps[land - 1], c) ==> !AllPass(s, steps, c)
  {
    if 2 <= land <= |steps| && StepIncomplete(steps[land - 1], c) {
      IncompleteStepIsRejected(steps[land - 1], c);
    }
  }

  /** When the gate lets everything through, the scan has landed on the last step. */
  lemma PassingFormLandsLast(s: FirstStep, steps: seq<Step>, c: Context, land: nat)
    requires OtherFieldsShown(steps) && forall v :: BlankFails(c.parsers, v)
    requires IsLanding(steps, c, land) && AllPass(s, steps, c)
    ensures land == if |steps| > 1 then |steps| else 1
  {
    RejectedNotAfterLanding(s, steps, c, land);
  }
}
