/**
 * The second `validateMonkey`, kept in
 * `webapp/backend/middleware/validateMonkey.test.js`: the same checks and
 * messages as the backend middleware, except that gender, trainingStatus and
 * species are lower-cased with `v?.toLowerCase()` before anything is checked,
 * which throws for a value that is neither nullish nor a string.
 */
module NormalisingValidateMonkey {
  import opened Wrappers
  import opened JsText
  import opened JsValues
  import opened Validation
  import Backend = BackendValidateMonkey

  /** `v?.toLowerCase()` throws: `v` is a number, a boolean or an object. */
  predicate LowerThrows(v: JsValue)
  {
    !(v.Undefined? || v.Null? || v.Str?)
  }

  /** `v?.toLowerCase()` when it does not throw: `undefined` for a nullish value. */
  function OptionalLower(v: JsValue): (r: JsValue)
    requires !LowerThrows(v)
    ensures v.Str? ==> r == Str(Lower(v.s))
    ensures !v.Str? ==> r == Undefined
  {
    if v.Str? then Str(Lower(v.s)) else Undefined
  }

  /** `allowed.includes(v)`: only a string can be one of the allowed values. */
  predicate Allowed(allowed: seq<string>, v: JsValue)
  {
    v.Str? && v.s in allowed
  }

  /** The early normalisation followed by the read-only checks, in source order. */
  function Checks(b: Body, dateParses: string -> bool): (r: Check)
    ensures r.Throws? <==> LowerThrows(Get(b, "gender")) || LowerThrows(Get(b, "trainingStatus"))
                           || LowerThrows(Get(b, "species"))
  {
    if LowerThrows(Get(b, "gender")) || LowerThrows(Get(b, "trainingStatus")) || LowerThrows(Get(b, "species")) then
      Throws
    else
      var normalizedGender := OptionalLower(Get(b, "gender"));
      var normalizedTrainingStatus := OptionalLower(Get(b, "trainingStatus"));
      var normalizedSpecies := OptionalLower(Get(b, "species"));
      var missing := FirstFailing(b, Backend.RequiredStrings, IsNonEmptyString);
      if missing.Some? then Fail(Backend.MissingError(missing.value))
      else if !Allowed(Backend.Genders, normalizedGender) then Fail(Backend.GenderError)
      else if !Allowed(Backend.Statuses, normalizedTrainingStatus) then Fail(Backend.StatusError)
      else if !Allowed(Backend.Species, normalizedSpecies) then Fail(Backend.SpeciesError)
      else if !Backend.DateValid(Get(b, "acquisitionDate"), dateParses) then Fail(Backend.DateError)
      else
        var negative := FirstFailing(b, Backend.NumericFields, NonNegativeNumber);
        if negative.Some? then Fail(Backend.NumberError(negative.value))
        else if !IsBoolean(Get(b, "reserved")) then Fail(Backend.ReservedError)
        else Pass
  }

  /**
   * The middleware: on success `req.body` receives the three lower-cased
   * values, one field at a time.
   */
  method Validate(req: Request, dateParses: string -> bool) returns (r: Check)
    modifies req
    ensures r == Checks(old(req.body), dateParses)
    ensures r.Pass? ==> req.body == Backend.Normalised(old(req.body))
    ensures !r.Pass? ==> req.body == old(req.body)
  {
    r := Checks(req.body, dateParses);
    if !r.Pass? {
      return;
    }
    assert IsNonEmptyString(Get(req.body, Backend.RequiredStrings[2]))
           && IsNonEmptyString(Get(req.body, Backend.RequiredStrings[3]))
           && IsNonEmptyString(Get(req.body, Backend.RequiredStrings[5]));
    var normalizedGender := OptionalLower(Get(req.body, "gender"));
    var normalizedTrainingStatus := OptionalLower(Get(req.body, "trainingStatus"));
    var normalizedSpecies := OptionalLower(Get(req.body, "species"));
    req.body := req.body["gender" := normalizedGender];
    req.body := req.body["trainingStatus" := normalizedTrainingStatus];
    req.body := req.body["species" := normalizedSpecies];
  }

  /**
   * When none of the three enum fields holds a number, boolean or object,
   * this validator answers exactly as the backend middleware does.
   */
  lemma SameAsBackend(b: Body, dateParses: string -> bool)
    requires !LowerThrows(Get(b, "gender")) && !LowerThrows(Get(b, "trainingStatus"))
    requires !LowerThrows(Get(b, "species"))
    ensures Checks(b, dateParses) == Backend.Checks(b, dateParses)
  {
    if FirstFailing(b, Backend.RequiredStrings, IsNonEmptyString).None? {
      assert IsNonEmptyString(Get(b, Backend.RequiredStrings[2]))
             && IsNonEmptyString(Get(b, Backend.RequiredStrings[3]))
             && IsNonEmptyString(Get(b, Backend.RequiredStrings[5]));
    }
  }

  /**
   * A numeric gender throws here, where the backend middleware answers 400
   * naming the field (the fields checked before it being valid).
   */
  lemma NumericGenderThrows(b: Body, dateParses: string -> bool)
    requires Get(b, "gender") == Number(Finite(1.0))
    requires IsNonEmptyString(Get(b, "id")) && IsNonEmptyString(Get(b, "name"))
    requires IsNonEmptyString(Get(b, "species"))
    ensures Checks(b, dateParses) == Throws
    ensures Backend.Checks(b, dateParses) == Fail(Backend.MissingError("gender"))
  {
    FirstFailingAt(b, Backend.RequiredStrings, IsNonEmptyString, 3);
  }
}
