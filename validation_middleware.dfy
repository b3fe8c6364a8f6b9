/**
 * `webapp/middleware/validationmiddleware.js`: a shared `isNonEmptyString`
 * and a `validateDog` and `validateMonkey` that test the required strings in
 * one disjunction with one generic message, then the same enums, numbers
 * and reserved flag as the stand-alone webapp middlewares.
 */
module ValidationMiddleware {
  import opened Wrappers
  import opened JsText
  import opened JsValues
  import opened Validation
  import WebappDog = WebappValidateDog
  import WebappMonkey = WebappValidateMonkey

  /** `isNonEmptyString`: a string that is not empty after `trim()`. */
  predicate NonEmptyString(v: JsValue)
  {
    v.Str? && Trim(v.s) != ""
  }

  /** The shared test holds exactly for strings with a non-whitespace character. */
  lemma NonEmptyStringMeaning(v: JsValue)
    ensures NonEmptyString(v) <==> v.Str? && !IsBlank(v.s)
    ensures NonEmptyString(v) == IsNonEmptyString(v)
  {
    if v.Str? {
      TrimEmptyIffBlank(v.s);
    }
  }

  const DogStringsError := "All required dog fields must be valid non-empty strings."
  const MonkeyStringsError := "All required monkey fields must be valid non-empty strings."
  const GenderError := "Invalid gender. Must be 'Male' or 'Female'."
  const DogStatusError := "Invalid training status for dog."
  const MonkeyStatusError := "Invalid training status for monkey."
  const ReservedError := "Reserved must be a boolean."

  function DogStringsOk(b: Body): bool
  {
    NonEmptyString(Get(b, "id")) && NonEmptyString(Get(b, "name")) && NonEmptyString(Get(b, "breed"))
    && NonEmptyString(Get(b, "gender")) && NonEmptyString(Get(b, "acquisitionDate"))
    && NonEmptyString(Get(b, "acquisitionLocation")) && NonEmptyString(Get(b, "trainingStatus"))
    && NonEmptyString(Get(b, "inServiceCountry"))
  }

  /** `validateDog`: the checks in source order. */
  function ValidateDog(b: Body): (r: Check)
    ensures r != Throws
    ensures !DogStringsOk(b) ==> r == Fail(DogStringsError)
  {
    if !DogStringsOk(b) then Fail(DogStringsError)
    else if Get(b, "gender").s !in ["Male", "Female"] then Fail(GenderError)
    else if Get(b, "trainingStatus").s !in ["Available", "In Service", "In Training"] then Fail(DogStatusError)
    else if !NotNegative(Get(b, "age")) then Fail("Age must be a non-negative number.")
    else if !NotNegative(Get(b, "weight")) then Fail("Weight must be a non-negative number.")
    else if !IsBoolean(Get(b, "reserved")) then Fail(ReservedError)
    else Pass
  }

  function MonkeyStringsOk(b: Body): bool
  {
    NonEmptyString(Get(b, "id")) && NonEmptyString(Get(b, "name")) && NonEmptyString(Get(b, "species"))
    && NonEmptyString(Get(b, "gender")) && NonEmptyString(Get(b, "acquisitionDate"))
    && NonEmptyString(Get(b, "acquisitionLocation")) && NonEmptyString(Get(b, "trainingStatus"))
    && NonEmptyString(Get(b, "inServiceCountry"))
  }

  /** `validateMonkey`: the checks in source order, one message per numeric field. */
  function ValidateMonkey(b: Body): (r: Check)
    ensures r != Throws
    ensures !MonkeyStringsOk(b) ==> r == Fail(MonkeyStringsError)
  {
    if !MonkeyStringsOk(b) then Fail(MonkeyStringsError)
    else if Get(b, "gender").s !in ["Male", "Female"] then Fail(GenderError)
    else if Get(b, "trainingStatus").s !in ["Available", "In Service", "In Training"] then Fail(MonkeyStatusError)
    else if !NotNegative(Get(b, "tailLength")) then Fail("Tail length must be a non-negative number.")
    else if !NotNegative(Get(b, "height")) then Fail("Height must be a non-negative number.")
    else if !NotNegative(Get(b, "bodyLength")) then Fail("Body length must be a non-negative number.")
    else if !NotNegative(Get(b, "age")) then Fail("Age must be a non-negative number.")
    else if !NotNegative(Get(b, "weight")) then Fail("Weight must be a non-negative number.")
    else if !IsBoolean(Get(b, "reserved")) then Fail(ReservedError)
    else Pass
  }

  /** The disjunction of string tests fails exactly when the webapp dog middleware's scan finds a key. */
  lemma DogStringsAgree(b: Body)
    ensures DogStringsOk(b) <==> FirstFailing(b, WebappDog.RequiredStrings, IsNonEmptyString).None?
  {
    var keys := WebappDog.RequiredStrings;
    forall i | 0 <= i < |keys| ensures NonEmptyString(Get(b, keys[i])) == IsNonEmptyString(Get(b, keys[i])) {
      NonEmptyStringMeaning(Get(b, keys[i]));
    }
    assert keys[0] == "id" && keys[1] == "name" && keys[2] == "breed" && keys[3] == "gender";
    assert keys[4] == "acquisitionDate" && keys[5] == "acquisitionLocation";
    assert keys[6] == "trainingStatus" && keys[7] == "inServiceCountry" && |keys| == 8;
    assert DogStringsOk(b) <==> forall i :: 0 <= i < |keys| ==> NonEmptyString(Get(b, keys[i]));
  }

  /**
   * `validateDog` here and in `webapp/middleware/validateDog.js` accept
   * exactly the same bodies; only the messages of refusals differ.
   */
  lemma DogSameAcceptance(b: Body)
    ensures ValidateDog(b).Pass? <==> WebappDog.Validate(b).Pass?
    ensures ValidateDog(b).Fail? <==> WebappDog.Validate(b).Fail?
  {
    DogStringsAgree(b);
  }

  lemma MonkeyStringsAgree(b: Body)
    ensures MonkeyStringsOk(b) <==> FirstFailing(b, WebappMonkey.RequiredStrings, IsNonEmptyString).None?
  {
    var keys := WebappMonkey.RequiredStrings;
    forall i | 0 <= i < |keys| ensures NonEmptyString(Get(b, keys[i])) == IsNonEmptyString(Get(b, keys[i])) {
      NonEmptyStringMeaning(Get(b, keys[i]));
    }
    assert keys[0] == "id" && keys[1] == "name" && keys[2] == "species" && keys[3] == "gender";
    assert keys[4] == "acquisitionDate" && keys[5] == "acquisitionLocation";
    assert keys[6] == "trainingStatus" && keys[7] == "inServiceCountry" && |keys| == 8;
    assert MonkeyStringsOk(b) <==> forall i :: 0 <= i < |keys| ==> NonEmptyString(Get(b, keys[i]));
  }

  /**
   * `validateMonkey` here and in `webapp/middleware/validateMonkey.js` accept
   * exactly the same bodies; only the messages of refusals differ.
   */
  lemma MonkeySameAcceptance(b: Body)
    ensures ValidateMonkey(b).Pass? <==> WebappMonkey.Validate(b).Pass?
    ensures ValidateMonkey(b).Fail? <==> WebappMonkey.Validate(b).Fail?
  {
    MonkeyStringsAgree(b);
    MonkeyNumbersAgree(b);
  }

  lemma MonkeyNumbersAgree(b: Body)
    ensures (NotNegative(Get(b, "tailLength")) && NotNegative(Get(b, "height"))
             && NotNegative(Get(b, "bodyLength")) && NotNegative(Get(b, "age"))
             && NotNegative(Get(b, "weight")))
            <==> FirstFailing(b, WebappMonkey.NumericFields, NotNegative).None?
  {
    var keys := WebappMonkey.NumericFields;
    assert keys[0] == "tailLength" && keys[1] == "height" && keys[2] == "bodyLength";
    assert keys[3] == "age" && keys[4] == "weight" && |keys| == 5;
  }
}
