/**
 * `validateMonkey` of `webapp/middleware/validateMonkey.js`: eight required
 * strings, gender and trainingStatus from capitalised enums compared exactly,
 * no check of species beyond being a non-blank string, five non-negative
 * numbers and a boolean reserved. The body is read, never written.
 */
module WebappValidateMonkey {
  import opened Wrappers
  import opened JsText
  import opened JsValues
  import opened Validation

  const RequiredStrings: seq<string> :=
    ["id", "name", "species", "gender", "acquisitionDate", "acquisitionLocation", "trainingStatus", "inServiceCountry"]
  const NumericFields: seq<string> := ["tailLength", "height", "bodyLength", "age", "weight"]
  const Genders: seq<string> := ["Male", "Female"]
  const Statuses: seq<string> := ["Available", "In Service", "In Training"]

  const GenderError := "Invalid gender. Must be 'Male' or 'Female'."
  const StatusError := "Invalid trainingStatus. Must be one of: Available, In Service, In Training."
  const ReservedError := "Reserved must be a boolean value."

  function MissingError(field: string): string
  {
    "Missing or invalid field: " + field
  }

  function NumberError(field: string): string
  {
    field + " must be a non-negative number."
  }

  /** Every condition the body has to meet, stated all at once. */
  predicate Accepted(b: Body)
  {
    (forall k :: k in RequiredStrings ==> IsNonEmptyString(Get(b, k)))
    && Get(b, "gender").Str? && Get(b, "gender").s in Genders
    && Get(b, "trainingStatus").Str? && Get(b, "trainingStatus").s in Statuses
    && (forall k :: k in NumericFields ==> NotNegative(Get(b, k)))
    && IsBoolean(Get(b, "reserved"))
  }

  /**
   * The checks in source order; the first that fails decides the answer.
   * `isNonEmptyString` is written `val.trim() !== ""` here, the same test as
   * a positive trimmed length.
   */
  function Validate(b: Body): (r: Check)
    ensures r != Throws
    ensures r.Pass? <==> Accepted(b)
  {
    var missing := FirstFailing(b, RequiredStrings, IsNonEmptyString);
    if missing.Some? then Fail(MissingError(missing.value))
    else
      assert IsNonEmptyString(Get(b, RequiredStrings[3])) && IsNonEmptyString(Get(b, RequiredStrings[6]));
      if Get(b, "gender").s !in Genders then Fail(GenderError)
      else if Get(b, "trainingStatus").s !in Statuses then Fail(StatusError)
      else
        var negative := FirstFailing(b, NumericFields, NotNegative);
        if negative.Some? then Fail(NumberError(negative.value))
        else if !IsBoolean(Get(b, "reserved")) then Fail(ReservedError)
        else Pass
  }

  /** The first required string that fails is the one reported. */
  lemma FirstMissingWins(b: Body, i: int)
    requires 0 <= i < |RequiredStrings| && !IsNonEmptyString(Get(b, RequiredStrings[i]))
    requires forall j :: 0 <= j < i ==> IsNonEmptyString(Get(b, RequiredStrings[j]))
    ensures Validate(b) == Fail(MissingError(RequiredStrings[i]))
  {
    FirstFailingAt(b, RequiredStrings, IsNonEmptyString, i);
  }

  /** Once the strings and enums pass, the first numeric field that fails is the one reported. */
  lemma FirstNegativeWins(b: Body, i: int)
    requires forall k :: k in RequiredStrings ==> IsNonEmptyString(Get(b, k))
    requires Get(b, "gender").Str? && Get(b, "gender").s in Genders
    requires Get(b, "trainingStatus").Str? && Get(b, "trainingStatus").s in Statuses
    requires 0 <= i < |NumericFields| && !NotNegative(Get(b, NumericFields[i]))
    requires forall j :: 0 <= j < i ==> NotNegative(Get(b, NumericFields[j]))
    ensures Validate(b) == Fail(NumberError(NumericFields[i]))
  {
    assert FirstFailing(b, RequiredStrings, IsNonEmptyString) == None;
    FirstFailingAt(b, NumericFields, NotNegative, i);
  }

  /** Any non-blank species is as good as any other: there is no species enum. */
  lemma AnySpeciesAccepted(b: Body, s: string)
    requires IsNonEmptyString(Get(b, "species")) && IsNonEmptyString(Str(s))
    ensures Validate(b["species" := Str(s)]) == Validate(b)
  {
    var b1 := b["species" := Str(s)];
    SpeciesStringChecks(b, s);
    FirstFailingUnread(b, NumericFields, NotNegative, "species", Str(s));
    assert Get(b1, "gender") == Get(b, "gender") && Get(b1, "trainingStatus") == Get(b, "trainingStatus");
    assert Get(b1, "reserved") == Get(b, "reserved");
  }

  lemma SpeciesStringChecks(b: Body, s: string)
    requires IsNonEmptyString(Get(b, "species")) && IsNonEmptyString(Str(s))
    ensures FirstFailing(b["species" := Str(s)], RequiredStrings, IsNonEmptyString)
            == FirstFailing(b, RequiredStrings, IsNonEmptyString)
  {
    var b1 := b["species" := Str(s)];
    forall i | 0 <= i < |RequiredStrings|
      ensures IsNonEmptyString(Get(b1, RequiredStrings[i])) == IsNonEmptyString(Get(b, RequiredStrings[i]))
    {
      if RequiredStrings[i] != "species" {
        assert Get(b1, RequiredStrings[i]) == Get(b, RequiredStrings[i]);
      }
    }
    FirstFailingAgree(b1, b, RequiredStrings, IsNonEmptyString);
  }
}
