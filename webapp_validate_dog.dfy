/**
 * `validateDog` of `webapp/middleware/validateDog.js`: eight required
 * strings (the acquisition fields included), gender and trainingStatus from
 * capitalised enums compared exactly, non-negative age and weight, boolean
 * reserved. The body is read, never written.
 */
module WebappValidateDog {
  import opened Wrappers
  import opened JsText
  import opened JsValues
  import opened Validation

  const RequiredStrings: seq<string> :=
    ["id", "name", "breed", "gender", "acquisitionDate", "acquisitionLocation", "trainingStatus", "inServiceCountry"]
  const Genders: seq<string> := ["Male", "Female"]
  const Statuses: seq<string> := ["Available", "In Service", "In Training"]

  const GenderError := "Invalid gender. Must be 'Male' or 'Female'."
  const StatusError := "Invalid trainingStatus. Must be one of: 'Available', 'In Service', 'In Training'."
  const AgeError := "Age must be a non-negative number."
  const WeightError := "Weight must be a non-negative number."
  const ReservedError := "Reserved must be a boolean (true or false)."

  function MissingError(key: string): string
  {
    "Missing or invalid field: " + key
  }

  /** Every condition the body has to meet, stated all at once. */
  predicate Accepted(b: Body)
  {
    (forall k :: k in RequiredStrings ==> IsNonEmptyString(Get(b, k)))
    && Get(b, "gender").Str? && Get(b, "gender").s in Genders
    && Get(b, "trainingStatus").Str? && Get(b, "trainingStatus").s in Statuses
    && NotNegative(Get(b, "age")) && NotNegative(Get(b, "weight"))
    && IsBoolean(Get(b, "reserved"))
  }

  /** The checks in source order; the first that fails decides the answer. */
  function Validate(b: Body): (r: Check)
    ensures r != Throws
    ensures r.Pass? <==> Accepted(b)
  {
    var missing := FirstFailing(b, RequiredStrings, IsNonEmptyString);
    if missing.Some? then Fail(MissingError(missing.value))
    else
      assert IsNonEmptyString(Get(b, RequiredStrings[3])) && IsNonEmptyString(Get(b, RequiredStrings[6]));
      if Get(b, "gender").s !in Genders then Fail(GenderError)
      else if Get(b, "trainingStatus").s !in Statuses then Fail(StatusError)
      else if !NotNegative(Get(b, "age")) then Fail(AgeError)
      else if !NotNegative(Get(b, "weight")) then Fail(WeightError)
      else if !IsBoolean(Get(b, "reserved")) then Fail(ReservedError)
      else Pass
  }

  /** The first required string that fails is the one reported. */
  lemma FirstMissingWins(b: Body, i: int)
    requires 0 <= i < |RequiredStrings| && !IsNonEmptyString(Get(b, RequiredStrings[i]))
    requires forall j :: 0 <= j < i ==> IsNonEmptyString(Get(b, RequiredStrings[j]))
    ensures Validate(b) == Fail(MissingError(RequiredStrings[i]))
  {
    FirstFailingAt(b, RequiredStrings, IsNonEmptyString, i);
  }

  /** The gender check is case-sensitive: "male" is refused. */
  lemma GenderIsCaseSensitive(b: Body)
    requires forall k :: k in RequiredStrings ==> IsNonEmptyString(Get(b, k))
    requires Get(b, "gender") == Str("male")
    ensures Validate(b) == Fail(GenderError)
  {
    assert FirstFailing(b, RequiredStrings, IsNonEmptyString) == None;
  }

  /** With both age and weight negative, the age error is the one reported. */
  lemma AgeReportedBeforeWeight(b: Body)
    requires forall k :: k in RequiredStrings ==> IsNonEmptyString(Get(b, k))
    requires Get(b, "gender").Str? && Get(b, "gender").s in Genders
    requires Get(b, "trainingStatus").Str? && Get(b, "trainingStatus").s in Statuses
    requires Get(b, "age") == Number(Finite(-1.0)) && Get(b, "weight") == Number(Finite(-1.0))
    ensures Validate(b) == Fail(AgeError)
  {
    assert FirstFailing(b, RequiredStrings, IsNonEmptyString) == None;
  }

  /** A reserved flag given as the string "yes" is refused. */
  lemma StringReservedRefused(b: Body)
    requires Get(b, "reserved") == Str("yes")
    ensures !Validate(b).Pass?
  {
  }
}
