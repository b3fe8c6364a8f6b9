/**
 * `validateDog` of `webapp/backend/middleware/validateDog.js`: six required
 * strings, gender and trainingStatus from lower-case enums compared after
 * lower-casing, non-negative age and weight, boolean reserved. The body is
 * read, never written; acquisitionDate and acquisitionLocation are not read.
 */
module BackendValidateDog {
  import opened Wrappers
  import opened JsText
  import opened JsValues
  import opened Validation

  const RequiredStrings: seq<string> := ["id", "name", "breed", "gender", "trainingStatus", "inServiceCountry"]
  const Genders: seq<string> := ["male", "female"]
  const Statuses: seq<string> := ["intensive", "basic", "none"]

  const GenderError := "Invalid gender. Must be 'male' or 'female'."
  const StatusError := "Invalid trainingStatus. Must be 'intensive', 'basic', or 'none'."
  const AgeError := "Age must be a non-negative number."
  const WeightError := "Weight must be a non-negative number."
  const ReservedError := "Reserved must be a boolean (true or false)."

  function MissingError(key: string): string
  {
    "Missing or invalid field: " + key
  }

  /** Every condition the body has to meet, stated all at once. */
  predicate Accepted(b: Body)
  {
    (forall k :: k in RequiredStrings ==> IsNonEmptyString(Get(b, k)))
    && Get(b, "gender").Str? && Lower(Get(b, "gender").s) in Genders
    && Get(b, "trainingStatus").Str? && Lower(Get(b, "trainingStatus").s) in Statuses
    && NotNegative(Get(b, "age")) && NotNegative(Get(b, "weight"))
    && IsBoolean(Get(b, "reserved"))
  }

  /** The checks in source order; the first that fails decides the answer. */
  function Validate(b: Body): (r: Check)
    ensures r != Throws
    ensures r.Pass? <==> Accepted(b)
    ensures r.Fail? && (forall k :: k in RequiredStrings ==> IsNonEmptyString(Get(b, k))) ==>
              r.error in {GenderError, StatusError, AgeError, WeightError, ReservedError}
  {
    var missing := FirstFailing(b, RequiredStrings, IsNonEmptyString);
    if missing.Some? then Fail(MissingError(missing.value))
    else
      assert IsNonEmptyString(Get(b, RequiredStrings[3])) && IsNonEmptyString(Get(b, RequiredStrings[4]));
      if Lower(Get(b, "gender").s) !in Genders then Fail(GenderError)
      else if Lower(Get(b, "trainingStatus").s) !in Statuses then Fail(StatusError)
      else if !NotNegative(Get(b, "age")) then Fail(AgeError)
      else if !NotNegative(Get(b, "weight")) then Fail(WeightError)
      else if !IsBoolean(Get(b, "reserved")) then Fail(ReservedError)
      else Pass
  }

  /** The first required string that is missing, not a string, or blank is the one reported. */
  lemma FirstMissingWins(b: Body, i: int)
    requires 0 <= i < |RequiredStrings| && !IsNonEmptyString(Get(b, RequiredStrings[i]))
    requires forall j :: 0 <= j < i ==> IsNonEmptyString(Get(b, RequiredStrings[j]))
    ensures Validate(b) == Fail(MissingError(RequiredStrings[i]))
  {
    FirstFailingAt(b, RequiredStrings, IsNonEmptyString, i);
  }

  /** With the strings and enums valid, a negative age is reported even when the weight is negative too. */
  lemma AgeReportedBeforeWeight(b: Body)
    requires forall k :: k in RequiredStrings ==> IsNonEmptyString(Get(b, k))
    requires Get(b, "gender").Str? && Lower(Get(b, "gender").s) in Genders
    requires Get(b, "trainingStatus").Str? && Lower(Get(b, "trainingStatus").s) in Statuses
    requires Get(b, "age") == Number(Finite(-1.0)) && Get(b, "weight") == Number(Finite(-1.0))
    ensures Validate(b) == Fail(AgeError)
  {
    assert FirstFailing(b, RequiredStrings, IsNonEmptyString) == None;
  }

  /** acquisitionDate and acquisitionLocation play no part: changing them changes nothing. */
  lemma AcquisitionFieldsIgnored(b: Body, k: string, v: JsValue)
    requires k == "acquisitionDate" || k == "acquisitionLocation"
    ensures Validate(b[k := v]) == Validate(b)
  {
    var b1 := b[k := v];
    FirstFailingUnread(b, RequiredStrings, IsNonEmptyString, k, v);
    assert Get(b1, "gender") == Get(b, "gender");
    assert Get(b1, "trainingStatus") == Get(b, "trainingStatus");
    assert Get(b1, "age") == Get(b, "age") && Get(b1, "weight") == Get(b, "weight");
    assert Get(b1, "reserved") == Get(b, "reserved");
    SameView(b1, b);
  }

  /** gender and trainingStatus are accepted in any letter case. */
  lemma EnumsIgnoreCase(b: Body, k: string, s: string)
    requires k == "gender" || k == "trainingStatus"
    ensures Validate(b[k := Str(Lower(s))]) == Validate(b[k := Str(s)])
  {
    var b1, b2 := b[k := Str(Lower(s))], b[k := Str(s)];
    SameStringChecks(b, k, s);
    LowerIdempotent(s);
    assert Get(b1, "age") == Get(b2, "age") && Get(b1, "weight") == Get(b2, "weight");
    assert Get(b1, "reserved") == Get(b2, "reserved");
    if k == "gender" {
      assert Get(b1, "trainingStatus") == Get(b2, "trainingStatus");
    } else {
      assert Get(b1, "gender") == Get(b2, "gender");
    }
    SameView(b1, b2);
  }

  lemma SameStringChecks(b: Body, k: string, s: string)
    ensures FirstFailing(b[k := Str(Lower(s))], RequiredStrings, IsNonEmptyString)
            == FirstFailing(b[k := Str(s)], RequiredStrings, IsNonEmptyString)
  {
    LowerKeepsNonEmpty(s);
    var b1, b2 := b[k := Str(Lower(s))], b[k := Str(s)];
    forall i | 0 <= i < |RequiredStrings|
      ensures IsNonEmptyString(Get(b1, RequiredStrings[i])) == IsNonEmptyString(Get(b2, RequiredStrings[i]))
    {
      if RequiredStrings[i] != k {
        assert Get(b1, RequiredStrings[i]) == Get(b2, RequiredStrings[i]);
      }
    }
    FirstFailingAgree(b1, b2, RequiredStrings, IsNonEmptyString);
  }

  /** Two bodies that agree on everything the checks look at get the same answer. */
  lemma SameView(b1: Body, b2: Body)
    requires FirstFailing(b1, RequiredStrings, IsNonEmptyString) == FirstFailing(b2, RequiredStrings, IsNonEmptyString)
    requires Get(b1, "gender").Str? == Get(b2, "gender").Str?
    requires Get(b1, "gender").Str? ==> Lower(Get(b1, "gender").s) == Lower(Get(b2, "gender").s)
    requires Get(b1, "trainingStatus").Str? == Get(b2, "trainingStatus").Str?
    requires Get(b1, "trainingStatus").Str? ==> Lower(Get(b1, "trainingStatus").s) == Lower(Get(b2, "trainingStatus").s)
    requires Get(b1, "age") == Get(b2, "age") && Get(b1, "weight") == Get(b2, "weight")
    requires Get(b1, "reserved") == Get(b2, "reserved")
    ensures Validate(b1) == Validate(b2)
  {
    if FirstFailing(b1, RequiredStrings, IsNonEmptyString).None? {
      assert IsNonEmptyString(Get(b1, RequiredStrings[3])) && IsNonEmptyString(Get(b1, RequiredStrings[4]));
      assert IsNonEmptyString(Get(b2, RequiredStrings[3])) && IsNonEmptyString(Get(b2, RequiredStrings[4]));
    }
  }
}
