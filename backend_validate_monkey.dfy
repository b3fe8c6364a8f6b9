/**
 * `validateMonkey` of `webapp/backend/middleware/validateMonkey.js`: seven
 * required strings, gender, trainingStatus and species from lower-case enums
 * compared after lower-casing, a parseable acquisitionDate, five non-negative
 * numbers and a boolean reserved. On success it rewrites gender,
 * trainingStatus and species in the request body to their lower-case forms.
 */
module BackendValidateMonkey {
  import opened Wrappers
  import opened JsText
  import opened JsValues
  import opened Validation

  const RequiredStrings: seq<string> :=
    ["id", "name", "species", "gender", "acquisitionLocation", "trainingStatus", "inServiceCountry"]
  const NumericFields: seq<string> := ["tailLength", "height", "bodyLength", "age", "weight"]
  const Genders: seq<string> := ["male", "female"]
  const Statuses: seq<string> := ["intensive", "basic", "none"]
  const Species: seq<string> := ["capuchin", "guenon", "macaque", "marmoset", "squirrel monkey", "tamarin"]

  const GenderError := "Invalid gender. Must be 'male' or 'female'."
  const StatusError := "Invalid trainingStatus. Must be 'intensive', 'basic', or 'none'."
  const SpeciesError := "Invalid species. Must be one of: capuchin, guenon, macaque, marmoset, squirrel monkey, tamarin"
  const DateError := "'acquisitionDate' must be a valid date string."
  const ReservedError := "'reserved' must be a boolean value."

  function MissingError(field: string): string
  {
    "Missing or invalid string field: '" + field + "'"
  }

  function NumberError(field: string): string
  {
    "'" + field + "' must be a non-negative number."
  }

  /** `isNonEmptyString(acquisitionDate) && !isNaN(Date.parse(acquisitionDate))`. */
  predicate DateValid(v: JsValue, dateParses: string -> bool)
  {
    IsNonEmptyString(v) && dateParses(v.s)
  }

  predicate StringsPresent(b: Body)
  {
    forall k :: k in RequiredStrings ==> IsNonEmptyString(Get(b, k))
  }

  /** The three enum fields are strings whose lower-case forms are allowed values. */
  predicate EnumsValid(b: Body)
  {
    Get(b, "gender").Str? && Lower(Get(b, "gender").s) in Genders
    && Get(b, "trainingStatus").Str? && Lower(Get(b, "trainingStatus").s) in Statuses
    && Get(b, "species").Str? && Lower(Get(b, "species").s) in Species
  }

  predicate OthersValid(b: Body, dateParses: string -> bool)
  {
    DateValid(Get(b, "acquisitionDate"), dateParses)
    && (forall k :: k in NumericFields ==> NonNegativeNumber(Get(b, k)))
    && IsBoolean(Get(b, "reserved"))
  }

  /** Every condition the body has to meet, stated all at once. */
  predicate Accepted(b: Body, dateParses: string -> bool)
  {
    StringsPresent(b) && EnumsValid(b) && OthersValid(b, dateParses)
  }

  /**
   * The read-only checks in source order; the first that fails decides the
   * answer. `dateParses` stands for `!isNaN(Date.parse(s))`.
   */
  function Checks(b: Body, dateParses: string -> bool): (r: Check)
    ensures r != Throws
    ensures r.Pass? <==> Accepted(b, dateParses)
  {
    var missing := FirstFailing(b, RequiredStrings, IsNonEmptyString);
    if missing.Some? then Fail(MissingError(missing.value))
    else
      assert IsNonEmptyString(Get(b, RequiredStrings[2])) && IsNonEmptyString(Get(b, RequiredStrings[3]))
             && IsNonEmptyString(Get(b, RequiredStrings[5]));
      if Lower(Get(b, "gender").s) !in Genders then Fail(GenderError)
      else if Lower(Get(b, "trainingStatus").s) !in Statuses then Fail(StatusError)
      else if Lower(Get(b, "species").s) !in Species then Fail(SpeciesError)
      else if !DateValid(Get(b, "acquisitionDate"), dateParses) then Fail(DateError)
      else
        var negative := FirstFailing(b, NumericFields, NonNegativeNumber);
        if negative.Some? then Fail(NumberError(negative.value))
        else if !IsBoolean(Get(b, "reserved")) then Fail(ReservedError)
        else Pass
  }

  /** The body after the rewrite: the three enum fields lower-cased, nothing else touched. */
  function Normalised(b: Body): (r: Body)
    requires Get(b, "gender").Str? && Get(b, "trainingStatus").Str? && Get(b, "species").Str?
    ensures r.Keys == b.Keys
    ensures forall k :: k !in {"gender", "trainingStatus", "species"} ==> Get(r, k) == Get(b, k)
    ensures Get(r, "gender") == Str(Lower(Get(b, "gender").s))
    ensures Get(r, "trainingStatus") == Str(Lower(Get(b, "trainingStatus").s))
    ensures Get(r, "species") == Str(Lower(Get(b, "species").s))
  {
    b["gender" := Str(Lower(Get(b, "gender").s))]
     ["trainingStatus" := Str(Lower(Get(b, "trainingStatus").s))]
     ["species" := Str(Lower(Get(b, "species").s))]
  }

  /**
   * The middleware: run the checks, and on success write the normalised
   * enum values into `req.body` one field at a time.
   */
  method Validate(req: Request, dateParses: string -> bool) returns (r: Check)
    modifies req
    ensures r == Checks(old(req.body), dateParses)
    ensures r.Pass? ==> req.body == Normalised(old(req.body))
    ensures !r.Pass? ==> req.body == old(req.body)
  {
    r := Checks(req.body, dateParses);
    if !r.Pass? {
      return;
    }
    ghost var before := req.body;
    var normalizedGender := Lower(Get(req.body, "gender").s);
    var normalizedTrainingStatus := Lower(Get(req.body, "trainingStatus").s);
    var species := Get(req.body, "species").s;
    var normalizedSpecies := Lower(species);
    assert EnumsValid(before);
    assert normalizedSpecies in Species;
    req.body := req.body["gender" := Str(normalizedGender)];
    req.body := req.body["trainingStatus" := Str(normalizedTrainingStatus)];
    req.body := req.body["species" := Str(if normalizedSpecies in Species then normalizedSpecies else species)];
    assert req.body == before["gender" := Str(normalizedGender)]["trainingStatus" := Str(normalizedTrainingStatus)]
                             ["species" := Str(normalizedSpecies)];
  }

  /** The first required string that fails is the one reported. */
  lemma FirstMissingWins(b: Body, dateParses: string -> bool, i: int)
    requires 0 <= i < |RequiredStrings| && !IsNonEmptyString(Get(b, RequiredStrings[i]))
    requires forall j :: 0 <= j < i ==> IsNonEmptyString(Get(b, RequiredStrings[j]))
    ensures Checks(b, dateParses) == Fail(MissingError(RequiredStrings[i]))
  {
    FirstFailingAt(b, RequiredStrings, IsNonEmptyString, i);
  }

  /** Once everything before the numbers passes, the first numeric field that fails is the one reported. */
  lemma FirstNegativeWins(b: Body, dateParses: string -> bool, i: int)
    requires forall k :: k in RequiredStrings ==> IsNonEmptyString(Get(b, k))
    requires Get(b, "gender").Str? && Lower(Get(b, "gender").s) in Genders
    requires Get(b, "trainingStatus").Str? && Lower(Get(b, "trainingStatus").s) in Statuses
    requires Get(b, "species").Str? && Lower(Get(b, "species").s) in Species
    requires DateValid(Get(b, "acquisitionDate"), dateParses)
    requires 0 <= i < |NumericFields| && !NonNegativeNumber(Get(b, NumericFields[i]))
    requires forall j :: 0 <= j < i ==> NonNegativeNumber(Get(b, NumericFields[j]))
    ensures Checks(b, dateParses) == Fail(NumberError(NumericFields[i]))
  {
    assert FirstFailing(b, RequiredStrings, IsNonEmptyString) == None;
    FirstFailingAt(b, NumericFields, NonNegativeNumber, i);
  }

  /**
   * Validating an already-normalised body accepts it and leaves it as it
   * is: the rewrite is idempotent.
   */
  lemma Idempotent(b: Body, dateParses: string -> bool)
    requires Checks(b, dateParses).Pass?
    ensures Checks(Normalised(b), dateParses).Pass?
    ensures Normalised(Normalised(b)) == Normalised(b)
  {
    NormalisedAccepted(b, dateParses);
    NormalisedFixed(b);
  }

  lemma NormalisedAccepted(b: Body, dateParses: string -> bool)
    requires Accepted(b, dateParses)
    ensures Accepted(Normalised(b), dateParses)
  {
    NormalisedStrings(b);
    NormalisedEnums(b);
    NormalisedOthers(b, dateParses);
  }

  lemma NormalisedStrings(b: Body)
    requires StringsPresent(b) && EnumsValid(b)
    ensures StringsPresent(Normalised(b))
  {
    var n := Normalised(b);
    forall k | k in RequiredStrings ensures IsNonEmptyString(Get(n, k)) {
      if k in {"gender", "trainingStatus", "species"} {
        LowerKeepsNonEmpty(Get(b, k).s);
      } else {
        assert Get(n, k) == Get(b, k);
      }
    }
  }

  lemma NormalisedEnums(b: Body)
    requires EnumsValid(b)
    ensures EnumsValid(Normalised(b))
  {
    LowerIdempotent(Get(b, "gender").s);
    LowerIdempotent(Get(b, "trainingStatus").s);
    LowerIdempotent(Get(b, "species").s);
  }

  lemma NormalisedOthers(b: Body, dateParses: string -> bool)
    requires EnumsValid(b) && OthersValid(b, dateParses)
    ensures OthersValid(Normalised(b), dateParses)
  {
    var n := Normalised(b);
    forall k | k in NumericFields ensures NonNegativeNumber(Get(n, k)) {
      assert Get(n, k) == Get(b, k);
    }
    assert Get(n, "acquisitionDate") == Get(b, "acquisitionDate");
    assert Get(n, "reserved") == Get(b, "reserved");
  }

  lemma NormalisedFixed(b: Body)
    requires Get(b, "gender").Str? && Get(b, "trainingStatus").Str? && Get(b, "species").Str?
    ensures Normalised(Normalised(b)) == Normalised(b)
  {
    LowerIdempotent(Get(b, "gender").s);
    LowerIdempotent(Get(b, "trainingStatus").s);
    LowerIdempotent(Get(b, "species").s);
  }
}
