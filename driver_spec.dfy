/**
 * The value-level meaning of the console operations of `Driver.java`: which
 * records an intake creates, which animal a reservation picks, which lines
 * the listings and the search print, the line format of the save file and
 * how a line of that file is read back.
 */
module DriverSpec {
  import opened Wrappers
  import opened JsText
  import opened JavaText
  import opened Docs
  import opened Animals

  /** `xs` with `f` applied to each element, in order. */
  function MapSeq<T, U>(xs: seq<T>, f: T -> U): (r: seq<U>)
    ensures |r| == |xs| && forall i :: 0 <= i < |xs| ==> r[i] == f(xs[i])
  {
    if xs == [] then [] else [f(xs[0])] + MapSeq(xs[1..], f)
  }

  lemma {:induction false} MapSeqAppend<T, U>(a: seq<T>, b: seq<T>, f: T -> U)
    ensures MapSeq(a + b, f) == MapSeq(a, f) + MapSeq(b, f)
  {
    if a == [] {
      assert a + b == b;
    } else {
      assert (a + b)[0] == a[0] && (a + b)[1..] == a[1..] + b;
      MapSeqAppend(a[1..], b, f);
    }
  }

  lemma MapSnoc<T, U>(xs: seq<T>, x: T, f: T -> U)
    ensures MapSeq(xs + [x], f) == MapSeq(xs, f) + [f(x)]
  {
    MapSeqAppend(xs, [x], f);
  }

  /** One more element to filter and then map. */
  lemma KeepMapSnoc<T(!new), U>(xs: seq<T>, x: T, p: T -> bool, f: T -> U)
    ensures MapSeq(Keep(xs + [x], p), f) == MapSeq(Keep(xs, p), f) + (if p(x) then [f(x)] else [])
  {
    KeepAppend(xs, [x], p);
    assert Keep([x], p) == if p(x) then [x] else [];
    MapSeqAppend(Keep(xs, p), Keep([x], p), f);
  }

  /**
   * Every string field the console fills in is non-null, and `type`, which
   * no console constructor sets, is null.
   */
  predicate Recorded(a: AnimalState)
  {
    a.name.Some? && a.animalType.None? && a.gender.Some? && a.acquisitionDate.Some?
    && a.acquisitionCountry.Some? && a.trainingStatus.Some? && a.inServiceCountry.Some?
  }

  predicate DogRecorded(d: DogState)
  {
    Recorded(d.animal) && d.breed.Some?
  }

  predicate MonkeyRecorded(m: MonkeyState)
  {
    Recorded(m.animal) && m.species.Some?
  }

  function DogAnimals(ds: seq<DogState>): (r: seq<AnimalState>)
    ensures |r| == |ds| && forall i :: 0 <= i < |ds| ==> r[i] == ds[i].animal
  {
    if ds == [] then [] else [ds[0].animal] + DogAnimals(ds[1..])
  }

  function MonkeyAnimals(ms: seq<MonkeyState>): (r: seq<AnimalState>)
    ensures |r| == |ms| && forall i :: 0 <= i < |ms| ==> r[i] == ms[i].animal
  {
    if ms == [] then [] else [ms[0].animal] + MonkeyAnimals(ms[1..])
  }

  predicate AllDogsRecorded(ds: seq<DogState>)
  {
    forall i :: 0 <= i < |ds| ==> DogRecorded(ds[i])
  }

  predicate AllMonkeysRecorded(ms: seq<MonkeyState>)
  {
    forall i :: 0 <= i < |ms| ==> MonkeyRecorded(ms[i])
  }

  // ---------------------------------------------------------------- intake

  /** Some record already has `name`, ignoring case. */
  predicate NameTaken(animals: seq<AnimalState>, name: string)
  {
    exists k :: 0 <= k < |animals| && animals[k].name.Some? && EqualsIgnoreCase(animals[k].name.value, name)
  }

  /** What an intake prints; `NumberFormatError` is the uncaught exception of a bad number. */
  datatype Intake = Printed(message: string) | NumberFormatError

  const DogPresent := "This dog is already in our system."
  const DogAdded := "Dog added successfully."
  const MonkeyPresent := "This monkey is already in our system."
  const InvalidSpecies := "Invalid species."
  const MonkeyAdded := "Monkey added successfully."

  /** The six species an intake accepts, as the intake writes them. */
  const SpeciesNames := ["Capuchin", "Guenon", "Macaque", "Marmoset", "Squirrel Monkey", "Tamarin"]

  /** The same six names, lower-cased. */
  const AllowedSpecies := ["capuchin", "guenon", "macaque", "marmoset", "squirrel monkey", "tamarin"]

  /** The species an intake accepts: one of the six, compared ignoring case. */
  predicate SpeciesAllowed(species: string)
  {
    Lower(species) in AllowedSpecies
  }

  /** The test is the intake's six `equalsIgnoreCase` calls, with the names as written. */
  lemma SpeciesAllowedAsWritten(species: string)
    ensures SpeciesAllowed(species) <==>
              exists k :: 0 <= k < |SpeciesNames| && EqualsIgnoreCase(species, SpeciesNames[k])
  {
    var names, lowered := SpeciesNames, AllowedSpecies;
    // One case per name, so that each is read character by character.
    forall k | 0 <= k < |names|
      ensures Lower(names[k]) == lowered[k]
    {
      if k == 0 {
        LowerMatches(names[k], lowered[k]);
      } else if k == 1 {
        LowerMatches(names[k], lowered[k]);
      } else if k == 2 {
        LowerMatches(names[k], lowered[k]);
      } else if k == 3 {
        LowerMatches(names[k], lowered[k]);
      } else if k == 4 {
        LowerMatches(names[k], lowered[k]);
      } else {
        LowerMatches(names[k], lowered[k]);
      }
    }
    if SpeciesAllowed(species) {
      var k :| 0 <= k < |lowered| && lowered[k] == Lower(species);
      assert EqualsIgnoreCase(species, names[k]);
    }
  }

  /** The reserved answer of a dog intake: trimmed, then "yes" in any case. */
  predicate DogAnswerYes(answer: string)
  {
    EqualsIgnoreCase(JavaTrim(answer), "yes")
  }

  /** The reserved answer of a monkey intake: "yes" in any case, untrimmed. */
  predicate MonkeyAnswerYes(answer: string)
  {
    EqualsIgnoreCase(answer, "yes")
  }

  /** The record `new Dog(...)` holds when every string argument is non-null. */
  function NewDog(name: string, breed: string, gender: string, age: Int32, weight: real,
                  acquisitionDate: string, acquisitionCountry: string, trainingStatus: string,
                  reserved: bool, inServiceCountry: string): (d: DogState)
    ensures DogRecorded(d)
  {
    DogState(AnimalState(Some(name), None, Some(gender), age, weight, Some(acquisitionDate),
                         Some(acquisitionCountry), Some(trainingStatus), reserved, Some(inServiceCountry)),
             Some(breed))
  }

  /** The record `new Monkey(...)` holds when every string argument is non-null. */
  function NewMonkey(name: string, species: string, tailLength: real, height: real, bodyLength: real,
                     gender: string, age: Int32, weight: real, acquisitionDate: string,
                     acquisitionCountry: string, trainingStatus: string, reserved: bool,
                     inServiceCountry: string): (m: MonkeyState)
    ensures MonkeyRecorded(m)
  {
    MonkeyState(AnimalState(Some(name), None, Some(gender), age, weight, Some(acquisitionDate),
                            Some(acquisitionCountry), Some(trainingStatus), reserved, Some(inServiceCountry)),
                Some(species), tailLength, height, bodyLength)
  }

  /** The dogs `initializeDogList` adds, in order. */
  const SampleDogs := [
    NewDog("Spot", "German Shepherd", "male", 1, 25.6, "05-12-2019", "United States", "intake", false, "United States"),
    NewDog("Rex", "Great Dane", "male", 3, 35.2, "02-03-2020", "United States", "Phase I", false, "United States"),
    NewDog("Bella", "Chihuahua", "female", 4, 25.6, "12-12-2019", "Canada", "in service", true, "Canada")]

  /** The monkeys `initializeMonkeyList` adds, in order. */
  const SampleMonkeys := [
    NewMonkey("Marcel", "Capuchin", 5.2, 9.4, 19.6, "male", 2, 15.3, "09-11-2019", "Canada", "Phase I", true, "Canada"),
    NewMonkey("Kong", "Macaque", 4.8, 10.2, 20.7, "female", 1, 17.4, "12-05-2020", "United Kingdom", "in service",
              false, "United Kingdom"),
    NewMonkey("Pat", "Tamarin", 5.5, 8.6, 18.4, "male", 3, 18.2, "12-10-2019", "United States", "intake", false,
              "United States")]

  lemma SamplesRecorded()
    ensures AllDogsRecorded(SampleDogs) && AllMonkeysRecorded(SampleMonkeys)
  {
  }

  /** The answers an intake reads for a dog, in the order it asks for them. */
  datatype DogAnswers = DogAnswers(
    name: string, breed: string, gender: string, age: string, weight: string, acquisitionDate: string,
    acquisitionCountry: string, trainingStatus: string, reserved: string, inServiceCountry: string)

  /** The answers an intake reads for a monkey, in the order it asks for them. */
  datatype MonkeyAnswers = MonkeyAnswers(
    name: string, species: string, tailLength: string, height: string, bodyLength: string, gender: string,
    age: string, weight: string, acquisitionDate: string, acquisitionCountry: string, trainingStatus: string,
    reserved: string, inServiceCountry: string)

  /**
   * The dog a successful intake creates from the answers: the age and
   * weight answers are trimmed before parsing, and the reserved answer is
   * "yes" after trimming; `None` when a number does not parse.
   */
  function DogFromAnswers(a: DogAnswers, parseFloat: string -> Option<real>): (r: Option<DogState>)
    ensures r.Some? ==> DogRecorded(r.value) && r.value.animal.name == Some(a.name)
    ensures r.Some? <==> ParseInt(JavaTrim(a.age)).Some? && parseFloat(JavaTrim(a.weight)).Some?
  {
    var age := ParseInt(JavaTrim(a.age));
    var weight := parseFloat(JavaTrim(a.weight));
    if age.None? || weight.None? then None
    else Some(NewDog(a.name, a.breed, a.gender, age.value, weight.value, a.acquisitionDate, a.acquisitionCountry,
                     a.trainingStatus, DogAnswerYes(a.reserved), a.inServiceCountry))
  }

  /**
   * The monkey a successful intake creates from the answers: nothing is
   * trimmed; `None` when a length, the age or the weight does not parse.
   */
  function MonkeyFromAnswers(a: MonkeyAnswers, parseFloat: string -> Option<real>): (r: Option<MonkeyState>)
    ensures r.Some? ==> MonkeyRecorded(r.value) && r.value.animal.name == Some(a.name)
                        && r.value.species == Some(a.species)
  {
    var tailLength := parseFloat(a.tailLength);
    var height := parseFloat(a.height);
    var bodyLength := parseFloat(a.bodyLength);
    var age := ParseInt(a.age);
    var weight := parseFloat(a.weight);
    if tailLength.None? || height.None? || bodyLength.None? || age.None? || weight.None? then None
    else Some(NewMonkey(a.name, a.species, tailLength.value, height.value, bodyLength.value, a.gender, age.value,
                        weight.value, a.acquisitionDate, a.acquisitionCountry, a.trainingStatus,
                        MonkeyAnswerYes(a.reserved), a.inServiceCountry))
  }

  /** What a dog intake prints and the dogs it leaves. */
  datatype DogIntake = DogIntake(outcome: Intake, dogs: seq<DogState>)

  /** What a monkey intake prints and the monkeys it leaves. */
  datatype MonkeyIntake = MonkeyIntake(outcome: Intake, monkeys: seq<MonkeyState>)

  /**
   * `intakeNewDog`: a name some dog already has, ignoring case, ends the
   * intake with the list unchanged; a number that does not parse throws
   * before anything is added; otherwise exactly one dog is appended.
   */
  function IntakeDog(dogs: seq<DogState>, a: DogAnswers, parseFloat: string -> Option<real>): (r: DogIntake)
    ensures NameTaken(DogAnimals(dogs), a.name) ==> r == DogIntake(Printed(DogPresent), dogs)
    ensures r.outcome != Printed(DogAdded) ==> r.dogs == dogs
    ensures r.outcome == Printed(DogAdded) <==>
              !NameTaken(DogAnimals(dogs), a.name) && DogFromAnswers(a, parseFloat).Some?
    ensures r.outcome == Printed(DogAdded) ==>
              |r.dogs| == |dogs| + 1 && r.dogs[..|dogs|] == dogs
              && r.dogs[|dogs|] == DogFromAnswers(a, parseFloat).value
  {
    if NameTaken(DogAnimals(dogs), a.name) then DogIntake(Printed(DogPresent), dogs)
    else match DogFromAnswers(a, parseFloat)
      case None => DogIntake(NumberFormatError, dogs)
      case Some(d) => DogIntake(Printed(DogAdded), dogs + [d])
  }

  /**
   * `intakeNewMonkey`: a name some monkey already has, ignoring case, or a
   * species outside the six ends the intake with the list unchanged; a
   * number that does not parse throws before anything is added; otherwise
   * exactly one monkey is appended.
   */
  function IntakeMonkey(monkeys: seq<MonkeyState>, a: MonkeyAnswers, parseFloat: string -> Option<real>): (r: MonkeyIntake)
    ensures NameTaken(MonkeyAnimals(monkeys), a.name) ==> r == MonkeyIntake(Printed(MonkeyPresent), monkeys)
    ensures !NameTaken(MonkeyAnimals(monkeys), a.name) && !SpeciesAllowed(a.species) ==>
              r == MonkeyIntake(Printed(InvalidSpecies), monkeys)
    ensures r.outcome != Printed(MonkeyAdded) ==> r.monkeys == monkeys
    ensures r.outcome == Printed(MonkeyAdded) ==>
              |r.monkeys| == |monkeys| + 1 && r.monkeys[..|monkeys|] == monkeys
              && r.monkeys[|monkeys|].species == Some(a.species) && SpeciesAllowed(a.species)
  {
    if NameTaken(MonkeyAnimals(monkeys), a.name) then MonkeyIntake(Printed(MonkeyPresent), monkeys)
    else if !SpeciesAllowed(a.species) then MonkeyIntake(Printed(InvalidSpecies), monkeys)
    else
      var m := MonkeyFromAnswers(a, parseFloat);
      if m.None? then MonkeyIntake(NumberFormatError, monkeys)
      else
        assert (monkeys + [m.value])[..|monkeys|] == monkeys;
        MonkeyIntake(Printed(MonkeyAdded), monkeys + [m.value])
  }

  /** No two animals have the same name, ignoring case. */
  predicate NamesUnique(animals: seq<AnimalState>)
  {
    forall i, j :: 0 <= i < j < |animals| && animals[i].name.Some? && animals[j].name.Some? ==>
      !EqualsIgnoreCase(animals[i].name.value, animals[j].name.value)
  }

  lemma {:induction false} DogAnimalsSnoc(dogs: seq<DogState>, d: DogState)
    ensures DogAnimals(dogs + [d]) == DogAnimals(dogs) + [d.animal]
  {
  }

  /** Intake keeps dog names unique: the duplicate check refuses any name already in use. */
  lemma IntakeDogKeepsNamesUnique(dogs: seq<DogState>, a: DogAnswers, parseFloat: string -> Option<real>)
    requires NamesUnique(DogAnimals(dogs))
    ensures NamesUnique(DogAnimals(IntakeDog(dogs, a, parseFloat).dogs))
  {
    var r := IntakeDog(dogs, a, parseFloat);
    if r.outcome == Printed(DogAdded) {
      var d := DogFromAnswers(a, parseFloat).value;
      assert r.dogs == dogs + [d];
      DogAnimalsSnoc(dogs, d);
      var all := DogAnimals(r.dogs);
      forall i, j | 0 <= i < j < |all| && all[i].name.Some? && all[j].name.Some?
        ensures !EqualsIgnoreCase(all[i].name.value, all[j].name.value)
      {
        if j == |dogs| {
          assert all[i] == DogAnimals(dogs)[i];
        } else {
          assert all[i] == DogAnimals(dogs)[i] && all[j] == DogAnimals(dogs)[j];
        }
      }
    }
  }

  lemma {:induction false} MonkeyAnimalsSnoc(monkeys: seq<MonkeyState>, m: MonkeyState)
    ensures MonkeyAnimals(monkeys + [m]) == MonkeyAnimals(monkeys) + [m.animal]
  {
  }

  /** Intake keeps monkey names unique, in the same way. */
  lemma IntakeMonkeyKeepsNamesUnique(monkeys: seq<MonkeyState>, a: MonkeyAnswers, parseFloat: string -> Option<real>)
    requires NamesUnique(MonkeyAnimals(monkeys))
    ensures NamesUnique(MonkeyAnimals(IntakeMonkey(monkeys, a, parseFloat).monkeys))
  {
    var r := IntakeMonkey(monkeys, a, parseFloat);
    if r.outcome == Printed(MonkeyAdded) {
      var m := MonkeyFromAnswers(a, parseFloat).value;
      assert r.monkeys == monkeys + [m];
      MonkeyAnimalsSnoc(monkeys, m);
      var all := MonkeyAnimals(r.monkeys);
      forall i, j | 0 <= i < j < |all| && all[i].name.Some? && all[j].name.Some?
        ensures !EqualsIgnoreCase(all[i].name.value, all[j].name.value)
      {
        if j == |monkeys| {
          assert all[i] == MonkeyAnimals(monkeys)[i];
        } else {
          assert all[i] == MonkeyAnimals(monkeys)[i] && all[j] == MonkeyAnimals(monkeys)[j];
        }
      }
    }
  }

  // ----------------------------------------------------------- reservation

  /** Unreserved, with an in-service country equal to `country` ignoring case. */
  predicate Eligible(a: AnimalState, country: string)
  {
    !a.reserved && a.inServiceCountry.Some? && EqualsIgnoreCase(a.inServiceCountry.value, country)
  }

  /** The position of the first eligible animal, if any. */
  function FirstEligible(animals: seq<AnimalState>, country: string): (r: Option<nat>)
    ensures r.Some? ==> r.value < |animals| && Eligible(animals[r.value], country)
                        && forall k :: 0 <= k < r.value ==> !Eligible(animals[k], country)
    ensures r.None? ==> forall k :: 0 <= k < |animals| ==> !Eligible(animals[k], country)
  {
    if animals == [] then None
    else if Eligible(animals[0], country) then Some(0)
    else match FirstEligible(animals[1..], country)
      case None => None
      case Some(i) => Some(i + 1)
  }

  /** An eligible position with no eligible animal before it is the first one. */
  lemma FirstEligibleAt(animals: seq<AnimalState>, country: string, i: nat)
    requires i < |animals| && Eligible(animals[i], country)
    requires forall k :: 0 <= k < i ==> !Eligible(animals[k], country)
    ensures FirstEligible(animals, country) == Some(i)
  {
  }

  /** The animals after a reservation: the first eligible one becomes reserved. */
  function ReserveFirst(animals: seq<AnimalState>, country: string): seq<AnimalState>
  {
    match FirstEligible(animals, country)
    case None => animals
    case Some(i) => animals[i := animals[i].(reserved := true)]
  }

  /** The number of animals a reservation could pick. */
  function CountEligible(animals: seq<AnimalState>, country: string): nat
  {
    if animals == [] then 0
    else (if Eligible(animals[0], country) then 1 else 0) + CountEligible(animals[1..], country)
  }

  /**
   * A reservation reserves exactly one animal when any is eligible, and none
   * otherwise: the number of eligible animals drops by one or stays zero.
   */
  lemma {:induction false} ReserveFirstCount(animals: seq<AnimalState>, country: string)
    ensures FirstEligible(animals, country).Some? ==>
              CountEligible(ReserveFirst(animals, country), country) == CountEligible(animals, country) - 1
    ensures FirstEligible(animals, country).None? ==>
              CountEligible(animals, country) == 0 && ReserveFirst(animals, country) == animals
  {
    if animals != [] {
      var rest := animals[1..];
      ReserveFirstCount(rest, country);
      if Eligible(animals[0], country) {
        assert ReserveFirst(animals, country)[1..] == rest;
      } else if FirstEligible(rest, country).Some? {
        assert ReserveFirst(animals, country) == [animals[0]] + ReserveFirst(rest, country);
        assert ReserveFirst(animals, country)[1..] == ReserveFirst(rest, country);
      }
    }
  }

  /** The dogs after a reservation: only the inherited `reserved` of the first eligible one changes. */
  function ReserveFirstDog(dogs: seq<DogState>, country: string): (r: seq<DogState>)
  {
    match FirstEligible(DogAnimals(dogs), country)
    case None => dogs
    case Some(i) => dogs[i := dogs[i].(animal := dogs[i].animal.(reserved := true))]
  }

  /** The monkeys after a reservation: only the inherited `reserved` of the first eligible one changes. */
  function ReserveFirstMonkey(monkeys: seq<MonkeyState>, country: string): (r: seq<MonkeyState>)
  {
    match FirstEligible(MonkeyAnimals(monkeys), country)
    case None => monkeys
    case Some(i) => monkeys[i := monkeys[i].(animal := monkeys[i].animal.(reserved := true))]
  }

  /** Reserving a dog is reserving its inherited part; breeds are untouched. */
  lemma ReserveFirstDogAnimals(dogs: seq<DogState>, country: string)
    ensures DogAnimals(ReserveFirstDog(dogs, country)) == ReserveFirst(DogAnimals(dogs), country)
    ensures |ReserveFirstDog(dogs, country)| == |dogs|
    ensures forall k :: 0 <= k < |dogs| ==> ReserveFirstDog(dogs, country)[k].breed == dogs[k].breed
  {
  }

  /** Reserving a monkey is reserving its inherited part; the monkey fields are untouched. */
  lemma ReserveFirstMonkeyAnimals(monkeys: seq<MonkeyState>, country: string)
    ensures MonkeyAnimals(ReserveFirstMonkey(monkeys, country)) == ReserveFirst(MonkeyAnimals(monkeys), country)
    ensures |ReserveFirstMonkey(monkeys, country)| == |monkeys|
    ensures forall k :: 0 <= k < |monkeys| ==>
              ReserveFirstMonkey(monkeys, country)[k].(animal := monkeys[k].animal) == monkeys[k]
  {
  }

  /** "Dog Rex has been reserved." for the animal picked ("Dog " is the prefix), nothing when none is eligible. */
  function ReservedLines(kindPrefix: string, animals: seq<AnimalState>, country: string): seq<string>
  {
    match FirstEligible(animals, country)
    case None => []
    case Some(i) => [kindPrefix + Show(animals[i].name) + " has been reserved."]
  }

  const InvalidType := "Invalid animal type."

  /** What `reserveAnimal` leaves in the two lists and prints. */
  datatype Reservation = Reservation(dogs: seq<DogState>, monkeys: seq<MonkeyState>, lines: seq<string>)

  /**
   * `reserveAnimal` for the type answer (lower-cased) and the country: the
   * first eligible animal of that kind is reserved and named; an unknown
   * type changes nothing and says so.
   */
  function Reserve(dogs: seq<DogState>, monkeys: seq<MonkeyState>, typeAnswer: string, country: string): (r: Reservation)
    ensures |r.dogs| == |dogs| && |r.monkeys| == |monkeys|
    ensures Lower(typeAnswer) != "dog" ==> r.dogs == dogs
    ensures Lower(typeAnswer) != "monkey" ==> r.monkeys == monkeys
    ensures Lower(typeAnswer) != "dog" && Lower(typeAnswer) != "monkey" ==> r.lines == [InvalidType]
    ensures Lower(typeAnswer) == "dog" ==>
              DogAnimals(r.dogs) == ReserveFirst(DogAnimals(dogs), country)
              && forall k :: 0 <= k < |dogs| ==> r.dogs[k].breed == dogs[k].breed
    ensures Lower(typeAnswer) == "monkey" ==>
              MonkeyAnimals(r.monkeys) == ReserveFirst(MonkeyAnimals(monkeys), country)
  {
    ReserveFirstDogAnimals(dogs, country);
    ReserveFirstMonkeyAnimals(monkeys, country);
    var t := Lower(typeAnswer);
    if t == "dog" then
      Reservation(ReserveFirstDog(dogs, country), monkeys, ReservedLines("Dog ", DogAnimals(dogs), country))
    else if t == "monkey" then
      Reservation(dogs, ReserveFirstMonkey(monkeys, country), ReservedLines("Monkey ", MonkeyAnimals(monkeys), country))
    else Reservation(dogs, monkeys, [InvalidType])
  }

  // -------------------------------------------------------------- listings

  /** In the "available" listing: unreserved, and in service ignoring case. */
  predicate Available(a: AnimalState)
  {
    !a.reserved && a.trainingStatus.Some? && EqualsIgnoreCase(a.trainingStatus.value, "in service")
  }

  predicate AvailableDog(d: DogState)
  {
    Available(d.animal)
  }

  predicate AvailableMonkey(m: MonkeyState)
  {
    Available(m.animal)
  }

  function AvailableDogLine(d: DogState): string
  {
    "Dog: " + Show(d.animal.name) + " | In Service Country: " + Show(d.animal.inServiceCountry)
  }

  function AvailableMonkeyLine(m: MonkeyState): string
  {
    "Monkey: " + Show(m.animal.name) + " | In Service Country: " + Show(m.animal.inServiceCountry)
  }

  /** `printAnimals("available")`: the available dogs, then the available monkeys. */
  function AvailableListing(dogs: seq<DogState>, monkeys: seq<MonkeyState>): seq<string>
  {
    ["Available Dogs:"] + MapSeq(Keep(dogs, AvailableDog), AvailableDogLine)
    + ["Available Monkeys:"] + MapSeq(Keep(monkeys, AvailableMonkey), AvailableMonkeyLine)
  }

  /**
   * The dogs of the available listing are exactly the available dogs, in
   * list order, and the monkeys exactly the available monkeys.
   */
  lemma AvailableListingExactly(dogs: seq<DogState>, monkeys: seq<MonkeyState>)
    ensures var ad := Keep(dogs, AvailableDog);
            && IsSubsequence(ad, dogs) && (forall d :: d in ad <==> d in dogs && Available(d.animal))
    ensures var am := Keep(monkeys, AvailableMonkey);
            && IsSubsequence(am, monkeys) && (forall m :: m in am <==> m in monkeys && Available(m.animal))
  {
    KeepIsSubsequence(dogs, AvailableDog);
    KeepIsSubsequence(monkeys, AvailableMonkey);
  }

  function DogDetailLine(d: DogState, showFloat: real -> string): string
  {
    "Dog: " + Show(d.animal.name) + " | Breed: " + Show(d.breed) + " | Gender: " + Show(d.animal.gender)
    + " | Age: " + IntToString(d.animal.age) + " | Weight: " + showFloat(d.animal.weight)
    + " | Training: " + Show(d.animal.trainingStatus) + " | Reserved: " + BoolToString(d.animal.reserved)
    + " | Country: " + Show(d.animal.acquisitionCountry) + " | In Service: " + Show(d.animal.inServiceCountry)
  }

  function MonkeyDetailLine(m: MonkeyState, showFloat: real -> string): string
  {
    "Monkey: " + Show(m.animal.name) + " | Species: " + Show(m.species) + " | Gender: " + Show(m.animal.gender)
    + " | Age: " + IntToString(m.animal.age) + " | Weight: " + showFloat(m.animal.weight)
    + " | Tail Length: " + showFloat(m.tailLength) + " | Height: " + showFloat(m.height)
    + " | Body Length: " + showFloat(m.bodyLength)
    + " | Training: " + Show(m.animal.trainingStatus) + " | Reserved: " + BoolToString(m.animal.reserved)
    + " | Country: " + Show(m.animal.acquisitionCountry) + " | In Service: " + Show(m.animal.inServiceCountry)
  }

  function DogDetail(showFloat: real -> string): DogState -> string
  {
    (d: DogState) => DogDetailLine(d, showFloat)
  }

  function MonkeyDetail(showFloat: real -> string): MonkeyState -> string
  {
    (m: MonkeyState) => MonkeyDetailLine(m, showFloat)
  }

  const InvalidListType := "Invalid list type. Please use 'dog', 'monkey', or 'available'."

  /** What `printAnimals(listType)` prints. */
  function PrintLines(dogs: seq<DogState>, monkeys: seq<MonkeyState>, listType: string,
                      showFloat: real -> string): seq<string>
  {
    if EqualsIgnoreCase(listType, "dog") then
      ["All Dogs:"] + MapSeq(dogs, DogDetail(showFloat))
    else if EqualsIgnoreCase(listType, "monkey") then
      ["All Monkeys:"] + MapSeq(monkeys, MonkeyDetail(showFloat))
    else if EqualsIgnoreCase(listType, "available") then
      AvailableListing(dogs, monkeys)
    else [InvalidListType]
  }

  // ---------------------------------------------------------------- search

  /** The search fields, after lower-casing the answer. */
  predicate KnownField(field: string)
  {
    field == "name" || field == "type" || field == "country"
  }

  /**
   * The search predicate for one animal of the given kind: its name, its
   * kind ("dog" or "monkey", not the `type` field) or its acquisition
   * country equals `value` ignoring case.
   */
  predicate SearchMatch(field: string, value: string, kind: string, a: AnimalState)
  {
    (field == "name" && a.name.Some? && EqualsIgnoreCase(a.name.value, value))
    || (field == "type" && EqualsIgnoreCase(kind, value))
    || (field == "country" && a.acquisitionCountry.Some? && EqualsIgnoreCase(a.acquisitionCountry.value, value))
  }

  function SearchDogLine(d: DogState): string
  {
    "Dog: " + Show(d.animal.name) + " | " + Show(d.animal.trainingStatus) + " | " + Show(d.animal.acquisitionCountry)
  }

  function SearchMonkeyLine(m: MonkeyState): string
  {
    "Monkey: " + Show(m.animal.name) + " | " + Show(m.animal.trainingStatus) + " | " + Show(m.animal.acquisitionCountry)
  }

  const InvalidField := "Invalid field. Please enter 'name', 'type', or 'country'."
  const NoMatch := "No matching animal found."

  function DogMatcher(field: string, value: string): DogState -> bool
  {
    (d: DogState) => SearchMatch(field, value, "dog", d.animal)
  }

  function MonkeyMatcher(field: string, value: string): MonkeyState -> bool
  {
    (m: MonkeyState) => SearchMatch(field, value, "monkey", m.animal)
  }

  function DogHits(dogs: seq<DogState>, field: string, value: string): seq<DogState>
  {
    Keep(dogs, DogMatcher(field, value))
  }

  function MonkeyHits(monkeys: seq<MonkeyState>, field: string, value: string): seq<MonkeyState>
  {
    Keep(monkeys, MonkeyMatcher(field, value))
  }

  /** What `searchAnimals` prints after the prompts, for the two answers given. */
  function SearchLines(dogs: seq<DogState>, monkeys: seq<MonkeyState>, fieldAnswer: string, valueAnswer: string): seq<string>
  {
    var field := Lower(fieldAnswer);
    var value := Lower(valueAnswer);
    if !KnownField(field) then [InvalidField]
    else
      var dh := DogHits(dogs, field, value);
      var mh := MonkeyHits(monkeys, field, value);
      MapSeq(dh, SearchDogLine) + MapSeq(mh, SearchMonkeyLine) + (if dh == [] && mh == [] then [NoMatch] else [])
  }

  lemma {:induction false} HitLinesNotNoMatch(dh: seq<DogState>, mh: seq<MonkeyState>)
    ensures NoMatch !in MapSeq(dh, SearchDogLine) + MapSeq(mh, SearchMonkeyLine)
  {
    var ls := MapSeq(dh, SearchDogLine) + MapSeq(mh, SearchMonkeyLine);
    forall i | 0 <= i < |ls| ensures ls[i] != NoMatch {
      assert ls[i][0] == 'D' || ls[i][0] == 'M';
    }
  }

  /**
   * For a known field, "No matching animal found." is printed exactly when
   * no dog and no monkey satisfies the search predicate.
   */
  lemma NoMatchIffNothingMatches(dogs: seq<DogState>, monkeys: seq<MonkeyState>, fieldAnswer: string, valueAnswer: string)
    requires KnownField(Lower(fieldAnswer))
    ensures NoMatch in SearchLines(dogs, monkeys, fieldAnswer, valueAnswer) <==>
              (forall d :: d in dogs ==> !SearchMatch(Lower(fieldAnswer), Lower(valueAnswer), "dog", d.animal))
              && (forall m :: m in monkeys ==> !SearchMatch(Lower(fieldAnswer), Lower(valueAnswer), "monkey", m.animal))
  {
    var field, value := Lower(fieldAnswer), Lower(valueAnswer);
    var dh := DogHits(dogs, field, value);
    var mh := MonkeyHits(monkeys, field, value);
    HitLinesNotNoMatch(dh, mh);
    if dh != [] {
      assert dh[0] in dh;
    }
    if mh != [] {
      assert mh[0] in mh;
    }
  }

  /** Searching by type finds every dog for "dog", whatever its `type` field holds. */
  lemma TypeSearchIgnoresTypeField(dogs: seq<DogState>, monkeys: seq<MonkeyState>, valueAnswer: string)
    requires Lower(valueAnswer) == "dog"
    ensures DogHits(dogs, "type", "dog") == dogs
    ensures MonkeyHits(monkeys, "type", "dog") == []
  {
    assert Lower("dog") == "dog" && Lower("monkey") == "monkey";
    KeepAll(dogs, DogMatcher("type", "dog"));
    KeepNone(monkeys, MonkeyMatcher("type", "dog"));
  }

  // ---------------------------------------------------------- save and load

  function DogFields(d: DogState, showFloat: real -> string): seq<string>
  {
    ["Dog", Show(d.animal.name), Show(d.breed), Show(d.animal.gender), IntToString(d.animal.age),
     showFloat(d.animal.weight), Show(d.animal.acquisitionDate), Show(d.animal.acquisitionCountry),
     Show(d.animal.trainingStatus), BoolToString(d.animal.reserved), Show(d.animal.inServiceCountry)]
  }

  function MonkeyFields(m: MonkeyState, showFloat: real -> string): seq<string>
  {
    ["Monkey", Show(m.animal.name), Show(m.species), showFloat(m.tailLength), showFloat(m.height),
     showFloat(m.bodyLength), Show(m.animal.gender), IntToString(m.animal.age), showFloat(m.animal.weight),
     Show(m.animal.acquisitionDate), Show(m.animal.acquisitionCountry), Show(m.animal.trainingStatus),
     BoolToString(m.animal.reserved), Show(m.animal.inServiceCountry)]
  }

  /** A dog's line of the save file: its fields joined by commas. */
  function DogLine(d: DogState, showFloat: real -> string): string
  {
    Join(DogFields(d, showFloat))
  }

  /** A monkey's line of the save file: its fields joined by commas. */
  function MonkeyLine(m: MonkeyState, showFloat: real -> string): string
  {
    Join(MonkeyFields(m, showFloat))
  }

  function DogSaver(showFloat: real -> string): DogState -> string
  {
    (d: DogState) => DogLine(d, showFloat)
  }

  function MonkeySaver(showFloat: real -> string): MonkeyState -> string
  {
    (m: MonkeyState) => MonkeyLine(m, showFloat)
  }

  /** The save file: one line per dog, then one per monkey. */
  function SaveLines(dogs: seq<DogState>, monkeys: seq<MonkeyState>, showFloat: real -> string): seq<string>
  {
    MapSeq(dogs, DogSaver(showFloat)) + MapSeq(monkeys, MonkeySaver(showFloat))
  }

  /**
   * How the load loop treats one line: a record to append, a line it
   * ignores, or a line on which it throws (too few tokens, a bad number).
   */
  datatype LineResult = DogRecord(dog: DogState) | MonkeyRecord(monkey: MonkeyState) | Ignored | Malformed

  /** One line of the file: its comma-separated tokens, then the record they describe. */
  function ParseLine(line: string, parseFloat: string -> Option<real>): (r: LineResult)
    ensures r.DogRecord? ==> DogRecorded(r.dog)
    ensures r.MonkeyRecord? ==> MonkeyRecorded(r.monkey)
  {
    ParseTokens(Split(line), parseFloat)
  }

  /** The tokens of a line: a dog line, a monkey line (the kind in any case), or an ignored line. */
  function ParseTokens(t: seq<string>, parseFloat: string -> Option<real>): LineResult
  {
    if |t| == 0 then Malformed
    else if EqualsIgnoreCase(t[0], "Dog") then ParseDog(t, parseFloat)
    else if EqualsIgnoreCase(t[0], "Monkey") then ParseMonkey(t, parseFloat)
    else Ignored
  }

  /** `new Dog(tokens[1], ..., tokens[10])`, throwing on a missing token or a bad number. */
  function ParseDog(t: seq<string>, parseFloat: string -> Option<real>): LineResult
  {
    if |t| < 11 then Malformed
    else
      var age := ParseInt(t[4]);
      var weight := parseFloat(t[5]);
      if age.None? || weight.None? then Malformed
      else DogRecord(NewDog(t[1], t[2], t[3], age.value, weight.value, t[6], t[7], t[8], ParseBoolean(t[9]), t[10]))
  }

  /** `new Monkey(tokens[1], ..., tokens[13])`, throwing on a missing token or a bad number. */
  function ParseMonkey(t: seq<string>, parseFloat: string -> Option<real>): LineResult
  {
    if |t| < 14 then Malformed
    else
      var tail := parseFloat(t[3]);
      var height := parseFloat(t[4]);
      var body := parseFloat(t[5]);
      var age := ParseInt(t[7]);
      var weight := parseFloat(t[8]);
      if tail.None? || height.None? || body.None? || age.None? || weight.None? then Malformed
      else MonkeyRecord(NewMonkey(t[1], t[2], tail.value, height.value, body.value, t[6], age.value,
                                  weight.value, t[9], t[10], t[11], ParseBoolean(t[12]), t[13]))
  }

  /** The lists after reading lines into emptied lists; `failed` when a line threw. */
  datatype Loaded = Loaded(dogs: seq<DogState>, monkeys: seq<MonkeyState>, failed: bool)

  /** Every line of the file, read on its own. */
  function ParseAll(lines: seq<string>, parseFloat: string -> Option<real>): seq<LineResult>
  {
    MapSeq(lines, LineParser(parseFloat))
  }

  function LineParser(parseFloat: string -> Option<real>): string -> LineResult
  {
    (line: string) => ParseLine(line, parseFloat)
  }

  /**
   * The load loop over the lines' results, in file order: records are
   * appended to their list and the first line that throws ends the loop.
   */
  function LoadResults(results: seq<LineResult>): (r: Loaded)
    ensures forall i :: 0 <= i < |r.dogs| ==> r.dogs[i] in DogsOf(results)
    ensures forall i :: 0 <= i < |r.monkeys| ==> r.monkeys[i] in MonkeysOf(results)
  {
    if results == [] then Loaded([], [], false)
    else
      var prev := LoadResults(results[..|results| - 1]);
      assert forall d :: d in DogsOf(results[..|results| - 1]) ==> d in DogsOf(results) by {
        DogsOfSnoc(results[..|results| - 1], results[|results| - 1]);
        assert results[..|results| - 1] + [results[|results| - 1]] == results;
      }
      assert forall m :: m in MonkeysOf(results[..|results| - 1]) ==> m in MonkeysOf(results) by {
        MonkeysOfSnoc(results[..|results| - 1], results[|results| - 1]);
        assert results[..|results| - 1] + [results[|results| - 1]] == results;
      }
      if prev.failed then prev
      else match results[|results| - 1]
        case DogRecord(d) =>
          DogsOfSnoc(results[..|results| - 1], results[|results| - 1]);
          assert results[..|results| - 1] + [results[|results| - 1]] == results;
          prev.(dogs := prev.dogs + [d])
        case MonkeyRecord(m) =>
          MonkeysOfSnoc(results[..|results| - 1], results[|results| - 1]);
          assert results[..|results| - 1] + [results[|results| - 1]] == results;
          prev.(monkeys := prev.monkeys + [m])
        case Ignored => prev
        case Malformed => prev.(failed := true)
  }

  /** The dogs the results describe. */
  function DogsOf(results: seq<LineResult>): set<DogState>
  {
    set i | 0 <= i < |results| && results[i].DogRecord? :: results[i].dog
  }

  function MonkeysOf(results: seq<LineResult>): set<MonkeyState>
  {
    set i | 0 <= i < |results| && results[i].MonkeyRecord? :: results[i].monkey
  }

  lemma DogsOfSnoc(results: seq<LineResult>, r: LineResult)
    ensures DogsOf(results) <= DogsOf(results + [r])
    ensures r.DogRecord? ==> r.dog in DogsOf(results + [r])
  {
    var s := results + [r];
    forall d | d in DogsOf(results) ensures d in DogsOf(s) {
      var i :| 0 <= i < |results| && results[i].DogRecord? && results[i].dog == d;
      assert s[i] == results[i];
    }
    if r.DogRecord? {
      assert s[|results|] == r;
    }
  }

  lemma MonkeysOfSnoc(results: seq<LineResult>, r: LineResult)
    ensures MonkeysOf(results) <= MonkeysOf(results + [r])
    ensures r.MonkeyRecord? ==> r.monkey in MonkeysOf(results + [r])
  {
    var s := results + [r];
    forall m | m in MonkeysOf(results) ensures m in MonkeysOf(s) {
      var i :| 0 <= i < |results| && results[i].MonkeyRecord? && results[i].monkey == m;
      assert s[i] == results[i];
    }
    if r.MonkeyRecord? {
      assert s[|results|] == r;
    }
  }

  /** `loadAnimalData` on the file's lines, from emptied lists. */
  function LoadLines(lines: seq<string>, parseFloat: string -> Option<real>): Loaded
  {
    LoadResults(ParseAll(lines, parseFloat))
  }

  /** Every record the load creates is one the console could have made: non-null strings, null `type`. */
  lemma LoadedRecorded(lines: seq<string>, parseFloat: string -> Option<real>)
    ensures forall i :: 0 <= i < |LoadLines(lines, parseFloat).dogs| ==> DogRecorded(LoadLines(lines, parseFloat).dogs[i])
    ensures forall i :: 0 <= i < |LoadLines(lines, parseFloat).monkeys| ==>
              MonkeyRecorded(LoadLines(lines, parseFloat).monkeys[i])
  {
    var rs := ParseAll(lines, parseFloat);
    var r := LoadResults(rs);
    forall i | 0 <= i < |r.dogs| ensures DogRecorded(r.dogs[i]) {
      assert r.dogs[i] in DogsOf(rs);
      var k :| 0 <= k < |rs| && rs[k].DogRecord? && rs[k].dog == r.dogs[i];
      assert rs[k] == ParseLine(lines[k], parseFloat);
    }
    forall i | 0 <= i < |r.monkeys| ensures MonkeyRecorded(r.monkeys[i]) {
      assert r.monkeys[i] in MonkeysOf(rs);
      var k :| 0 <= k < |rs| && rs[k].MonkeyRecord? && rs[k].monkey == r.monkeys[i];
      assert rs[k] == ParseLine(lines[k], parseFloat);
    }
  }

  /** One line's result read into lists that have not failed. */
  function LoadStep(prev: Loaded, r: LineResult): (next: Loaded)
    ensures next.failed <==> prev.failed || r.Malformed?
  {
    match r
    case DogRecord(d) => prev.(dogs := prev.dogs + [d])
    case MonkeyRecord(m) => prev.(monkeys := prev.monkeys + [m])
    case Ignored => prev
    case Malformed => prev.(failed := true)
  }

  /** One more result read into lists that have not failed. */
  lemma LoadSnoc(prefix: seq<LineResult>, r: LineResult)
    requires !LoadResults(prefix).failed
    ensures LoadResults(prefix + [r]) == LoadStep(LoadResults(prefix), r)
  {
    assert (prefix + [r])[..|prefix|] == prefix;
  }

  /** Reading stops at the first line that throws: later lines change nothing. */
  lemma {:induction false} LoadStopsAtFailure(results: seq<LineResult>, i: nat)
    requires i <= |results| && LoadResults(results[..i]).failed
    ensures LoadResults(results) == LoadResults(results[..i])
    decreases |results| - i
  {
    if i < |results| {
      assert results[..i + 1][..i] == results[..i];
      LoadStopsAtFailure(results, i + 1);
    } else {
      assert results[..i] == results;
    }
  }

  /** The load loop's step: the first `i` lines read, then line `i`, into lists that have not failed. */
  lemma LoadLinesSnoc(lines: seq<string>, i: nat, parseFloat: string -> Option<real>)
    requires i < |lines| && !LoadLines(lines[..i], parseFloat).failed
    ensures LoadLines(lines[..i + 1], parseFloat) == LoadStep(LoadLines(lines[..i], parseFloat), ParseLine(lines[i], parseFloat))
  {
    ParseAllSnoc(lines, i, parseFloat);
    LoadSnoc(ParseAll(lines[..i], parseFloat), ParseLine(lines[i], parseFloat));
  }

  lemma ParseAllSnoc(lines: seq<string>, i: nat, parseFloat: string -> Option<real>)
    requires i < |lines|
    ensures ParseAll(lines[..i + 1], parseFloat) == ParseAll(lines[..i], parseFloat) + [ParseLine(lines[i], parseFloat)]
  {
    assert lines[..i + 1] == lines[..i] + [lines[i]];
    MapSnoc(lines[..i], lines[i], LineParser(parseFloat));
  }

  /** Once a line has thrown, the lines after it change nothing. */
  lemma LoadLinesStop(lines: seq<string>, i: nat, parseFloat: string -> Option<real>)
    requires i <= |lines| && LoadLines(lines[..i], parseFloat).failed
    ensures LoadLines(lines, parseFloat) == LoadLines(lines[..i], parseFloat)
  {
    var results := ParseAll(lines, parseFloat);
    assert results[..i] == ParseAll(lines[..i], parseFloat);
    LoadStopsAtFailure(results, i);
  }

  /** A field the save file can carry: no comma in it. */
  predicate Savable(s: JString)
  {
    s.Some? && CommaFree(s.value)
  }

  /**
   * A dog the save file carries faithfully: its strings are non-null and
   * comma-free, its in-service country (the last field) is non-empty, and
   * its printed weight reads back as the same value.
   */
  predicate DogRoundTrips(d: DogState, showFloat: real -> string, parseFloat: string -> Option<real>)
  {
    DogRecorded(d) && Savable(d.animal.name) && Savable(d.breed) && Savable(d.animal.gender)
    && Savable(d.animal.acquisitionDate) && Savable(d.animal.acquisitionCountry)
    && Savable(d.animal.trainingStatus) && Savable(d.animal.inServiceCountry)
    && d.animal.inServiceCountry.value != ""
    && CommaFree(showFloat(d.animal.weight)) && parseFloat(showFloat(d.animal.weight)) == Some(d.animal.weight)
  }

  /** A monkey the save file carries faithfully, in the same sense. */
  predicate MonkeyRoundTrips(m: MonkeyState, showFloat: real -> string, parseFloat: string -> Option<real>)
  {
    MonkeyRecorded(m) && Savable(m.animal.name) && Savable(m.species) && Savable(m.animal.gender)
    && Savable(m.animal.acquisitionDate) && Savable(m.animal.acquisitionCountry)
    && Savable(m.animal.trainingStatus) && Savable(m.animal.inServiceCountry)
    && m.animal.inServiceCountry.value != ""
    && CommaFree(showFloat(m.tailLength)) && parseFloat(showFloat(m.tailLength)) == Some(m.tailLength)
    && CommaFree(showFloat(m.height)) && parseFloat(showFloat(m.height)) == Some(m.height)
    && CommaFree(showFloat(m.bodyLength)) && parseFloat(showFloat(m.bodyLength)) == Some(m.bodyLength)
    && CommaFree(showFloat(m.animal.weight)) && parseFloat(showFloat(m.animal.weight)) == Some(m.animal.weight)
  }

  lemma IntToStringCommaFree(n: Int32)
    ensures CommaFree(IntToString(n))
  {
    var s := IntToString(n);
    if n < 0 {
      assert forall i :: 1 <= i < |s| ==> s[i] == Digits(-(n as int))[i - 1];
    }
  }

  /** A saved dog line reads back as the same dog. */
  lemma DogLineRoundTrip(d: DogState, showFloat: real -> string, parseFloat: string -> Option<real>)
    requires DogRoundTrips(d, showFloat, parseFloat)
    ensures ParseLine(DogLine(d, showFloat), parseFloat) == DogRecord(d)
  {
    var fs := DogFields(d, showFloat);
    IntToStringCommaFree(d.animal.age);
    assert forall i :: 0 <= i < |fs| ==> CommaFree(fs[i]);
    SplitJoin(fs);
    DogTokensRoundTrip(d, showFloat, parseFloat);
  }

  lemma DogTokensRoundTrip(d: DogState, showFloat: real -> string, parseFloat: string -> Option<real>)
    requires DogRoundTrips(d, showFloat, parseFloat)
    ensures ParseTokens(DogFields(d, showFloat), parseFloat) == DogRecord(d)
  {
    IntRoundTrip(d.animal.age);
    BoolRoundTrip(d.animal.reserved);
    assert EqualsIgnoreCase("Dog", "Dog");
    assert ParseDog(DogFields(d, showFloat), parseFloat) == DogRecord(d);
  }

  /** A saved monkey line reads back as the same monkey. */
  lemma MonkeyLineRoundTrip(m: MonkeyState, showFloat: real -> string, parseFloat: string -> Option<real>)
    requires MonkeyRoundTrips(m, showFloat, parseFloat)
    ensures ParseLine(MonkeyLine(m, showFloat), parseFloat) == MonkeyRecord(m)
  {
    var fs := MonkeyFields(m, showFloat);
    IntToStringCommaFree(m.animal.age);
    assert forall i :: 0 <= i < |fs| ==> CommaFree(fs[i]);
    SplitJoin(fs);
    MonkeyTokensRoundTrip(m, showFloat, parseFloat);
  }

  lemma MonkeyTokensRoundTrip(m: MonkeyState, showFloat: real -> string, parseFloat: string -> Option<real>)
    requires MonkeyRoundTrips(m, showFloat, parseFloat)
    ensures ParseTokens(MonkeyFields(m, showFloat), parseFloat) == MonkeyRecord(m)
  {
    var fs := MonkeyFields(m, showFloat);
    IntRoundTrip(m.animal.age);
    BoolRoundTrip(m.animal.reserved);
    assert ParseMonkey(fs, parseFloat) == MonkeyRecord(m);
    assert Lower("Monkey") == "monkey" && Lower("Dog") == "dog";
  }

  function DogRecords(dogs: seq<DogState>): (r: seq<LineResult>)
    ensures |r| == |dogs| && forall i :: 0 <= i < |dogs| ==> r[i] == DogRecord(dogs[i])
  {
    if dogs == [] then [] else [DogRecord(dogs[0])] + DogRecords(dogs[1..])
  }

  function MonkeyRecords(monkeys: seq<MonkeyState>): (r: seq<LineResult>)
    ensures |r| == |monkeys| && forall i :: 0 <= i < |monkeys| ==> r[i] == MonkeyRecord(monkeys[i])
  {
    if monkeys == [] then [] else [MonkeyRecord(monkeys[0])] + MonkeyRecords(monkeys[1..])
  }

  lemma DogRecordsSnoc(dogs: seq<DogState>)
    requires dogs != []
    ensures DogRecords(dogs) == DogRecords(dogs[..|dogs| - 1]) + [DogRecord(dogs[|dogs| - 1])]
  {
    var n := |dogs| - 1;
    var whole, parts := DogRecords(dogs), DogRecords(dogs[..n]) + [DogRecord(dogs[n])];
    assert |whole| == |parts|;
    forall i | 0 <= i < |whole| ensures whole[i] == parts[i] {
      if i < n {
        assert dogs[..n][i] == dogs[i];
      }
    }
  }

  lemma {:induction false} LoadDogRecords(prefix: seq<LineResult>, dogs: seq<DogState>)
    requires !LoadResults(prefix).failed
    ensures LoadResults(prefix + DogRecords(dogs))
            == LoadResults(prefix).(dogs := LoadResults(prefix).dogs + dogs)
    decreases |dogs|
  {
    if dogs == [] {
      assert prefix + DogRecords(dogs) == prefix;
    } else {
      var n := |dogs| - 1;
      var pre := prefix + DogRecords(dogs[..n]);
      DogRecordsSnoc(dogs);
      assert prefix + DogRecords(dogs) == pre + [DogRecord(dogs[n])];
      LoadDogRecords(prefix, dogs[..n]);
      LoadSnoc(pre, DogRecord(dogs[n]));
    }
  }

  lemma MonkeyRecordsSnoc(monkeys: seq<MonkeyState>)
    requires monkeys != []
    ensures MonkeyRecords(monkeys) == MonkeyRecords(monkeys[..|monkeys| - 1]) + [MonkeyRecord(monkeys[|monkeys| - 1])]
  {
    var n := |monkeys| - 1;
    var whole, parts := MonkeyRecords(monkeys), MonkeyRecords(monkeys[..n]) + [MonkeyRecord(monkeys[n])];
    assert |whole| == |parts|;
    forall i | 0 <= i < |whole| ensures whole[i] == parts[i] {
      if i < n {
        assert monkeys[..n][i] == monkeys[i];
      }
    }
  }

  lemma {:induction false} LoadMonkeyRecords(prefix: seq<LineResult>, monkeys: seq<MonkeyState>)
    requires !LoadResults(prefix).failed
    ensures LoadResults(prefix + MonkeyRecords(monkeys))
            == LoadResults(prefix).(monkeys := LoadResults(prefix).monkeys + monkeys)
    decreases |monkeys|
  {
    if monkeys == [] {
      assert prefix + MonkeyRecords(monkeys) == prefix;
    } else {
      var n := |monkeys| - 1;
      var pre := prefix + MonkeyRecords(monkeys[..n]);
      MonkeyRecordsSnoc(monkeys);
      assert prefix + MonkeyRecords(monkeys) == pre + [MonkeyRecord(monkeys[n])];
      LoadMonkeyRecords(prefix, monkeys[..n]);
      LoadSnoc(pre, MonkeyRecord(monkeys[n]));
    }
  }

  /**
   * Saving and then loading gives back the same dogs and monkeys, in the
   * same order, when every record is one the file carries faithfully.
   */
  lemma SaveThenLoad(dogs: seq<DogState>, monkeys: seq<MonkeyState>,
                     showFloat: real -> string, parseFloat: string -> Option<real>)
    requires forall i :: 0 <= i < |dogs| ==> DogRoundTrips(dogs[i], showFloat, parseFloat)
    requires forall i :: 0 <= i < |monkeys| ==> MonkeyRoundTrips(monkeys[i], showFloat, parseFloat)
    ensures LoadLines(SaveLines(dogs, monkeys, showFloat), parseFloat) == Loaded(dogs, monkeys, false)
  {
    ParseSaved(dogs, monkeys, showFloat, parseFloat);
    LoadRecords(dogs, monkeys);
  }

  /** Loading the records of some dogs and then some monkeys gives exactly those lists. */
  lemma LoadRecords(dogs: seq<DogState>, monkeys: seq<MonkeyState>)
    ensures LoadResults(DogRecords(dogs) + MonkeyRecords(monkeys)) == Loaded(dogs, monkeys, false)
  {
    var none: seq<LineResult> := [];
    assert LoadResults(none) == Loaded([], [], false);
    LoadDogRecords(none, dogs);
    assert none + DogRecords(dogs) == DogRecords(dogs);
    var afterDogs := LoadResults(DogRecords(dogs));
    assert afterDogs == Loaded(dogs, [], false);
    LoadMonkeyRecords(DogRecords(dogs), monkeys);
    assert afterDogs.monkeys + monkeys == monkeys;
  }

  lemma ParseSaved(dogs: seq<DogState>, monkeys: seq<MonkeyState>,
                   showFloat: real -> string, parseFloat: string -> Option<real>)
    requires forall i :: 0 <= i < |dogs| ==> DogRoundTrips(dogs[i], showFloat, parseFloat)
    requires forall i :: 0 <= i < |monkeys| ==> MonkeyRoundTrips(monkeys[i], showFloat, parseFloat)
    ensures ParseAll(SaveLines(dogs, monkeys, showFloat), parseFloat) == DogRecords(dogs) + MonkeyRecords(monkeys)
  {
    var dogLines := MapSeq(dogs, DogSaver(showFloat));
    var monkeyLines := MapSeq(monkeys, MonkeySaver(showFloat));
    assert SaveLines(dogs, monkeys, showFloat) == dogLines + monkeyLines;
    MapSeqAppend(dogLines, monkeyLines, LineParser(parseFloat));
    ParseSavedDogs(dogs, showFloat, parseFloat);
    ParseSavedMonkeys(monkeys, showFloat, parseFloat);
  }

  lemma ParseSavedDogs(dogs: seq<DogState>, showFloat: real -> string, parseFloat: string -> Option<real>)
    requires forall i :: 0 <= i < |dogs| ==> DogRoundTrips(dogs[i], showFloat, parseFloat)
    ensures ParseAll(MapSeq(dogs, DogSaver(showFloat)), parseFloat) == DogRecords(dogs)
  {
    var lines := MapSeq(dogs, DogSaver(showFloat));
    forall i | 0 <= i < |dogs| ensures ParseLine(lines[i], parseFloat) == DogRecord(dogs[i]) {
      DogLineRoundTrip(dogs[i], showFloat, parseFloat);
    }
  }

  lemma ParseSavedMonkeys(monkeys: seq<MonkeyState>, showFloat: real -> string, parseFloat: string -> Option<real>)
    requires forall i :: 0 <= i < |monkeys| ==> MonkeyRoundTrips(monkeys[i], showFloat, parseFloat)
    ensures ParseAll(MapSeq(monkeys, MonkeySaver(showFloat)), parseFloat) == MonkeyRecords(monkeys)
  {
    var lines := MapSeq(monkeys, MonkeySaver(showFloat));
    forall i | 0 <= i < |monkeys| ensures ParseLine(lines[i], parseFloat) == MonkeyRecord(monkeys[i]) {
      MonkeyLineRoundTrip(monkeys[i], showFloat, parseFloat);
    }
  }
}
