/**
 * The console program of `Driver.java`: two lists of record objects held by
 * the program and the menu operations that read and change them. Scanner
 * input is passed in as the answers already read, printed output is
 * returned as lines, and the file `animals.txt` is a sequence of lines.
 */
module RescueConsole {
  import opened Wrappers
  import opened JsText
  import opened JavaText
  import opened Docs
  import opened Animals
  import opened DriverSpec

  /** The current fields of each dog, in list order. */
  function DogViews(ds: seq<Dog>): (r: seq<DogState>)
    reads (set d | d in ds), DogBases(ds)
    ensures |r| == |ds|
  {
    if ds == [] then [] else DogViews(ds[..|ds| - 1]) + [ds[|ds| - 1].State()]
  }

  /** The current fields of each monkey, in list order. */
  function MonkeyViews(ms: seq<Monkey>): (r: seq<MonkeyState>)
    reads (set m | m in ms), MonkeyBases(ms)
    ensures |r| == |ms|
  {
    if ms == [] then [] else MonkeyViews(ms[..|ms| - 1]) + [ms[|ms| - 1].State()]
  }

  lemma {:induction false} DogViewsIndex(ds: seq<Dog>)
    ensures forall i :: 0 <= i < |ds| ==> DogViews(ds)[i] == ds[i].State()
  {
    if ds != [] {
      DogViewsIndex(ds[..|ds| - 1]);
    }
  }

  lemma {:induction false} MonkeyViewsIndex(ms: seq<Monkey>)
    ensures forall i :: 0 <= i < |ms| ==> MonkeyViews(ms)[i] == ms[i].State()
  {
    if ms != [] {
      MonkeyViewsIndex(ms[..|ms| - 1]);
    }
  }

  lemma DogViewsSnoc(ds: seq<Dog>, dog: Dog)
    ensures DogViews(ds + [dog]) == DogViews(ds) + [dog.State()]
  {
    assert (ds + [dog])[..|ds|] == ds;
  }

  lemma MonkeyViewsSnoc(ms: seq<Monkey>, monkey: Monkey)
    ensures MonkeyViews(ms + [monkey]) == MonkeyViews(ms) + [monkey.State()]
  {
    assert (ms + [monkey])[..|ms|] == ms;
  }

  /** The views of records none of whose objects changed are the views they had. */
  twostate lemma {:induction false} DogViewsUnchanged(ds: seq<Dog>)
    requires forall i :: 0 <= i < |ds| ==> unchanged(ds[i], ds[i].base)
    ensures DogViews(ds) == old(DogViews(ds))
  {
    if ds != [] {
      DogViewsUnchanged(ds[..|ds| - 1]);
    }
  }

  twostate lemma {:induction false} MonkeyViewsUnchanged(ms: seq<Monkey>)
    requires forall i :: 0 <= i < |ms| ==> unchanged(ms[i], ms[i].base)
    ensures MonkeyViews(ms) == old(MonkeyViews(ms))
  {
    if ms != [] {
      MonkeyViewsUnchanged(ms[..|ms| - 1]);
    }
  }

  /** The inherited parts of the dogs. */
  ghost function DogBases(ds: seq<Dog>): set<RescueAnimal>
  {
    set d | d in ds :: d.base
  }

  /** The inherited parts of the monkeys. */
  ghost function MonkeyBases(ms: seq<Monkey>): set<RescueAnimal>
  {
    set m | m in ms :: m.base
  }

  /** No two records, dog or monkey, share their inherited part. */
  ghost predicate DistinctBases(ds: seq<Dog>, ms: seq<Monkey>)
  {
    (forall i, j :: 0 <= i < j < |ds| ==> ds[i].base != ds[j].base)
    && (forall i, j :: 0 <= i < j < |ms| ==> ms[i].base != ms[j].base)
    && DogBases(ds) !! MonkeyBases(ms)
  }

  lemma DistinctDogSnoc(ds: seq<Dog>, ms: seq<Monkey>, dog: Dog)
    requires DistinctBases(ds, ms)
    requires dog.base !in DogBases(ds) && dog.base !in MonkeyBases(ms)
    ensures DistinctBases(ds + [dog], ms)
  {
    assert DogBases(ds + [dog]) == DogBases(ds) + {dog.base};
    forall i | 0 <= i < |ds| ensures ds[i].base != dog.base {
      assert ds[i] in ds;
    }
  }

  lemma DistinctMonkeySnoc(ds: seq<Dog>, ms: seq<Monkey>, monkey: Monkey)
    requires DistinctBases(ds, ms)
    requires monkey.base !in DogBases(ds) && monkey.base !in MonkeyBases(ms)
    ensures DistinctBases(ds, ms + [monkey])
  {
    assert MonkeyBases(ms + [monkey]) == MonkeyBases(ms) + {monkey.base};
    forall i | 0 <= i < |ms| ensures ms[i].base != monkey.base {
      assert ms[i] in ms;
    }
  }

  /** What `loadAnimalData` ends with: no file, every line read, or a line that threw. */
  datatype LoadOutcome = FileMissing | LoadedAll | LineThrew

  class Driver {
    var dogList: seq<Dog>
    var monkeyList: seq<Monkey>

    /** The inherited parts of all records: what a reservation may change. */
    ghost function Bases(): set<RescueAnimal>
      reads this`dogList, this`monkeyList
    {
      DogBases(dogList) + MonkeyBases(monkeyList)
    }

    function Dogs(): seq<DogState>
      reads this`dogList, (set d | d in dogList), DogBases(dogList)
    {
      DogViews(dogList)
    }

    function Monkeys(): seq<MonkeyState>
      reads this`monkeyList, (set m | m in monkeyList), MonkeyBases(monkeyList)
    {
      MonkeyViews(monkeyList)
    }

    /** Records share no inherited part, and every record has the non-null strings the console gives it. */
    ghost predicate Valid()
      reads this`dogList, this`monkeyList, (set d | d in dogList), DogBases(dogList),
            (set m | m in monkeyList), MonkeyBases(monkeyList)
    {
      DistinctBases(dogList, monkeyList) && AllDogsRecorded(Dogs()) && AllMonkeysRecorded(Monkeys())
    }

    /** Empty lists. */
    constructor ()
      ensures Valid() && Dogs() == [] && Monkeys() == []
    {
      dogList, monkeyList := [], [];
    }

    /** `initializeDogList` and `initializeMonkeyList`: the three sample dogs and three sample monkeys. */
    constructor WithSamples()
      ensures Valid() && Dogs() == SampleDogs && Monkeys() == SampleMonkeys
    {
      dogList, monkeyList := [], [];
      new;
      SamplesRecorded();
      AddDogs(SampleDogs);
      AddMonkeys(SampleMonkeys);
    }

    /** One `dogList.add` per record, in order. */
    method AddDogs(ds: seq<DogState>)
      requires Valid() && AllDogsRecorded(ds)
      modifies this`dogList
      ensures Valid() && Dogs() == old(Dogs()) + ds
    {
      var i := 0;
      while i < |ds|
        invariant 0 <= i <= |ds| && Valid()
        invariant Dogs() == old(Dogs()) + ds[..i]
      {
        AddDog(ds[i]);
        assert ds[..i + 1] == ds[..i] + [ds[i]];
        i := i + 1;
      }
      assert ds[..i] == ds;
    }

    /** One `monkeyList.add` per record, in order. */
    method AddMonkeys(ms: seq<MonkeyState>)
      requires Valid() && AllMonkeysRecorded(ms)
      modifies this`monkeyList
      ensures Valid() && Monkeys() == old(Monkeys()) + ms
    {
      var i := 0;
      while i < |ms|
        invariant 0 <= i <= |ms| && Valid()
        invariant Monkeys() == old(Monkeys()) + ms[..i]
      {
        AddMonkey(ms[i]);
        assert ms[..i + 1] == ms[..i] + [ms[i]];
        i := i + 1;
      }
      assert ms[..i] == ms;
    }

    /** `dogList.add(new Dog(...))`: a new object holding `d` at the end of the list. */
    method AddDog(d: DogState)
      requires Valid() && DogRecorded(d)
      modifies this`dogList
      ensures Valid()
      ensures Dogs() == old(Dogs()) + [d]
    {
      var dog := new Dog(d.animal.name, d.breed, d.animal.gender, d.animal.age, d.animal.weight,
                         d.animal.acquisitionDate, d.animal.acquisitionCountry, d.animal.trainingStatus,
                         d.animal.reserved, d.animal.inServiceCountry);
      DistinctDogSnoc(dogList, monkeyList, dog);
      DogViewsSnoc(dogList, dog);
      dogList := dogList + [dog];
    }

    /** `monkeyList.add(new Monkey(...))`: a new object holding `m` at the end of the list. */
    method AddMonkey(m: MonkeyState)
      requires Valid() && MonkeyRecorded(m)
      modifies this`monkeyList
      ensures Valid()
      ensures Monkeys() == old(Monkeys()) + [m]
    {
      var monkey := new Monkey(m.animal.name, m.species, m.tailLength, m.height, m.bodyLength, m.animal.gender,
                               m.animal.age, m.animal.weight, m.animal.acquisitionDate,
                               m.animal.acquisitionCountry, m.animal.trainingStatus, m.animal.reserved,
                               m.animal.inServiceCountry);
      DistinctMonkeySnoc(dogList, monkeyList, monkey);
      MonkeyViewsSnoc(monkeyList, monkey);
      monkeyList := monkeyList + [monkey];
    }

    /** The `for` loop of `intakeNewDog`: does a dog already have this name, ignoring case? */
    method HasDogNamed(name: string) returns (taken: bool)
      requires Valid()
      ensures taken == NameTaken(DogAnimals(Dogs()), name)
    {
      ghost var animals := DogAnimals(Dogs());
      DogViewsIndex(dogList);
      var i := 0;
      while i < |dogList|
        invariant 0 <= i <= |dogList|
        invariant forall k :: 0 <= k < i ==> !(animals[k].name.Some? && EqualsIgnoreCase(animals[k].name.value, name))
      {
        assert animals[i] == dogList[i].base.State();
        if EqualsIgnoreCase(dogList[i].base.GetName().value, name) {
          return true;
        }
        i := i + 1;
      }
      return false;
    }

    /** The `for` loop of `intakeNewMonkey`: does a monkey already have this name, ignoring case? */
    method HasMonkeyNamed(name: string) returns (taken: bool)
      requires Valid()
      ensures taken == NameTaken(MonkeyAnimals(Monkeys()), name)
    {
      ghost var animals := MonkeyAnimals(Monkeys());
      MonkeyViewsIndex(monkeyList);
      var i := 0;
      while i < |monkeyList|
        invariant 0 <= i <= |monkeyList|
        invariant forall k :: 0 <= k < i ==> !(animals[k].name.Some? && EqualsIgnoreCase(animals[k].name.value, name))
      {
        assert animals[i] == monkeyList[i].base.State();
        if EqualsIgnoreCase(monkeyList[i].base.GetName().value, name) {
          return true;
        }
        i := i + 1;
      }
      return false;
    }

    /**
     * `intakeNewDog`, given the answers it reads: the duplicate-name check,
     * then the answers read into a dog (a bad number throws before anything
     * is added), then the dog appended.
     */
    method IntakeNewDog(a: DogAnswers, parseFloat: string -> Option<real>) returns (outcome: Intake)
      requires Valid()
      modifies this`dogList
      ensures Valid()
      ensures DogIntake(outcome, Dogs()) == IntakeDog(old(Dogs()), a, parseFloat)
    {
      var taken := HasDogNamed(a.name);
      if taken {
        return Printed(DogPresent);
      }
      var dog := ReadDog(a, parseFloat);
      if dog.None? {
        return NumberFormatError;
      }
      AddDog(dog.value);
      return Printed(DogAdded);
    }

    /**
     * `intakeNewMonkey`, given the answers it reads: the duplicate-name
     * check, the species check, then the answers read into a monkey, then
     * the monkey appended.
     */
    method IntakeNewMonkey(a: MonkeyAnswers, parseFloat: string -> Option<real>) returns (outcome: Intake)
      requires Valid()
      modifies this`monkeyList
      ensures Valid()
      ensures MonkeyIntake(outcome, Monkeys()) == IntakeMonkey(old(Monkeys()), a, parseFloat)
    {
      var taken := HasMonkeyNamed(a.name);
      if taken {
        return Printed(MonkeyPresent);
      }
      if !SpeciesAllowed(a.species) {
        return Printed(InvalidSpecies);
      }
      var monkey := ReadMonkey(a, parseFloat);
      if monkey.None? {
        return NumberFormatError;
      }
      AddMonkey(monkey.value);
      return Printed(MonkeyAdded);
    }

    /**
     * The loop of the dog branch of `reserveAnimal`: the position of the
     * first unreserved dog whose in-service country matches, ignoring case.
     */
    method FindReservableDog(country: string) returns (found: Option<nat>)
      requires Valid()
      ensures found == FirstEligible(DogAnimals(Dogs()), country)
    {
      ghost var animals := DogAnimals(Dogs());
      DogViewsIndex(dogList);
      var i := 0;
      while i < |dogList|
        invariant 0 <= i <= |dogList|
        invariant forall k :: 0 <= k < i ==> !Eligible(animals[k], country)
      {
        var dog := dogList[i];
        assert animals[i] == dog.base.State();
        if !dog.base.GetReserved() && EqualsIgnoreCase(dog.GetInServiceCountry().value, country) {
          FirstEligibleAt(animals, country, i);
          DogViewsUnchanged(dogList);
          return Some(i);
        }
        i := i + 1;
      }
      DogViewsUnchanged(dogList);
      return None;
    }

    /** The loop of the monkey branch of `reserveAnimal`, over the monkeys. */
    method FindReservableMonkey(country: string) returns (found: Option<nat>)
      requires Valid()
      ensures found == FirstEligible(MonkeyAnimals(Monkeys()), country)
    {
      ghost var animals := MonkeyAnimals(Monkeys());
      MonkeyViewsIndex(monkeyList);
      var i := 0;
      while i < |monkeyList|
        invariant 0 <= i <= |monkeyList|
        invariant forall k :: 0 <= k < i ==> !Eligible(animals[k], country)
      {
        var monkey := monkeyList[i];
        assert animals[i] == monkey.base.State();
        if !monkey.base.GetReserved() && EqualsIgnoreCase(monkey.GetInServiceCountry().value, country) {
          FirstEligibleAt(animals, country, i);
          MonkeyViewsUnchanged(monkeyList);
          return Some(i);
        }
        i := i + 1;
      }
      MonkeyViewsUnchanged(monkeyList);
      return None;
    }

    /** `dog.setReserved(true)` on the dog at position `i`: only that dog changes. */
    method ReserveDogAt(i: nat)
      requires Valid() && i < |dogList|
      modifies dogList[i].base
      ensures Valid()
      ensures Dogs() == old(Dogs())[i := old(Dogs())[i].(animal := old(Dogs())[i].animal.(reserved := true))]
      ensures Monkeys() == old(Monkeys())
    {
      assert dogList[i] in dogList;
      ghost var before := Dogs();
      DogViewsIndex(dogList);
      var b := dogList[i].base;
      b.SetReserved(true);
      DogViewsIndex(dogList);
      forall k | 0 <= k < |dogList|
        ensures Dogs()[k] == before[i := before[i].(animal := before[i].animal.(reserved := true))][k]
      {
        if k != i {
          assert dogList[k].base != b;
        }
      }
    }

    /** `monkey.setReserved(true)` on the monkey at position `i`: only that monkey changes. */
    method ReserveMonkeyAt(i: nat)
      requires Valid() && i < |monkeyList|
      modifies monkeyList[i].base
      ensures Valid()
      ensures Monkeys() == old(Monkeys())[i := old(Monkeys())[i].(animal := old(Monkeys())[i].animal.(reserved := true))]
      ensures Dogs() == old(Dogs())
    {
      assert monkeyList[i] in monkeyList;
      ghost var before := Monkeys();
      MonkeyViewsIndex(monkeyList);
      var b := monkeyList[i].base;
      b.SetReserved(true);
      MonkeyViewsIndex(monkeyList);
      forall k | 0 <= k < |monkeyList|
        ensures Monkeys()[k] == before[i := before[i].(animal := before[i].animal.(reserved := true))][k]
      {
        if k != i {
          assert monkeyList[k].base != b;
        }
      }
    }

    /** The dog branch of `reserveAnimal`. */
    method ReserveDog(country: string) returns (lines: seq<string>)
      requires Valid()
      modifies DogBases(dogList)
      ensures Valid()
      ensures Dogs() == ReserveFirstDog(old(Dogs()), country) && Monkeys() == old(Monkeys())
      ensures lines == ReservedLines("Dog ", DogAnimals(old(Dogs())), country)
    {
      ghost var before := Dogs();
      ghost var animals := DogAnimals(before);
      var found := FindReservableDog(country);
      DogViewsUnchanged(dogList);
      MonkeyViewsUnchanged(monkeyList);
      if found.Some? {
        var i := found.value;
        assert ReserveFirstDog(before, country) == before[i := before[i].(animal := before[i].animal.(reserved := true))];
        ReserveDogAt(i);
        DogViewsIndex(dogList);
        assert dogList[i].base.GetName() == Dogs()[i].animal.name == animals[i].name;
        lines := ["Dog " + Show(dogList[i].base.GetName()) + " has been reserved."];
      } else {
        lines := [];
      }
    }

    /** The monkey branch of `reserveAnimal`. */
    method ReserveMonkey(country: string) returns (lines: seq<string>)
      requires Valid()
      modifies MonkeyBases(monkeyList)
      ensures Valid()
      ensures Monkeys() == ReserveFirstMonkey(old(Monkeys()), country) && Dogs() == old(Dogs())
      ensures lines == ReservedLines("Monkey ", MonkeyAnimals(old(Monkeys())), country)
    {
      ghost var before := Monkeys();
      ghost var animals := MonkeyAnimals(before);
      var found := FindReservableMonkey(country);
      DogViewsUnchanged(dogList);
      MonkeyViewsUnchanged(monkeyList);
      if found.Some? {
        var i := found.value;
        assert ReserveFirstMonkey(before, country) == before[i := before[i].(animal := before[i].animal.(reserved := true))];
        ReserveMonkeyAt(i);
        MonkeyViewsIndex(monkeyList);
        assert monkeyList[i].base.GetName() == Monkeys()[i].animal.name == animals[i].name;
        lines := ["Monkey " + Show(monkeyList[i].base.GetName()) + " has been reserved."];
      } else {
        lines := [];
      }
    }

    /**
     * `reserveAnimal`, given the type and country answers: the first
     * eligible animal of the lower-cased type is reserved and named; an
     * unknown type changes nothing and says so.
     */
    method ReserveAnimal(typeAnswer: string, country: string) returns (lines: seq<string>)
      requires Valid()
      modifies Bases()
      ensures Valid()
      ensures Reservation(Dogs(), Monkeys(), lines) == Reserve(old(Dogs()), old(Monkeys()), typeAnswer, country)
    {
      var animalType := Lower(typeAnswer);
      if animalType == "dog" {
        lines := ReserveDog(country);
      } else if animalType == "monkey" {
        lines := ReserveMonkey(country);
      } else {
        lines := [InvalidType];
      }
    }

    /** `printAnimals(listType)`: the list type is matched ignoring case. */
    method PrintAnimals(listType: string, showFloat: real -> string) returns (lines: seq<string>)
      ensures lines == PrintLines(Dogs(), Monkeys(), listType, showFloat)
    {
      lines := PrintLists(Dogs(), Monkeys(), listType, showFloat);
      DogViewsUnchanged(dogList);
      MonkeyViewsUnchanged(monkeyList);
    }

    /**
     * `searchAnimals`, given its two answers: an unknown field stops before
     * the value is asked for; otherwise the matching dogs, the matching
     * monkeys, and a notice when neither loop found one.
     */
    method SearchAnimals(fieldAnswer: string, valueAnswer: string) returns (lines: seq<string>)
      ensures lines == SearchLines(Dogs(), Monkeys(), fieldAnswer, valueAnswer)
    {
      lines := SearchLists(Dogs(), Monkeys(), fieldAnswer, valueAnswer);
      DogViewsUnchanged(dogList);
      MonkeyViewsUnchanged(monkeyList);
    }

    /** `saveAnimalData`: the lines written to `animals.txt`, dogs first. */
    method SaveAnimalData(showFloat: real -> string) returns (file: seq<string>)
      ensures file == SaveLines(Dogs(), Monkeys(), showFloat)
    {
      var dogs, monkeys := Dogs(), Monkeys();
      var dogLines := EachLine(dogs, DogSaver(showFloat));
      var monkeyLines := EachLine(monkeys, MonkeySaver(showFloat));
      file := dogLines + monkeyLines;
      DogViewsUnchanged(dogList);
      MonkeyViewsUnchanged(monkeyList);
    }

    /**
     * The body of the load loop for one line: the record the line describes
     * is appended to its list; `threw` when reading the line throws.
     */
    method ReadRecord(line: string, parseFloat: string -> Option<real>) returns (threw: bool)
      requires Valid()
      modifies this`dogList, this`monkeyList
      ensures Valid()
      ensures Loaded(Dogs(), Monkeys(), threw)
              == LoadStep(Loaded(old(Dogs()), old(Monkeys()), false), ParseLine(line, parseFloat))
    {
      var r := ParseLine(line, parseFloat);
      match r {
        case DogRecord(d) =>
          AddDog(d);
          MonkeyViewsUnchanged(monkeyList);
        case MonkeyRecord(m) =>
          AddMonkey(m);
          DogViewsUnchanged(dogList);
        case Ignored =>
        case Malformed =>
          return true;
      }
      return false;
    }

    /**
     * `loadAnimalData` on the lines of `animals.txt` (`None` when the file
     * cannot be opened, which changes nothing): the lists are emptied and
     * each line read in turn, until a line throws.
     */
    method LoadAnimalData(file: Option<seq<string>>, parseFloat: string -> Option<real>) returns (outcome: LoadOutcome)
      requires Valid()
      modifies this`dogList, this`monkeyList
      ensures Valid()
      ensures file.None? ==> outcome == FileMissing && Dogs() == old(Dogs()) && Monkeys() == old(Monkeys())
      ensures file.Some? ==> outcome != FileMissing
      ensures file.Some? ==> Loaded(Dogs(), Monkeys(), outcome == LineThrew) == LoadLines(file.value, parseFloat)
    {
      if file.None? {
        return FileMissing;
      }
      var lines := file.value;
      dogList, monkeyList := [], [];
      assert lines[..0] == [];
      var i := 0;
      while i < |lines|
        invariant 0 <= i <= |lines|
        invariant Valid()
        invariant LoadLines(lines[..i], parseFloat) == Loaded(Dogs(), Monkeys(), false)
      {
        LoadLinesSnoc(lines, i, parseFloat);
        var threw := ReadRecord(lines[i], parseFloat);
        if threw {
          LoadLinesStop(lines, i + 1, parseFloat);
          return LineThrew;
        }
        i := i + 1;
      }
      assert lines[..i] == lines;
      return LoadedAll;
    }
  }

  /** The body of `printAnimals` over the two lists as they stand. */
  method PrintLists(dogs: seq<DogState>, monkeys: seq<MonkeyState>, listType: string, showFloat: real -> string)
    returns (lines: seq<string>)
    ensures lines == PrintLines(dogs, monkeys, listType, showFloat)
  {
    if EqualsIgnoreCase(listType, "dog") {
      var details := EachLine(dogs, DogDetail(showFloat));
      lines := ["All Dogs:"] + details;
    } else if EqualsIgnoreCase(listType, "monkey") {
      var details := EachLine(monkeys, MonkeyDetail(showFloat));
      lines := ["All Monkeys:"] + details;
    } else if EqualsIgnoreCase(listType, "available") {
      var dogLines, _ := MatchingLines(dogs, AvailableDog, AvailableDogLine);
      var monkeyLines, _ := MatchingLines(monkeys, AvailableMonkey, AvailableMonkeyLine);
      lines := ["Available Dogs:"] + dogLines + ["Available Monkeys:"] + monkeyLines;
    } else {
      lines := [InvalidListType];
    }
  }

  /** The body of `searchAnimals` over the two lists as they stand. */
  method SearchLists(dogs: seq<DogState>, monkeys: seq<MonkeyState>, fieldAnswer: string, valueAnswer: string)
    returns (lines: seq<string>)
    ensures lines == SearchLines(dogs, monkeys, fieldAnswer, valueAnswer)
  {
    var field := Lower(fieldAnswer);
    if !(field == "name" || field == "type" || field == "country") {
      return [InvalidField];
    }
    var value := Lower(valueAnswer);
    var dogLines, dogFound := MatchingLines(dogs, DogMatcher(field, value), SearchDogLine);
    var monkeyLines, monkeyFound := MatchingLines(monkeys, MonkeyMatcher(field, value), SearchMonkeyLine);
    lines := dogLines + monkeyLines;
    if !(dogFound || monkeyFound) {
      lines := lines + [NoMatch];
    }
  }

  /**
   * A `for` loop over a list that prints one line per record: the lines in
   * list order.
   */
  method EachLine<T, U>(records: seq<T>, line: T -> U) returns (lines: seq<U>)
    ensures lines == MapSeq(records, line)
  {
    lines := [];
    var i := 0;
    while i < |records|
      invariant 0 <= i <= |records|
      invariant lines == MapSeq(records[..i], line)
    {
      assert records[..i + 1] == records[..i] + [records[i]];
      MapSnoc(records[..i], records[i], line);
      lines := lines + [line(records[i])];
      i := i + 1;
    }
    assert records[..i] == records;
  }

  /**
   * A `for` loop over a list that prints a line for each record passing a
   * test and sets `found` when one does: the lines of the passing records
   * in list order, and whether there was any.
   */
  method MatchingLines<T(!new), U>(records: seq<T>, test: T -> bool, line: T -> U)
    returns (lines: seq<U>, found: bool)
    ensures lines == MapSeq(Keep(records, test), line)
    ensures found <==> Keep(records, test) != []
  {
    lines, found := [], false;
    var i := 0;
    while i < |records|
      invariant 0 <= i <= |records|
      invariant lines == MapSeq(Keep(records[..i], test), line)
      invariant found <==> lines != []
    {
      assert records[..i + 1] == records[..i] + [records[i]];
      KeepMapSnoc(records[..i], records[i], test, line);
      if test(records[i]) {
        lines := lines + [line(records[i])];
        found := true;
      }
      i := i + 1;
    }
    assert records[..i] == records;
  }

  /**
   * The parsing steps of `intakeNewDog` in the order it takes them: the
   * trimmed age, then the trimmed weight; `None` is the exception the first
   * bad number throws.
   */
  method ReadDog(a: DogAnswers, parseFloat: string -> Option<real>) returns (dog: Option<DogState>)
    ensures dog == DogFromAnswers(a, parseFloat)
  {
    var age := ParseInt(JavaTrim(a.age));
    if age.None? {
      return None;
    }
    var weight := parseFloat(JavaTrim(a.weight));
    if weight.None? {
      return None;
    }
    var reserved := EqualsIgnoreCase(JavaTrim(a.reserved), "yes");
    return Some(NewDog(a.name, a.breed, a.gender, age.value, weight.value, a.acquisitionDate,
                       a.acquisitionCountry, a.trainingStatus, reserved, a.inServiceCountry));
  }

  /**
   * The parsing steps of `intakeNewMonkey` in the order it takes them: tail
   * length, height, body length, age, weight, none of them trimmed.
   */
  method ReadMonkey(a: MonkeyAnswers, parseFloat: string -> Option<real>) returns (monkey: Option<MonkeyState>)
    ensures monkey == MonkeyFromAnswers(a, parseFloat)
  {
    var tailLength := parseFloat(a.tailLength);
    if tailLength.None? {
      return None;
    }
    var height := parseFloat(a.height);
    if height.None? {
      return None;
    }
    var bodyLength := parseFloat(a.bodyLength);
    if bodyLength.None? {
      return None;
    }
    var age := ParseInt(a.age);
    if age.None? {
      return None;
    }
    var weight := parseFloat(a.weight);
    if weight.None? {
      return None;
    }
    var reserved := EqualsIgnoreCase(a.reserved, "yes");
    return Some(NewMonkey(a.name, a.species, tailLength.value, height.value, bodyLength.value, a.gender, age.value,
                          weight.value, a.acquisitionDate, a.acquisitionCountry, a.trainingStatus, reserved,
                          a.inServiceCountry));
  }
}
