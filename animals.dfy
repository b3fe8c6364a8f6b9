/**
 * The console program's records: `RescueAnimal` with its ten private fields,
 * and `Dog` and `Monkey`, which extend it. Java inheritance is modelled by
 * composition: a `Dog` or `Monkey` owns the `RescueAnimal` object that holds
 * its inherited fields (`base`) and adds its own fields. A Java `String`
 * field is a `JString` (`None` is `null`); a Java `float` is a `real`.
 */
module Animals {
  import opened Wrappers
  import opened JavaText

  /** The ten fields of a `RescueAnimal`, as a value; `animalType` is the field `type`. */
  datatype AnimalState = AnimalState(
    name: JString, animalType: JString, gender: JString, age: Int32, weight: real,
    acquisitionDate: JString, acquisitionCountry: JString, trainingStatus: JString,
    reserved: bool, inServiceCountry: JString)

  /** The fields of an object made by the default constructor: Java's defaults. */
  const Unset := AnimalState(None, None, None, 0, 0.0, None, None, None, false, None)

  class RescueAnimal {
    var name: JString
    var animalType: JString
    var gender: JString
    var age: Int32
    var weight: real
    var acquisitionDate: JString
    var acquisitionCountry: JString
    var trainingStatus: JString
    var reserved: bool
    var inServiceCountry: JString

    /** The current field values. */
    function State(): AnimalState
      reads this
    {
      AnimalState(name, animalType, gender, age, weight, acquisitionDate, acquisitionCountry,
                  trainingStatus, reserved, inServiceCountry)
    }

    /** `RescueAnimal()`: null strings, zero numbers, not reserved. */
    constructor Default()
      ensures State() == Unset
    {
      name, animalType, gender, age, weight := None, None, None, 0, 0.0;
      acquisitionDate, acquisitionCountry, trainingStatus := None, None, None;
      reserved, inServiceCountry := false, None;
    }

    /** The constructor for the shared attributes stores every argument. */
    constructor (name: JString, animalType: JString, gender: JString, age: Int32, weight: real,
                 acquisitionDate: JString, acquisitionCountry: JString, trainingStatus: JString,
                 reserved: bool, inServiceCountry: JString)
      ensures GetName() == name && GetType() == animalType && GetGender() == gender
      ensures GetAge() == age && GetWeight() == weight
      ensures GetAcquisitionDate() == acquisitionDate && GetAcquisitionCountry() == acquisitionCountry
      ensures GetTrainingStatus() == trainingStatus && GetReserved() == reserved
      ensures GetInServiceCountry() == inServiceCountry
    {
      this.name := name;
      this.animalType := animalType;
      this.gender := gender;
      this.age := age;
      this.weight := weight;
      this.acquisitionDate := acquisitionDate;
      this.acquisitionCountry := acquisitionCountry;
      this.trainingStatus := trainingStatus;
      this.reserved := reserved;
      this.inServiceCountry := inServiceCountry;
    }

    function GetName(): JString reads this { name }
    function GetType(): JString reads this { animalType }
    function GetGender(): JString reads this { gender }
    function GetAge(): Int32 reads this { age }
    function GetWeight(): real reads this { weight }
    function GetAcquisitionDate(): JString reads this { acquisitionDate }
    function GetAcquisitionCountry(): JString reads this { acquisitionCountry }
    function GetTrainingStatus(): JString reads this { trainingStatus }
    function GetReserved(): bool reads this { reserved }
    function GetInServiceCountry(): JString reads this { inServiceCountry }

    method SetName(name: JString)
      modifies this
      ensures State() == old(State()).(name := name)
    {
      this.name := name;
    }

    method SetType(animalType: JString)
      modifies this
      ensures State() == old(State()).(animalType := animalType)
    {
      this.animalType := animalType;
    }

    method SetGender(gender: JString)
      modifies this
      ensures State() == old(State()).(gender := gender)
    {
      this.gender := gender;
    }

    method SetAge(age: Int32)
      modifies this
      ensures State() == old(State()).(age := age)
    {
      this.age := age;
    }

    method SetWeight(weight: real)
      modifies this
      ensures State() == old(State()).(weight := weight)
    {
      this.weight := weight;
    }

    method SetAcquisitionDate(acquisitionDate: JString)
      modifies this
      ensures State() == old(State()).(acquisitionDate := acquisitionDate)
    {
      this.acquisitionDate := acquisitionDate;
    }

    /** `setAcquisitionSource` writes the field `getAcquisitionCountry` reads. */
    method SetAcquisitionSource(acquisitionSource: JString)
      modifies this
      ensures State() == old(State()).(acquisitionCountry := acquisitionSource)
      ensures GetAcquisitionCountry() == acquisitionSource
    {
      this.acquisitionCountry := acquisitionSource;
    }

    method SetTrainingStatus(trainingStatus: JString)
      modifies this
      ensures State() == old(State()).(trainingStatus := trainingStatus)
    {
      this.trainingStatus := trainingStatus;
    }

    method SetReserved(reserved: bool)
      modifies this
      ensures State() == old(State()).(reserved := reserved)
    {
      this.reserved := reserved;
    }

    method SetInServiceCountry(inServiceCountry: JString)
      modifies this
      ensures State() == old(State()).(inServiceCountry := inServiceCountry)
    {
      this.inServiceCountry := inServiceCountry;
    }
  }

  /** The fields of a `Dog`, as a value. */
  datatype DogState = DogState(animal: AnimalState, breed: JString)

  class Dog {
    /** The inherited part. */
    const base: RescueAnimal
    var breed: JString

    function State(): DogState
      reads this, base
    {
      DogState(base.State(), breed)
    }

    /** `Dog()`: the inherited defaults and a null breed. */
    constructor Default()
      ensures fresh(base)
      ensures State() == DogState(Unset, None)
    {
      base := new RescueAnimal.Default();
      breed := None;
    }

    /**
     * The constructor used by the console: every argument is stored through
     * the inherited setters, except `type`, which no argument feeds and
     * which stays null.
     */
    constructor (name: JString, breed: JString, gender: JString, age: Int32, weight: real,
                 acquisitionDate: JString, acquisitionCountry: JString, trainingStatus: JString,
                 reserved: bool, inServiceCountry: JString)
      ensures fresh(base)
      ensures base.GetName() == name && GetBreed() == breed && base.GetGender() == gender
      ensures base.GetAge() == age && base.GetWeight() == weight
      ensures base.GetAcquisitionDate() == acquisitionDate && GetAcquisitionCountry() == acquisitionCountry
      ensures base.GetTrainingStatus() == trainingStatus && base.GetReserved() == reserved
      ensures GetInServiceCountry() == inServiceCountry
      ensures base.GetType() == None
    {
      var inherited := new RescueAnimal.Default();
      inherited.SetName(name);
      inherited.SetGender(gender);
      inherited.SetAge(age);
      inherited.SetWeight(weight);
      inherited.SetAcquisitionDate(acquisitionDate);
      inherited.SetAcquisitionSource(acquisitionCountry);
      inherited.SetTrainingStatus(trainingStatus);
      inherited.SetReserved(reserved);
      inherited.SetInServiceCountry(inServiceCountry);
      base := inherited;
      this.breed := breed;
    }

    function GetBreed(): JString reads this { breed }

    method SetBreed(breed: JString)
      modifies this
      ensures State() == old(State()).(breed := breed)
    {
      this.breed := breed;
    }

    /** The override that returns the inherited value. */
    function GetAcquisitionCountry(): JString reads base { base.GetAcquisitionCountry() }

    /** The override that returns the inherited value. */
    function GetInServiceCountry(): JString reads base { base.GetInServiceCountry() }
  }

  /** The fields of a `Monkey`, as a value. */
  datatype MonkeyState = MonkeyState(animal: AnimalState, species: JString, tailLength: real,
                                     height: real, bodyLength: real)

  class Monkey {
    /** The inherited part. */
    const base: RescueAnimal
    var tailLength: real
    var height: real
    var bodyLength: real
    var species: JString

    function State(): MonkeyState
      reads this, base
    {
      MonkeyState(base.State(), species, tailLength, height, bodyLength)
    }

    /** `Monkey()`: the inherited defaults, a null species and zero lengths. */
    constructor Default()
      ensures fresh(base)
      ensures State() == MonkeyState(Unset, None, 0.0, 0.0, 0.0)
    {
      base := new RescueAnimal.Default();
      tailLength, height, bodyLength, species := 0.0, 0.0, 0.0, None;
    }

    /**
     * The constructor used by the console: the inherited fields through the
     * setters (`type` stays null), then the four monkey fields directly.
     */
    constructor (name: JString, species: JString, tailLength: real, height: real, bodyLength: real,
                 gender: JString, age: Int32, weight: real, acquisitionDate: JString,
                 acquisitionCountry: JString, trainingStatus: JString, reserved: bool,
                 inServiceCountry: JString)
      ensures fresh(base)
      ensures GetSpecies() == species && GetTailLength() == tailLength
      ensures GetHeight() == height && GetBodyLength() == bodyLength
      ensures base.GetName() == name && base.GetGender() == gender
      ensures base.GetAge() == age && base.GetWeight() == weight
      ensures base.GetAcquisitionDate() == acquisitionDate && GetAcquisitionCountry() == acquisitionCountry
      ensures base.GetTrainingStatus() == trainingStatus && base.GetReserved() == reserved
      ensures GetInServiceCountry() == inServiceCountry
      ensures base.GetType() == None
    {
      var inherited := new RescueAnimal.Default();
      inherited.SetName(name);
      inherited.SetGender(gender);
      inherited.SetAge(age);
      inherited.SetWeight(weight);
      inherited.SetAcquisitionDate(acquisitionDate);
      inherited.SetAcquisitionSource(acquisitionCountry);
      inherited.SetTrainingStatus(trainingStatus);
      inherited.SetReserved(reserved);
      inherited.SetInServiceCountry(inServiceCountry);
      base := inherited;
      this.species := species;
      this.tailLength := tailLength;
      this.height := height;
      this.bodyLength := bodyLength;
    }

    function GetTailLength(): real reads this { tailLength }
    function GetHeight(): real reads this { height }
    function GetBodyLength(): real reads this { bodyLength }
    function GetSpecies(): JString reads this { species }

    method SetTailLength(tailLength: real)
      modifies this
      ensures State() == old(State()).(tailLength := tailLength)
    {
      this.tailLength := tailLength;
    }

    method SetHeight(height: real)
      modifies this
      ensures State() == old(State()).(height := height)
    {
      this.height := height;
    }

    method SetBodyLength(bodyLength: real)
      modifies this
      ensures State() == old(State()).(bodyLength := bodyLength)
    {
      this.bodyLength := bodyLength;
    }

    method SetSpecies(species: JString)
      modifies this
      ensures State() == old(State()).(species := species)
    {
      this.species := species;
    }

    /** The override that returns the inherited value. */
    function GetAcquisitionCountry(): JString reads base { base.GetAcquisitionCountry() }

    /** The override that returns the inherited value. */
    function GetInServiceCountry(): JString reads base { base.GetInServiceCountry() }
  }
}
