# Rescue animal records — a verified model

The system keeps the records of a service-animal rescue: dogs and monkeys,
each with a name, a training status, a reserved flag, the countries it was
acquired in and serves in, and a few measurements. It exists in three forms.

- A Java console program keeps two lists of `Dog` and `Monkey` objects. Both
  classes extend `RescueAnimal`. A menu takes in new animals with a duplicate-name
  check, reserves the first eligible animal, prints listings, searches, and
  saves the lists to `animals.txt` and loads them back.
- An Express backend stores the records in MongoDB. Its search handlers either
  look up one record by id, using a binary search over a list sorted by id, or
  apply optional field filters. There are several near-duplicate copies of
  these handlers, in the routers, the controllers and `server.js`. Request
  bodies pass through one of six validators. Users register and log in
  against a users file.
- The browser side is a plain page keeping lists in `localStorage`, two React
  manager pages with a name filter and nine cards a page, and a dog list
  component with inline editing and deletion.

The model gives one Dafny module per source file, plus a few shared modules:

- `Wrappers`: `Option`.
- `JsText`: ASCII case mapping, `trim`, `includes` and code-unit string order.
- `JsValues`: JSON values, NaN-aware numbers and query parameters.
- `Docs`: a stored record, with its order-keeping filter `Keep`.
- `Validation`: the first-failing-field scan the validators share.
- `JavaText`: Java's `trim`, `Integer.parseInt`, `split(",")` and how values print.

The parts that change state step by step are classes with the source's own
fields:

- the Java records and the console `Driver`;
- the users file;
- a database collection;
- a request whose body a middleware rewrites;
- the browser store;
- the two manager pages;
- the dog list component.

Each method is proved against a specification function over values, and the
properties are proved about those functions.

I/O, the database, the clock, hashing and number parsing become parameters:

- the database hands in the records it returned, and a sort hands in a permutation of them;
- `parseInt` and `Number` are abstract coercions that yield a number or NaN;
- `Date.parse` is an abstract predicate;
- `bcrypt.compare` is an abstract relation;
- Java's `Float.parseFloat` and float printing are abstract functions;
- console input is passed in as the answers already read;
- printed output and the save file are returned as sequences of lines.

## Model

| member | source | states |
|---|---|---|
| Animals.RescueAnimal.Default | RescueAnimal.java:14 | the no-argument constructor leaves every field at its Java default: null strings, zero numbers, false |
| Animals.RescueAnimal.constructor | RescueAnimal.java:17-30 | the record holds exactly the ten arguments, `type` included |
| Animals.RescueAnimal.SetName | RescueAnimal.java:34 | only `name` changes, to the argument |
| Animals.RescueAnimal.SetType | RescueAnimal.java:37 | only `type` changes, to the argument |
| Animals.RescueAnimal.SetGender | RescueAnimal.java:40 | only `gender` changes |
| Animals.RescueAnimal.SetAge | RescueAnimal.java:43 | only `age` changes |
| Animals.RescueAnimal.SetWeight | RescueAnimal.java:46 | only `weight` changes |
| Animals.RescueAnimal.SetAcquisitionDate | RescueAnimal.java:49 | only the acquisition date changes |
| Animals.RescueAnimal.SetAcquisitionSource | RescueAnimal.java:57-59 | `setAcquisitionSource` writes only the acquisition country, the field its getter reads |
| Animals.RescueAnimal.SetTrainingStatus | RescueAnimal.java:62 | only the training status changes |
| Animals.RescueAnimal.SetReserved | RescueAnimal.java:65 | only `reserved` changes |
| Animals.RescueAnimal.SetInServiceCountry | RescueAnimal.java:68 | only the in-service country changes |
| Animals.Dog.Default | Dog.java:7-9 | a dog with a default inherited part and a null breed |
| Animals.Dog.constructor | Dog.java:12-29 | the dog holds the arguments, with `type` left null; the inherited part is a fresh object |
| Animals.Dog.SetBreed | Dog.java:37-39 | only the breed changes; the inherited part is untouched |
| Animals.Monkey.Default | Monkey.java:11-13 | a monkey with a default inherited part and null or zero own fields |
| Animals.Monkey.constructor | Monkey.java:16-36 | the monkey holds the thirteen arguments, with `type` left null |
| Animals.Monkey.SetTailLength | Monkey.java:43-45 | only the tail length changes |
| Animals.Monkey.SetHeight | Monkey.java:51-53 | only the height changes |
| Animals.Monkey.SetBodyLength | Monkey.java:59-61 | only the body length changes |
| Animals.Monkey.SetSpecies | Monkey.java:67-69 | only the species changes |
| RescueConsole.Driver.constructor | Driver.java:10-11 | the console starts with two empty lists |
| RescueConsole.Driver.WithSamples | Driver.java:31-42 | after the two initialisers, the lists hold the three sample dogs and three sample monkeys, in order |
| RescueConsole.Driver.AddDogs | Driver.java:31-35 | one `add` per record appends exactly those dogs, in order |
| RescueConsole.Driver.AddMonkeys | Driver.java:38-42 | one `add` per record appends exactly those monkeys, in order |
| RescueConsole.Driver.AddDog | Driver.java:74 | a new dog object holding the record is appended; no earlier record changes and no two records share an object |
| RescueConsole.Driver.AddMonkey | Driver.java:121 | a new monkey object holding the record is appended; no earlier record changes |
| RescueConsole.Driver.HasDogNamed | Driver.java:48-53 | the loop answers true exactly when some dog's name equals the answer ignoring case |
| RescueConsole.Driver.HasMonkeyNamed | Driver.java:82-87 | the loop answers true exactly when some monkey's name equals the answer ignoring case |
| RescueConsole.Driver.IntakeNewDog | Driver.java:45-76 | the printed outcome and the new dog list are those of `DriverSpec.IntakeDog` |
| RescueConsole.Driver.IntakeNewMonkey | Driver.java:79-123 | the printed outcome and the new monkey list are those of `DriverSpec.IntakeMonkey` |
| RescueConsole.Driver.FindReservableDog | Driver.java:133-134 | the loop stops at the first unreserved dog serving in the country ignoring case, as `FirstEligible` picks it |
| RescueConsole.Driver.FindReservableMonkey | Driver.java:141-142 | the same for the monkeys |
| RescueConsole.Driver.ReserveDogAt | Driver.java:135 | `setReserved(true)` changes that one dog's flag and nothing else, monkeys included |
| RescueConsole.Driver.ReserveMonkeyAt | Driver.java:143 | `setReserved(true)` changes that one monkey's flag and nothing else |
| RescueConsole.Driver.ReserveDog | Driver.java:132-139 | the dogs become `ReserveFirstDog`, the monkeys are untouched, and the line names the dog reserved |
| RescueConsole.Driver.ReserveMonkey | Driver.java:140-147 | the monkeys become `ReserveFirstMonkey`, the dogs are untouched, and the line names the monkey reserved |
| RescueConsole.Driver.ReserveAnimal | Driver.java:126-151 | lists and lines are those of `DriverSpec.Reserve` for the lower-cased type answer |
| RescueConsole.Driver.PrintAnimals | Driver.java:154-204 | the printed lines are `PrintLines` of the lists as they stand |
| RescueConsole.Driver.SearchAnimals | Driver.java:208-243 | the printed lines are `SearchLines` of the lists and the two answers |
| RescueConsole.Driver.SaveAnimalData | Driver.java:246-266 | the file holds `SaveLines`: one line per dog, then one per monkey |
| RescueConsole.Driver.ReadRecord | Driver.java:274-285 | one pass of the load loop is one `LoadStep` on the line's parse |
| RescueConsole.Driver.LoadAnimalData | Driver.java:269-291 | a missing file changes nothing; otherwise the lists are emptied and end as `LoadLines` of the file, stopping at the first line that throws |
| RescueConsole.PrintLists | Driver.java:154-204 | the branch on the list type, ignoring case, prints the dog, monkey or available listing, or the invalid-type line |
| RescueConsole.SearchLists | Driver.java:208-243 | an unknown field prints only its error; otherwise the dog hits, the monkey hits, and the no-match line when there are none |
| RescueConsole.EachLine | Driver.java:157-167 | a printing loop prints one line per record, in list order |
| RescueConsole.MatchingLines | Driver.java:220-238 | a guarded printing loop prints the lines of the passing records in order, and `found` is set iff one passed |
| RescueConsole.ReadDog | Driver.java:59-72 | reading the dog's answers yields `DogFromAnswers`, with the first bad number throwing |
| RescueConsole.ReadMonkey | Driver.java:98-119 | reading the monkey's answers yields `MonkeyFromAnswers` |
| RescueConsole.DogViews | Driver.java:10 | the dog list's current fields, one per dog, in order |
| RescueConsole.MonkeyViews | Driver.java:11 | the monkey list's current fields, one per monkey, in order |
| DriverSpec.SpeciesAllowedAsWritten | Driver.java:91-93 | the species test is exactly the six `equalsIgnoreCase` calls with the names as written |
| DriverSpec.NewDog | Driver.java:74 | `new Dog(...)` from console answers gives a record with non-null strings and a null `type` |
| DriverSpec.NewMonkey | Driver.java:121 | `new Monkey(...)` from console answers gives such a record too |
| DriverSpec.SamplesRecorded | Driver.java:31-42 | every sample record has non-null strings and a null `type` |
| DriverSpec.DogFromAnswers | Driver.java:59-74 | the intake builds a dog exactly when the trimmed age is an `int` and the trimmed weight parses; the dog carries the answered name |
| DriverSpec.MonkeyFromAnswers | Driver.java:98-121 | the intake builds a monkey exactly when the five untrimmed numbers parse |
| DriverSpec.IntakeDog | Driver.java:45-76 | a name already taken, ignoring case, leaves the list and says so; a bad number throws with the list unchanged; otherwise exactly one dog is appended |
| DriverSpec.IntakeMonkey | Driver.java:79-123 | a taken name or a species outside the six leaves the list; a bad number throws; otherwise exactly one monkey is appended |
| DriverSpec.IntakeDogKeepsNamesUnique | Driver.java:48-53 | if no two dogs share a name ignoring case, no two do after an intake |
| DriverSpec.IntakeMonkeyKeepsNamesUnique | Driver.java:82-87 | the same for the monkeys |
| DriverSpec.FirstEligible | Driver.java:133-134 | the position found holds an eligible animal and none before it is eligible; none found means none is eligible |
| DriverSpec.FirstEligibleAt | Driver.java:133-137 | an eligible position with nothing eligible before it is the one picked |
| DriverSpec.ReserveFirstCount | Driver.java:133-147 | a reservation lowers the number of eligible animals by exactly one, or leaves it at zero |
| DriverSpec.ReserveFirstDogAnimals | Driver.java:135 | reserving a dog changes only its inherited part; breeds are untouched |
| DriverSpec.ReserveFirstMonkeyAnimals | Driver.java:143 | reserving a monkey changes only its inherited part; the monkey fields are untouched |
| DriverSpec.Reserve | Driver.java:126-151 | lengths are kept; only the list of the named type can change; an unknown type prints only "Invalid animal type." |
| DriverSpec.AvailableListingExactly | Driver.java:186-199 | the available listing names exactly the unreserved in-service dogs, in order, then likewise the monkeys |
| DriverSpec.NoMatchIffNothingMatches | Driver.java:220-242 | for a known field, "No matching animal found." is printed iff no dog and no monkey matches |
| DriverSpec.HitLinesNotNoMatch | Driver.java:226-241 | no hit line is the no-match line |
| DriverSpec.TypeSearchIgnoresTypeField | Driver.java:223-233 | a search by type "dog" lists every dog and no monkey, whatever the `type` fields hold |
| DriverSpec.ParseLine | Driver.java:275-285 | a record read from a line has non-null strings and a null `type` |
| DriverSpec.LoadResults | Driver.java:274-286 | every record the loop appends comes from some line of the file |
| DriverSpec.LoadedRecorded | Driver.java:269-286 | every record a load creates is one the console could have created |
| DriverSpec.LoadStep | Driver.java:274-286 | the loop fails after a line iff it had failed already or the line throws |
| DriverSpec.LoadStopsAtFailure | Driver.java:274-286 | the lines after the first one that throws change nothing |
| DriverSpec.LoadLinesStop | Driver.java:274-286 | the same, stated on the file's lines |
| DriverSpec.DogLineRoundTrip | Driver.java:276-279 | a saved dog line with comma-free strings and a non-empty last field reads back as the same dog |
| DriverSpec.MonkeyLineRoundTrip | Driver.java:280-284 | a saved monkey line reads back as the same monkey, under the same conditions |
| DriverSpec.SaveThenLoad | Driver.java:246-291 | saving and then loading gives back the same dogs and monkeys in the same order, when every record round-trips |
| DriverSpec.LoadRecords | Driver.java:271-286 | reading the records of some dogs and then some monkeys into emptied lists gives exactly those lists |
| DriverSpec.ParseSaved | Driver.java:249-260 | every line of the saved file parses as the record it was written from |
| JavaText.ParseInt | Driver.java:60 | `Integer.parseInt` accepts an optional sign and ASCII decimal digits whose value fits in an `int`, and throws otherwise |
| JavaText.IntRoundTrip | Driver.java:277 | an `int` printed and parsed back is the same `int` |
| JavaText.BoolRoundTrip | Driver.java:279 | `Boolean.parseBoolean` of a printed boolean is that boolean |
| JavaText.SplitJoin | Driver.java:275 | comma-free fields, at least two, the last one non-empty, come back from `split(",")` as they were joined |
| JavaText.TrailingEmptyFieldLost | Driver.java:275 | `split(",")` drops a trailing empty field: "a," splits to one piece |
| Auth.UsernameExamples | webapp/backend/authController.js:33 | examples only: 4 to 15 letters or digits pass; a short name or an underscore fails |
| Auth.PasswordAccepted | webapp/backend/authController.js:34 | example only: a mixed-case password of eight characters with a digit passes |
| Auth.PasswordsRefused | webapp/backend/authController.js:34 | examples only: a password missing a lower-case letter, an upper-case letter or a digit, too short, or holding a line break fails |
| Auth.InheritedNameLooksTaken | webapp/backend/authController.js:41 | as written, "toString" is taken in an empty users map (see Findings) |
| Auth.ExistsAgreesOffInherited | webapp/backend/authController.js:41 | the check as written differs from the intended one only on the inherited property names |
| Auth.UserStore.constructor | webapp/backend/authController.js:14-21 | the store holds the users the file gave |
| Auth.UserStore.Register | webapp/backend/authController.js:29-53 | a bad format is refused with 400; a taken name with 409 and no change; otherwise exactly one entry is added |
| Auth.Login | webapp/backend/authController.js:56-74 | 200 iff the user exists and the password matches its hash; otherwise the one 400 message |
| Auth.LoginAfterRegister | webapp/backend/authController.js:46-73 | after a registration the same password logs in, and other users log in as before |
| Validation.FirstFailing | webapp/backend/middleware/validateDog.js:23-28 | no key is reported iff every listed key passes; a reported key is a listed key that fails |
| Validation.FirstFailingAt | webapp/backend/middleware/validateDog.js:23-28 | the key reported is the first failing one |
| Validation.NumberChecksDifferOnlyOnNaN | webapp/backend/middleware/validateMonkey.js:30-31 | `!(v < 0)` and `v >= 0` on a number disagree exactly on NaN |
| JsValues.NonEmptyStringIffNotBlank | webapp/backend/middleware/validateDog.js:19-20 | a value counts as a non-empty string iff it is a string with a non-whitespace character |
| BackendValidateDog.Validate | webapp/backend/middleware/validateDog.js:6-58 | never throws; passes iff the body meets every condition; a failure with all strings present reports an enum, number or flag error |
| BackendValidateDog.FirstMissingWins | webapp/backend/middleware/validateDog.js:23-28 | the first missing or blank required string is the one reported |
| BackendValidateDog.AgeReportedBeforeWeight | webapp/backend/middleware/validateDog.js:45-50 | with age and weight both negative, the age error is reported |
| BackendValidateDog.AcquisitionFieldsIgnored | webapp/backend/middleware/validateDog.js:7-17 | changing the acquisition date or location never changes the answer |
| BackendValidateDog.EnumsIgnoreCase | webapp/backend/middleware/validateDog.js:31-42 | gender and training status are accepted in any letter case |
| BackendValidateMonkey.Checks | webapp/backend/middleware/validateMonkey.js:6-131 | never throws; passes iff the body meets every condition |
| BackendValidateMonkey.Normalised | webapp/backend/middleware/validateMonkey.js:137-141 | the rewrite lower-cases the three enum fields and touches nothing else |
| BackendValidateMonkey.Validate | webapp/backend/middleware/validateMonkey.js:6-146 | the answer is `Checks`; a pass rewrites the body to `Normalised`; a failure leaves it |
| BackendValidateMonkey.FirstMissingWins | webapp/backend/middleware/validateMonkey.js:46-52 | the first failing required string is reported |
| BackendValidateMonkey.FirstNegativeWins | webapp/backend/middleware/validateMonkey.js:116-122 | once the earlier checks pass, the first failing numeric field is reported |
| BackendValidateMonkey.Idempotent | webapp/backend/middleware/validateMonkey.js:137-141 | a body that passes still passes after the rewrite, and rewriting twice equals rewriting once |
| WebappValidateDog.Validate | webapp/middleware/validateDog.js:7-72 | never throws; passes iff the body meets every condition |
| WebappValidateDog.FirstMissingWins | webapp/middleware/validateDog.js:38-42 | the first failing required string is reported |
| WebappValidateDog.GenderIsCaseSensitive | webapp/middleware/validateDog.js:45-48 | "male" is refused with the gender error |
| WebappValidateDog.AgeReportedBeforeWeight | webapp/middleware/validateDog.js:57-63 | with both negative, the age error is reported |
| WebappValidateDog.StringReservedRefused | webapp/middleware/validateDog.js:66-68 | a reserved flag given as a string is refused |
| WebappValidateMonkey.Validate | webapp/middleware/validateMonkey.js:6-78 | never throws; passes iff the body meets every condition |
| WebappValidateMonkey.FirstMissingWins | webapp/middleware/validateMonkey.js:39-43 | the first failing required string is reported |
| WebappValidateMonkey.FirstNegativeWins | webapp/middleware/validateMonkey.js:65-69 | once strings and enums pass, the first failing numeric field is reported |
| WebappValidateMonkey.AnySpeciesAccepted | webapp/middleware/validateMonkey.js:28-43 | replacing a non-blank species by another never changes the answer |
| NormalisingValidateMonkey.OptionalLower | webapp/backend/middleware/validateMonkey.test.js:27-29 | a string is lower-cased; a nullish value gives `undefined` |
| NormalisingValidateMonkey.Checks | webapp/backend/middleware/validateMonkey.test.js:1-112 | it throws iff gender, training status or species is a non-nullish non-string that `toLowerCase` cannot handle |
| NormalisingValidateMonkey.Validate | webapp/backend/middleware/validateMonkey.test.js:1-121 | the answer is `Checks`; a pass writes the lower-cased enums back; a failure leaves the body |
| NormalisingValidateMonkey.SameAsBackend | webapp/backend/middleware/validateMonkey.test.js:27-112 | when nothing throws, it answers as the backend validator does |
| NormalisingValidateMonkey.NumericGenderThrows | webapp/backend/middleware/validateMonkey.test.js:27 | a numeric gender throws here, where the backend validator reports the missing gender |
| ValidationMiddleware.NonEmptyStringMeaning | webapp/middleware/validationmiddleware.js:9 | `isNonEmptyString` holds iff the value is a non-blank string, as in the other validators |
| ValidationMiddleware.ValidateDog | webapp/middleware/validationmiddleware.js:14-69 | never throws; any bad string gives the one generic string error |
| ValidationMiddleware.ValidateMonkey | webapp/middleware/validationmiddleware.js:74-144 | never throws; any bad string gives the generic string error |
| ValidationMiddleware.DogStringsAgree | webapp/middleware/validationmiddleware.js:30-41 | its string test passes iff the webapp dog validator's scan finds no failing key |
| ValidationMiddleware.DogSameAcceptance | webapp/middleware/validationmiddleware.js:14-69 | it accepts and refuses exactly the bodies the webapp dog validator does |
| ValidationMiddleware.MonkeyStringsAgree | webapp/middleware/validationmiddleware.js:93-104 | the same agreement for the monkey string test |
| ValidationMiddleware.MonkeySameAcceptance | webapp/middleware/validationmiddleware.js:74-144 | it accepts and refuses exactly the bodies the webapp monkey validator does |
| ValidationMiddleware.MonkeyNumbersAgree | webapp/middleware/validationmiddleware.js:118-136 | its number checks pass iff the webapp monkey validator's scan passes |
| BinarySearch.ProbeSound | webapp/backend/utils/binarySearch.js:17-33 | a record the probe returns lies in the window and has the target key |
| BinarySearch.Lookup | webapp/backend/utils/binarySearch.js:9-36 | a result is an element of the array; a missing array or an empty or missing target gives null |
| BinarySearch.BinarySearch | webapp/backend/utils/binarySearch.js:9-36 | the loop computes `Lookup`, so a result is an element of the array |
| BinarySearch.ProbeFinds | webapp/backend/utils/binarySearch.js:17-33 | in a list sorted by lower-cased id, with every id present, a key in the window is found |
| BinarySearch.ProbeStep | webapp/backend/utils/binarySearch.js:18-32 | one step keeps the sought key inside the narrowed window |
| BinarySearch.LookupFindsPresent | webapp/backend/utils/binarySearch.js:9-36 | sorted and present implies found |
| BinarySearch.LookupMiss | webapp/backend/utils/binarySearch.js:35 | an absent key gives null |
| BinarySearch.LookupEmpty | webapp/backend/utils/binarySearch.js:10-17 | an empty array gives null for every target |
| BinarySearch.LookupIgnoresCase | webapp/backend/utils/binarySearch.js:13-19 | the result depends on the target only through its lower-case form |
| BinarySearch.MissingIdAborts | webapp/backend/utils/binarySearch.js:21-24 | a middle record without an id aborts the search, even when the target is present |
| BinarySearch.MidWithoutId | webapp/backend/utils/binarySearch.js:19-24 | the first probe of a record without an id returns null |
| BinarySearch.SampleMiddle | webapp/backend/tests/binarySearch.test.js:15-18 | example only: the middle id of the five-record example is found |
| BinarySearch.SampleFirst | webapp/backend/tests/binarySearch.test.js:21-24 | example only: the first id is found |
| BinarySearch.SampleLast | webapp/backend/tests/binarySearch.test.js:27-30 | example only: the last id is found |
| BinarySearch.SampleMisses | webapp/backend/tests/binarySearch.test.js:33-42 | examples only: an absent id, or any id in an empty array, gives null |
| SearchCommon.NaNMatchesNothing | webapp/backend/routes/dogRoutes.js:68 | a NaN query number equals no stored number |
| SearchCommon.LookupReply | webapp/backend/controllers/dogController.js:67-72 | a lookup reply is one record with the id, or not found; an absent id gives not found; sorted and present gives a result |
| SearchCommon.Collection.constructor | webapp/backend/controllers/dogController.js:32-43 | a collection holds the records given |
| SearchCommon.CreateIfAbsent | webapp/backend/controllers/dogController.js:32-43 | a stored id gives the duplicate reply with no change; a failed save the failure reply; otherwise exactly the new record is appended |
| DogRoutes.ExactProbe | webapp/backend/routes/dogRoutes.js:16-25 | a record found lies in the window with exactly the target id |
| DogRoutes.RouteBinarySearch | webapp/backend/routes/dogRoutes.js:12-26 | the loop computes `ExactProbe`; a result has exactly the target id; an empty list gives null |
| DogRoutes.ExactProbeFinds | webapp/backend/routes/dogRoutes.js:16-23 | in a list sorted by raw id, a present id is found |
| DogRoutes.ExactProbeMissesMixedCase | webapp/backend/routes/dogRoutes.js:18-22 | on a list sorted by lower-cased id, the case-sensitive search can miss a present id |
| DogRoutes.ApplyFilters | webapp/backend/routes/dogRoutes.js:57-86 | the filter chain keeps, in order, exactly the records passing all seven filters |
| DogRoutes.Search | webapp/backend/routes/dogRoutes.js:31-93 | a failed sort gives 500; with an id, one record with that id or not found; without, the filtered records |
| DogRoutes.MoreParametersNarrow | webapp/backend/routes/dogRoutes.js:57-86 | one more parameter only removes records |
| DogRoutes.NonNumericAgeMatchesNothing | webapp/backend/routes/dogRoutes.js:67-69 | an age `parseInt` makes NaN gives no results |
| DogRoutes.FractionalWeightNeverMatches | webapp/backend/routes/dogRoutes.js:70-72 | a fractional stored weight never matches a `parseInt` value |
| DogRoutes.EmptyReservedKeepsUnreserved | webapp/backend/routes/dogRoutes.js:78-81 | `reserved` given as the empty string keeps only unreserved records |
| DogRoutes.Create | webapp/backend/routes/dogRoutes.js:98-116 | a stored id gives 400 "Duplicate dog ID" with no change; a failed save 500 "Failed to create dog"; otherwise the record is appended |
| DogController.CreateDog | webapp/backend/controllers/dogController.js:32-43 | the same three outcomes with the controller's messages |
| DogController.GetDogsQuery | webapp/backend/controllers/dogController.js:46-52 | the query has a key iff its parameter is non-empty: a name pattern, an exact status, a flag |
| DogController.ApplyFilters | webapp/backend/controllers/dogController.js:74-77 | a name filter over a record without a name throws; otherwise exactly the matching records, in order |
| DogController.SearchDogs | webapp/backend/controllers/dogController.js:61-83 | a failed sort gives 500; with an id, one record or "Dog not found"; without, the filtered records or 500 when the filter throws |
| DogController.EmptyReservedFiltersNothing | webapp/backend/controllers/dogController.js:77 | an empty `reserved` applies no filter |
| MonkeyController.CreateMonkey | webapp/backend/controllers/monkeyController.js:7-18 | a stored id gives the duplicate reply; a failed save the failure; otherwise the record is appended |
| MonkeyController.GetAllMonkeysQuery | webapp/backend/controllers/monkeyController.js:21-37 | which of the five keys the query gets, and the value each holds |
| MonkeyController.SearchMonkeys | webapp/backend/controllers/monkeyController.js:40-66 | a failed sort gives 500; with an id, one record or "Monkey not found"; without, the records passing the five filters |
| MonkeyRoutes.Create | webapp/backend/routes/monkeyRoutes.js:20-31 | a stored id gives 409 with no change; a failed save 400; otherwise the record is appended |
| MonkeyRoutes.ListQuery | webapp/backend/routes/monkeyRoutes.js:36-52 | which of the five keys the query gets, and the value each holds |
| MonkeyRoutes.ApplyFilters | webapp/backend/routes/monkeyRoutes.js:74-79 | exactly the records passing the five filters, in order |
| MonkeyRoutes.Search | webapp/backend/routes/monkeyRoutes.js:57-85 | a failed sort gives 500; with an id, one record or not found; without, the filtered records |
| MonkeyRoutes.NonNumericTailLengthMatchesNothing | webapp/backend/routes/monkeyRoutes.js:79 | a tail length that `Number` makes NaN gives no results |
| MonkeyRoutes.SpeciesIsCaseSensitive | webapp/backend/routes/monkeyRoutes.js:76-77 | "capuchin" does not match a stored "Capuchin" |
| Server.CreateDog | webapp/backend/server.js:72-83 | a stored id gives 409 "Duplicate dog ID"; a failed save 400; otherwise the record is appended |
| Server.DogsQuery | webapp/backend/server.js:86-98 | the query has name, trainingStatus and reserved, each iff its parameter is non-empty |
| Server.SearchDogs | webapp/backend/server.js:101-123 | a failed sort gives 500; with an id, one record or "Dog not found"; without, the filtered records or 500 |
| Server.CreateMonkey | webapp/backend/server.js:128-139 | a stored id gives 409 "Duplicate monkey ID"; a failed save 400; otherwise the record is appended |
| Server.MonkeysQuery | webapp/backend/server.js:142-154 | the query has name, species and reserved, each iff its parameter is non-empty |
| Server.ApplyMonkeyFilters | webapp/backend/server.js:170-173 | a name filter over an unnamed record throws; otherwise exactly the matching records |
| Server.SearchMonkeys | webapp/backend/server.js:157-179 | a failed sort gives 500; with an id, one record or "Monkey not found"; without, the filtered records or 500 |
| Server.SameAsRouterWithoutExtras | webapp/backend/server.js:170-173 | without the router's extra parameters, it keeps the same records as the monkey router |
| Docs.RemoveByOid | webapp/frontend/src/components/DogList.js:66 | removing by `_id` keeps, in order, exactly the entries with another `_id` |
| BrowserStore.SearchResults | webapp/script.js:159-166 | the results keep list order and hold exactly the records whose name or species contains the lower-cased term |
| BrowserStore.SearchIgnoresTermCase | webapp/script.js:160 | the term's letter case does not matter |
| BrowserStore.EmptyTermKeepsDescribed | webapp/script.js:163-166 | an empty term keeps exactly the records with a name or a species |
| BrowserStore.AvailableList | webapp/script.js:135-137 | the available list holds exactly the records whose `reserved` is the string "false" |
| BrowserStore.AvailableDogsFirst | webapp/script.js:137 | the available dogs come first, in order, then the available monkeys |
| BrowserStore.ReserveAllEffect | webapp/script.js:196-202 | the length is kept; records with the name get `reserved` "true"; no other field or record changes |
| BrowserStore.ReserveAllChanges | webapp/script.js:195-208 | the list changes iff some record with that name was not reserved |
| BrowserStore.ReserveAllIdempotent | webapp/script.js:197 | reserving the same name again changes nothing |
| BrowserStore.AfterLoadReplacesArrays | webapp/script.js:247-260 | a stored list is replaced only by an imported array, and loading twice equals loading once |
| BrowserStore.ImportedArrayIgnored | webapp/script.js:238-277 | as written, importing a file with a dogs array stores nothing (see Findings) |
| BrowserStore.LocalStore.constructor | webapp/script.js:135 | both lists start empty |
| BrowserStore.LocalStore.SaveAnimalToLocal | webapp/script.js:230-235 | the item is appended to its kind's list; the other list is unchanged |
| BrowserStore.LocalStore.SubmitReservation | webapp/script.js:189-209 | an unnamed record throws with nothing stored; otherwise the list becomes `ReserveAll`, and `found` iff it changed |
| BrowserStore.LocalStore.LoadImported | webapp/script.js:242-276 | the lists become `AfterLoad` of the parsed file |
| BrowserStore.LocalStore.ImportData | webapp/script.js:238-277 | the lists become those of the intended import (see Findings) |
| Pagination.TotalPages | webapp/frontend/src/pages/DogManager.js:140 | the fewest pages of nine that hold the items; zero pages iff no items |
| Pagination.PageOf | webapp/frontend/src/pages/DogManager.js:141-144 | at most nine items, those at indices `[(p-1)*9, p*9)`, in order |
| Pagination.FirstPagesPrefix | webapp/frontend/src/pages/DogManager.js:141-144 | the first k pages concatenate to the first `min(9k, n)` items |
| Pagination.PagesCoverList | webapp/frontend/src/pages/DogManager.js:140-144 | pages 1 to `totalPages` concatenate to the whole list |
| Pagination.PagesInRangeNonEmpty | webapp/frontend/src/pages/DogManager.js:140-144 | a page is non-empty iff its number is at most `totalPages` |
| DogManagerPage.FilteredDogs | webapp/frontend/src/pages/DogManager.js:136-138 | the filtered dogs keep order and are exactly the named dogs whose name contains the filter ignoring case |
| DogManagerPage.EmptyFilterKeepsNamed | webapp/frontend/src/pages/DogManager.js:137 | an empty filter keeps exactly the dogs with a name |
| DogManagerPage.ShownAreFiltered | webapp/frontend/src/pages/DogManager.js:141-144 | the cards shown are at most nine matching dogs |
| DogManagerPage.DogManager.constructor | webapp/frontend/src/pages/DogManager.js:11-17 | no dogs, no error, an empty filter, page 1 |
| DogManagerPage.DogManager.FetchDogs | webapp/frontend/src/pages/DogManager.js:26-38 | a success stores the results or an empty list; a failure sets "Failed to load dogs" |
| DogManagerPage.DogManager.SetFilterText | webapp/frontend/src/pages/DogManager.js:156-159 | the new filter text, back to page 1 |
| DogManagerPage.DogManager.PrevPage | webapp/frontend/src/pages/DogManager.js:248 | one page back, never below 1 |
| DogManagerPage.DogManager.NextPage | webapp/frontend/src/pages/DogManager.js:258 | one page on, never past the last page |
| DogManagerPage.DogManager.HandleDelete | webapp/frontend/src/pages/DogManager.js:89-100 | a success removes every dog with that `_id`, keeping order; a failure sets the error |
| MonkeyManagerPage.FilteredMonkeys | webapp/frontend/src/pages/MonkeyManager.js:132-134 | throws iff some monkey has no name; otherwise the monkeys whose name contains the filter ignoring case, in order |
| MonkeyManagerPage.FilterAgreesWhenNamed | webapp/frontend/src/pages/MonkeyManager.js:132-134 | when every monkey is named, the monkey filter equals the dog page's filter |
| MonkeyManagerPage.MonkeyManager.constructor | webapp/frontend/src/pages/MonkeyManager.js:11-17 | no monkeys, no error, an empty filter, page 1 |
| MonkeyManagerPage.MonkeyManager.FetchMonkeys | webapp/frontend/src/pages/MonkeyManager.js:27-40 | a success stores the results or an empty list; a failure sets "Failed to load monkeys" |
| MonkeyManagerPage.MonkeyManager.SetFilterText | webapp/frontend/src/pages/MonkeyManager.js:153-156 | the new filter text, back to page 1 |
| MonkeyManagerPage.MonkeyManager.PrevPage | webapp/frontend/src/pages/MonkeyManager.js:242-245 | one page back, never below 1 |
| MonkeyManagerPage.MonkeyManager.NextPage | webapp/frontend/src/pages/MonkeyManager.js:255 | one page on, never past the last page |
| MonkeyManagerPage.MonkeyManager.HandleDelete | webapp/frontend/src/pages/MonkeyManager.js:85-96 | a success removes every monkey with that `_id`, keeping order; a failure sets the error |
| DogListView.ReplaceByIdEffect | webapp/frontend/src/components/DogList.js:43-45 | entries with the edited `_id` become the server's answer; the others and the length are kept |
| DogListView.ReplaceByIdIdempotent | webapp/frontend/src/components/DogList.js:43-45 | applying the same answer again changes nothing |
| DogListView.DeleteAllEmpties | webapp/frontend/src/components/DogList.js:66-74 | deleting the `_id` every entry carries empties the list |
| DogListView.DogList.constructor | webapp/frontend/src/components/DogList.js:11-16 | the component's own copy of the dogs; nothing edited or pending |
| DogListView.DogList.Placeholder | webapp/frontend/src/components/DogList.js:74-80 | "No dogs available." shows iff the list is missing or empty |
| DogListView.DogList.HandleEditClick | webapp/frontend/src/components/DogList.js:20-23 | the dog's `_id` and a copy of it become the edit state; nothing else changes |
| DogListView.DogList.CancelEdit | webapp/frontend/src/components/DogList.js:25-28 | the edit state is cleared; nothing else changes |
| DogListView.DogList.HandleEditSubmit | webapp/frontend/src/components/DogList.js:36-51 | a success replaces by `_id` and clears the edit; a failure keeps the list and sets "Failed to update dog." |
| DogListView.DogList.ConfirmDelete | webapp/frontend/src/components/DogList.js:53-55 | the pending deletion is this `_id` |
| DogListView.DogList.CancelDelete | webapp/frontend/src/components/DogList.js:57-59 | no deletion is pending |
| DogListView.DogList.HandleDelete | webapp/frontend/src/components/DogList.js:61-72 | a success removes by `_id` and clears the confirmation; a failure keeps the list and sets "Failed to delete dog." |

## Left out

- JavaText.ParseInt: accepts only the ASCII digits '0' to '9'. Java's `Integer.parseInt` reads digits through `Character.digit`, so it also accepts other Unicode decimal digits (Arabic-Indic, fullwidth and so on); on such input the model answers `None`, as if Java had thrown. The same holds for `DogFromAnswers`, `MonkeyFromAnswers` and `ParseLine`, which use it.
- Case mapping covers ASCII letters only. JavaScript's `toLowerCase` and Java's `equalsIgnoreCase` also fold other Unicode letters.
- The `localeCompare` sort is not modelled. Its order is ICU collation. The handlers receive the sorted list as a permutation of the fetched records. The lookup lemmas assume that it is ordered by lower-cased code units, which real collation can contradict.
- MongoDB calls are not modelled (`find`, `findOne`, `save`, the update and delete routes). The records a query returned are a parameter, and so is whether a save succeeded. Regular-expression query objects are modelled only as the keys and values the handlers set.
- `bcrypt.hash` and `bcrypt.compare` are not modelled: the hash is a parameter and the comparison an abstract relation. Reading and writing `users.json` is not modelled either; the store is the map the file holds.
- `Date.parse` is an abstract predicate.
- Auth.Login: uses the intended own-entry lookup. As written (webapp/backend/authController.js:60), an inherited name such as "toString" passes the existence check and reaches `bcrypt.compare` with a function in place of a hash. The model does not represent the error that follows.
- JavaScript coercions are abstract. `parseInt` and `Number` yield a number or NaN. `parseInt` is assumed to yield an integer where a lemma needs it.
- Floating point is not modelled. Java `float` values and JSON numbers are mathematical reals. `Float.parseFloat` and float printing are parameters, and the save/load round trip assumes that a printed weight reads back as itself.
- `Scanner`, `System.out`, `PrintWriter` and `File` are not modelled. Answers come in as arguments, printed lines and the file's lines come out as sequences, and a file that cannot be opened is `None`. The prompts are not part of the printed lines.
- The menu loop in `main` and `displayMenu` are not modelled. Each menu entry is its own method.
- An `IOException` while saving is not modelled.
- Express wiring, CORS, logging, rate limiting, JWT middleware, startup and the database connection are not modelled.
- React rendering and the loading flags are not modelled. Neither are `handleEditChange`, `handleInputChange` and the image upload widgets. The manager pages' own `startEdit`, `cancelEdit` and `handleEditSubmit` are not modelled; their list update matches the dog list component's.
- The import and export buttons of the manager pages (JSON and CSV) are not modelled: they are file-saver, `FileReader` and axios glue.
- In the plain page, the form builders, `printAnimals` for dogs and monkeys (a backend fetch), `exportData` and `clearAllData` are not modelled. The `fetch` POSTs inside `importData` are not modelled either: they send each imported record to the backend, and only the stored lists are modelled.
- The browser store holds each record as a map from keys to strings. A non-string `name` or `reserved` value is not modelled.
- The search pages and the remaining frontend components are not part of this model (`MonkeySearchPage.js`, `SearchDashboard.js`, `MonkeyList.js`, `MonkeyEditForm.js`).
- `Monkey (2) - Copy.java` and `RescueAnimal (4).java` are not part of this model. They are stray copies; `Monkey.java` and `RescueAnimal.java` are the versions the program builds with.

## Findings

| source | as written | input that shows it | evidently intended | confidence | as-written member | corrected member |
|---|---|---|---|---|---|---|
| webapp/backend/authController.js:41 | `users[username]` on a plain object also sees the names `Object.prototype` supplies, so the duplicate check reports them as taken | registering "toString" with a valid password against an empty users file gives 409 "Username already exists." | only the users in the file are taken | high, not executed | Auth.InheritedNameLooksTaken | Auth.UserStore.Register |
| webapp/script.js:238-277 | `importData` sets `reader.onload` but never calls `reader.readAsText(file)`, so the handler never runs and nothing is imported | choosing a file holding `{"dogs": [{"name": "Rex"}]}` leaves both stored lists as they were | read the file, then replace each stored list by the imported array | high, not executed | BrowserStore.ImportedArrayIgnored | BrowserStore.LocalStore.ImportData |
