/**
 * The dog router of `webapp/backend/routes/dogRoutes.js`: its own
 * case-sensitive binary search, the `/search` handler (lookup by id, or seven
 * optional filters over the records in fetched order) and the create handler.
 */
module DogRoutes {
  import opened Wrappers
  import opened JsText
  import opened JsValues
  import opened Docs
  import opened SearchCommon

  /** Ascending by raw id, every record having an id. */
  predicate SortedById(s: seq<Doc>)
  {
    && (forall i :: 0 <= i < |s| ==> s[i].id.Some?)
    && (forall i, j :: 0 <= i < j < |s| ==> !StrLess(s[j].id.value, s[i].id.value))
  }

  /**
   * The descent of the local `binarySearch` over the window `[lo, hi]`:
   * exact comparison with `===`, and `undefined < targetId` is false, so a
   * record without an id sends the search to the lower half.
   */
  function ExactProbe(s: seq<Doc>, t: string, lo: int, hi: int): (r: Option<Doc>)
    requires 0 <= lo <= hi + 1 <= |s|
    ensures r.Some? ==> exists k :: lo <= k <= hi && s[k] == r.value && r.value.id == Some(t)
    decreases hi - lo + 1
  {
    if lo > hi then None
    else
      var mid := (lo + hi) / 2;
      var midId := s[mid].id;
      if midId == Some(t) then Some(s[mid])
      else if midId.Some? && StrLess(midId.value, t) then ExactProbe(s, t, mid + 1, hi)
      else ExactProbe(s, t, lo, mid - 1)
  }

  /** The local `binarySearch(dogs, targetId)`. */
  method RouteBinarySearch(dogs: seq<Doc>, targetId: string) returns (found: Option<Doc>)
    ensures found == ExactProbe(dogs, targetId, 0, |dogs| - 1)
    ensures found.Some? ==> found.value in dogs && found.value.id == Some(targetId)
    ensures dogs == [] ==> found == None
  {
    var left, right := 0, |dogs| - 1;
    while left <= right
      invariant 0 <= left <= right + 1 <= |dogs|
      invariant ExactProbe(dogs, targetId, left, right) == ExactProbe(dogs, targetId, 0, |dogs| - 1)
      decreases right - left + 1
    {
      var mid := (left + right) / 2;
      var midId := dogs[mid].id;
      if midId == Some(targetId) {
        return Some(dogs[mid]);
      }
      if midId.Some? && StrLess(midId.value, targetId) {
        left := mid + 1;
      } else {
        right := mid - 1;
      }
    }
    return None;
  }

  lemma SortedByIdAt(s: seq<Doc>, i: int, j: int)
    requires SortedById(s) && 0 <= i < |s| && 0 <= j < |s|
    ensures i < j ==> !StrLess(s[j].id.value, s[i].id.value)
  {
  }

  /** In a list sorted by raw id, an id present in the window is found. */
  lemma {:induction false} ExactProbeFinds(s: seq<Doc>, t: string, lo: int, hi: int, k: int)
    requires 0 <= lo <= hi + 1 <= |s|
    requires SortedById(s)
    requires lo <= k <= hi && s[k].id == Some(t)
    ensures ExactProbe(s, t, lo, hi).Some?
    decreases hi - lo + 1
  {
    var mid := (lo + hi) / 2;
    var midId := s[mid].id.value;
    SortedByIdAt(s, k, mid);
    SortedByIdAt(s, mid, k);
    if midId != t {
      if StrLess(midId, t) {
        ExactProbeFinds(s, t, mid + 1, hi, k);
      } else {
        StrLessTotal(midId, t);
        ExactProbeFinds(s, t, lo, mid - 1, k);
      }
    }
  }

  function Dog(id: string): Doc
  {
    Doc("", Some(id), None, None, None, None, None, None, None, None, None)
  }

  /**
   * The lookup is case-sensitive while the lower-cased order puts "a1" before
   * "B2": in a list in that order the record "B2" is not found.
   */
  lemma ExactProbeMissesMixedCase()
    ensures BinarySearch.SortedByIdKey([Dog("a1"), Dog("B2")])
    ensures ExactProbe([Dog("a1"), Dog("B2")], "B2", 0, 1) == None
  {
    var s := [Dog("a1"), Dog("B2")];
    assert Lower("a1") == "a1" && Lower("B2") == "b2";
    assert !StrLess("a1", "B2");
    assert StrLess("a1", "b2");
    assert ExactProbe(s, "B2", 0, 1) == ExactProbe(s, "B2", 0, -1);
  }

  predicate NameFilter(q: Query, d: Doc)
  {
    Supplied(q, "name") ==> NameMatches(d.name, q["name"])
  }

  predicate BreedFilter(q: Query, d: Doc)
  {
    Supplied(q, "breed") ==> EqualsIgnoringCase(d.breed, q["breed"])
  }

  predicate AgeFilter(q: Query, parseInt: Coercion, d: Doc)
  {
    Supplied(q, "age") ==> NumberMatches(d.age, parseInt(q["age"]))
  }

  predicate WeightFilter(q: Query, parseInt: Coercion, d: Doc)
  {
    Supplied(q, "weight") ==> NumberMatches(d.weight, parseInt(q["weight"]))
  }

  predicate StatusFilter(q: Query, d: Doc)
  {
    Supplied(q, "trainingStatus") ==> EqualsIgnoringCase(d.trainingStatus, q["trainingStatus"])
  }

  predicate ReservedFilter(q: Query, d: Doc)
  {
    Present(q, "reserved") ==> ReservedMatches(d.reserved, q["reserved"])
  }

  predicate CountryFilter(q: Query, d: Doc)
  {
    Supplied(q, "inServiceCountry") ==> EqualsIgnoringCase(d.inServiceCountry, q["inServiceCountry"])
  }

  /** The seven optional filters of the handler, all of which a record must pass. */
  predicate DogMatch(q: Query, parseInt: Coercion, d: Doc)
  {
    && NameFilter(q, d) && BreedFilter(q, d) && AgeFilter(q, parseInt, d) && WeightFilter(q, parseInt, d)
    && StatusFilter(q, d) && ReservedFilter(q, d) && CountryFilter(q, d)
  }

  /** The reply to a lookup by id that found nothing. */
  function NotFoundMessage(id: string): string
  {
    "Dog with ID '" + id + "' not found."
  }

  /** The chain of `if (param) dogs = dogs.filter(...)` steps of the handler. */
  method ApplyFilters(fetched: seq<Doc>, q: Query, parseInt: Coercion) returns (dogs: seq<Doc>)
    ensures dogs == Keep(fetched, (d: Doc) => DogMatch(q, parseInt, d))
  {
    dogs := fetched;
    KeepAll(fetched, (d: Doc) => true);
    ghost var m1 := (d: Doc) => NameFilter(q, d);
    if Supplied(q, "name") {
      dogs := Keep(dogs, (d: Doc) => NameFilter(q, d));
    }
    KeepStep(fetched, (d: Doc) => true, Supplied(q, "name"), (d: Doc) => NameFilter(q, d), m1);
    assert dogs == Keep(fetched, m1);
    ghost var m2 := (d: Doc) => NameFilter(q, d) && BreedFilter(q, d);
    if Supplied(q, "breed") {
      dogs := Keep(dogs, (d: Doc) => BreedFilter(q, d));
    }
    KeepStep(fetched, m1, Supplied(q, "breed"), (d: Doc) => BreedFilter(q, d), m2);
    assert dogs == Keep(fetched, m2);
    ghost var m3 := (d: Doc) => NameFilter(q, d) && BreedFilter(q, d) && AgeFilter(q, parseInt, d);
    if Supplied(q, "age") {
      dogs := Keep(dogs, (d: Doc) => AgeFilter(q, parseInt, d));
    }
    KeepStep(fetched, m2, Supplied(q, "age"), (d: Doc) => AgeFilter(q, parseInt, d), m3);
    assert dogs == Keep(fetched, m3);
    ghost var m4 := (d: Doc) => NameFilter(q, d) && BreedFilter(q, d) && AgeFilter(q, parseInt, d)
                                && WeightFilter(q, parseInt, d);
    if Supplied(q, "weight") {
      dogs := Keep(dogs, (d: Doc) => WeightFilter(q, parseInt, d));
    }
    KeepStep(fetched, m3, Supplied(q, "weight"), (d: Doc) => WeightFilter(q, parseInt, d), m4);
    assert dogs == Keep(fetched, m4);
    ghost var m5 := (d: Doc) => NameFilter(q, d) && BreedFilter(q, d) && AgeFilter(q, parseInt, d)
                                && WeightFilter(q, parseInt, d) && StatusFilter(q, d);
    if Supplied(q, "trainingStatus") {
      dogs := Keep(dogs, (d: Doc) => StatusFilter(q, d));
    }
    KeepStep(fetched, m4, Supplied(q, "trainingStatus"), (d: Doc) => StatusFilter(q, d), m5);
    assert dogs == Keep(fetched, m5);
    ghost var m6 := (d: Doc) => NameFilter(q, d) && BreedFilter(q, d) && AgeFilter(q, parseInt, d)
                                && WeightFilter(q, parseInt, d) && StatusFilter(q, d) && ReservedFilter(q, d);
    if Present(q, "reserved") {
      dogs := Keep(dogs, (d: Doc) => ReservedFilter(q, d));
    }
    KeepStep(fetched, m5, Present(q, "reserved"), (d: Doc) => ReservedFilter(q, d), m6);
    assert dogs == Keep(fetched, m6);
    if Supplied(q, "inServiceCountry") {
      dogs := Keep(dogs, (d: Doc) => CountryFilter(q, d));
    }
    KeepStep(fetched, m6, Supplied(q, "inServiceCountry"), (d: Doc) => CountryFilter(q, d),
             (d: Doc) => DogMatch(q, parseInt, d));
  }

  /**
   * `GET /dogs/search`. `fetched` is what `Dog.find().lean()` returned and
   * `sorted` the outcome of sorting it by id.
   */
  method Search(fetched: seq<Doc>, sorted: Option<seq<Doc>>, q: Query, parseInt: Coercion) returns (reply: Reply)
    requires SortOutcome(fetched, sorted)
    ensures Supplied(q, "id") && sorted.None? ==> reply == ServerError(Some("Internal Server Error"))
    ensures Supplied(q, "id") && sorted.Some? ==> reply.Results? || reply == NotFound(NotFoundMessage(q["id"]))
    ensures Supplied(q, "id") && reply.Results? ==>
              reply.count == 1 && |reply.results| == 1 && reply.results[0] in fetched
              && reply.results[0].id == Some(q["id"])
    ensures (Supplied(q, "id") && sorted.Some? && SortedById(sorted.value)
             && exists d :: d in fetched && d.id == Some(q["id"])) ==> reply.Results?
    ensures !Supplied(q, "id") ==>
              reply == Results(|Keep(fetched, (d: Doc) => DogMatch(q, parseInt, d))|, Keep(fetched, (d: Doc) => DogMatch(q, parseInt, d)))
  {
    if Supplied(q, "id") {
      var id := q["id"];
      if sorted.None? {
        return ServerError(Some("Internal Server Error"));
      }
      var dogs := sorted.value;
      var found := RouteBinarySearch(dogs, id);
      if found.None? {
        if SortedById(dogs) && exists d :: d in fetched && d.id == Some(id) {
          var d :| d in fetched && d.id == Some(id);
          assert d in multiset(dogs);
          var k :| 0 <= k < |dogs| && dogs[k] == d;
          ExactProbeFinds(dogs, id, 0, |dogs| - 1, k);
        }
        return NotFound(NotFoundMessage(id));
      }
      assert found.value in multiset(fetched);
      return Results(1, [found.value]);
    }
    var dogs := ApplyFilters(fetched, q, parseInt);
    return Results(|dogs|, dogs);
  }

  /** Supplying one more filter parameter only removes records from the results. */
  lemma MoreParametersNarrow(fetched: seq<Doc>, q: Query, k: string, v: string, parseInt: Coercion)
    requires k !in q
    ensures IsSubsequence(Keep(fetched, (d: Doc) => DogMatch(q[k := v], parseInt, d)),
                          Keep(fetched, (d: Doc) => DogMatch(q, parseInt, d)))
  {
    forall d: Doc
      ensures DogMatch(q[k := v], parseInt, d) ==> DogMatch(q, parseInt, d)
    {
      assert forall key :: key in q ==> key in q[k := v] && q[k := v][key] == q[key];
    }
    KeepMonotone(fetched, (d: Doc) => DogMatch(q[k := v], parseInt, d), (d: Doc) => DogMatch(q, parseInt, d));
  }

  /** An age that `parseInt` turns into NaN matches no record. */
  lemma NonNumericAgeMatchesNothing(fetched: seq<Doc>, q: Query, parseInt: Coercion)
    requires Supplied(q, "age") && parseInt(q["age"]) == NaN
    ensures Keep(fetched, (d: Doc) => DogMatch(q, parseInt, d)) == []
  {
    var r := Keep(fetched, (d: Doc) => DogMatch(q, parseInt, d));
    if r != [] {
      assert r[0] in r;
    }
  }

  /**
   * `parseInt` of the query is never a fraction, so a record whose stored
   * weight is a fraction never passes the weight filter.
   */
  lemma FractionalWeightNeverMatches(q: Query, parseInt: Coercion, d: Doc)
    requires IntegerValued(parseInt) && Supplied(q, "weight")
    requires d.weight.Some? && d.weight.value != d.weight.value.Floor as real
    ensures !DogMatch(q, parseInt, d)
  {
  }

  /** `reserved` supplied even as the empty string keeps only unreserved records. */
  lemma EmptyReservedKeepsUnreserved(q: Query, parseInt: Coercion, d: Doc)
    requires Present(q, "reserved") && q["reserved"] == ""
    ensures DogMatch(q, parseInt, d) ==> d.reserved == Some(false)
  {
  }

  /**
   * `POST /dogs` after validation: a stored record with the same id gives 400
   * "Duplicate dog ID"; a failing save gives 500 "Failed to create dog".
   */
  method Create(store: Collection, doc: Doc, saved: bool) returns (reply: CreateReply)
    requires doc.id.Some?
    modifies store
    ensures old(store.HasId(doc.id.value)) ==>
              reply == Refused(400, Some("Duplicate dog ID")) && store.docs == old(store.docs)
    ensures !old(store.HasId(doc.id.value)) && !saved ==>
              reply == Refused(500, Some("Failed to create dog")) && store.docs == old(store.docs)
    ensures !old(store.HasId(doc.id.value)) && saved ==>
              reply == Created(doc) && store.docs == old(store.docs) + [doc]
  {
    reply := CreateIfAbsent(store, doc, saved, Refused(400, Some("Duplicate dog ID")),
                            Refused(500, Some("Failed to create dog")));
  }
}
