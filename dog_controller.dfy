/**
 * The dog handlers of `webapp/backend/controllers/dogController.js`:
 * `createDog`, the `getDogs` query and `searchDogs` (case-insensitive lookup
 * by id, or three filters over the id-sorted records, the name filter
 * reading `d.name` without a guard).
 */
module DogController {
  import opened Wrappers
  import opened JsText
  import opened JsValues
  import opened Docs
  import opened BinarySearch
  import opened SearchCommon

  /**
   * `createDog`: a stored record with the same id gives 409 "Duplicate dog
   * ID"; a failing save gives 400 with the error's message.
   */
  method CreateDog(store: Collection, doc: Doc, saved: bool) returns (reply: CreateReply)
    requires doc.id.Some?
    modifies store
    ensures old(store.HasId(doc.id.value)) ==>
              reply == Refused(409, Some("Duplicate dog ID")) && store.docs == old(store.docs)
    ensures !old(store.HasId(doc.id.value)) && !saved ==>
              reply == Refused(400, None) && store.docs == old(store.docs)
    ensures !old(store.HasId(doc.id.value)) && saved ==>
              reply == Created(doc) && store.docs == old(store.docs) + [doc]
  {
    reply := CreateIfAbsent(store, doc, saved, Refused(409, Some("Duplicate dog ID")), Refused(400, None));
  }

  /**
   * The query object of `getDogs`: a key for each parameter that is supplied
   * and non-empty; `reserved` becomes the boolean `value === "true"`.
   */
  method GetDogsQuery(q: Query) returns (query: map<string, QueryValue>)
    ensures query.Keys <= {"name", "trainingStatus", "reserved"}
    ensures ("name" in query) == Supplied(q, "name")
    ensures ("trainingStatus" in query) == Supplied(q, "trainingStatus")
    ensures ("reserved" in query) == Supplied(q, "reserved")
    ensures Supplied(q, "name") ==> query["name"] == Pattern(q["name"])
    ensures Supplied(q, "trainingStatus") ==> query["trainingStatus"] == Text(q["trainingStatus"])
    ensures Supplied(q, "reserved") ==> query["reserved"] == Flag(q["reserved"] == "true")
  {
    query := map[];
    if Supplied(q, "name") {
      query := query["name" := Pattern(q["name"])];
    }
    if Supplied(q, "trainingStatus") {
      query := query["trainingStatus" := Text(q["trainingStatus"])];
    }
    if Supplied(q, "reserved") {
      query := query["reserved" := Flag(q["reserved"] == "true")];
    }
  }

  predicate NameFilter(q: Query, d: Doc)
  {
    Supplied(q, "name") ==> NameMatches(d.name, q["name"])
  }

  predicate StatusFilter(q: Query, d: Doc)
  {
    Supplied(q, "trainingStatus") ==> d.trainingStatus == Some(q["trainingStatus"])
  }

  /** `if (reserved)`: an empty `reserved` applies no filter. */
  predicate ReservedFilter(q: Query, d: Doc)
  {
    Supplied(q, "reserved") ==> ReservedMatches(d.reserved, q["reserved"])
  }

  /** The three optional filters of `searchDogs`. */
  predicate DogMatch(q: Query, d: Doc)
  {
    NameFilter(q, d) && StatusFilter(q, d) && ReservedFilter(q, d)
  }

  /**
   * The filter chain of `searchDogs`. `d.name.toLowerCase()` throws on a
   * record without a name, so `None` is returned when a name is supplied and
   * some record lacks one.
   */
  method ApplyFilters(sorted: seq<Doc>, q: Query) returns (filtered: Option<seq<Doc>>)
    ensures Supplied(q, "name") && !AllNamed(sorted) ==> filtered == None
    ensures !(Supplied(q, "name") && !AllNamed(sorted)) ==>
              filtered == Some(Keep(sorted, (d: Doc) => DogMatch(q, d)))
  {
    var s := sorted;
    KeepAll(sorted, (d: Doc) => true);
    ghost var m1 := (d: Doc) => NameFilter(q, d);
    if Supplied(q, "name") {
      if !AllNamed(s) {
        return None;
      }
      s := Keep(s, (d: Doc) => NameFilter(q, d));
    }
    KeepStep(sorted, (d: Doc) => true, Supplied(q, "name"), (d: Doc) => NameFilter(q, d), m1);
    ghost var m2 := (d: Doc) => NameFilter(q, d) && StatusFilter(q, d);
    if Supplied(q, "trainingStatus") {
      s := Keep(s, (d: Doc) => StatusFilter(q, d));
    }
    KeepStep(sorted, m1, Supplied(q, "trainingStatus"), (d: Doc) => StatusFilter(q, d), m2);
    if Supplied(q, "reserved") {
      s := Keep(s, (d: Doc) => ReservedFilter(q, d));
    }
    KeepStep(sorted, m2, Supplied(q, "reserved"), (d: Doc) => ReservedFilter(q, d), (d: Doc) => DogMatch(q, d));
    return Some(s);
  }

  /**
   * `searchDogs`. `fetched` is what `Dog.find({})` returned and `sorted` the
   * outcome of sorting it by id.
   */
  method SearchDogs(fetched: seq<Doc>, sorted: Option<seq<Doc>>, q: Query) returns (reply: Reply)
    requires SortedForLookup(fetched, sorted)
    ensures sorted.None? ==> reply == ServerError(None)
    ensures sorted.Some? && Supplied(q, "id") ==> reply.Results? || reply == NotFound("Dog not found")
    ensures Supplied(q, "id") && reply.Results? ==>
              reply.count == 1 && |reply.results| == 1 && reply.results[0] in fetched
              && IdKey(reply.results[0]) == Lower(q["id"])
    ensures (sorted.Some? && Supplied(q, "id") && HasIds(sorted.value)
             && exists d :: d in fetched && IdKey(d) == Lower(q["id"])) ==> reply.Results?
    ensures (sorted.Some? && Supplied(q, "id")
             && forall d :: d in fetched ==> IdKey(d) != Lower(q["id"])) ==> reply == NotFound("Dog not found")
    ensures sorted.Some? && !Supplied(q, "id") && Supplied(q, "name") && !AllNamed(sorted.value) ==>
              reply == ServerError(None)
    ensures sorted.Some? && !Supplied(q, "id") && !(Supplied(q, "name") && !AllNamed(sorted.value)) ==>
              reply == Results(|Keep(sorted.value, (d: Doc) => DogMatch(q, d))|,
                               Keep(sorted.value, (d: Doc) => DogMatch(q, d)))
    ensures !Supplied(q, "id") && reply.Results? ==>
              SortedByIdKey(reply.results) && forall d :: d in reply.results ==> d in fetched
  {
    if sorted.None? {
      return ServerError(None);
    }
    var s := sorted.value;
    if Supplied(q, "id") {
      reply := LookupReply(fetched, s, q["id"], "Dog not found");
      return;
    }
    var filtered := ApplyFilters(s, q);
    if filtered.None? {
      return ServerError(None);
    }
    var results := filtered.value;
    KeepSortedByIdKey(s, (d: Doc) => DogMatch(q, d));
    forall d | d in results ensures d in fetched {
      assert d in multiset(s);
    }
    return Results(|results|, results);
  }

  /** An empty `reserved` parameter filters nothing out. */
  lemma EmptyReservedFiltersNothing(q: Query, d: Doc)
    requires "reserved" in q && q["reserved"] == ""
    ensures DogMatch(q, d) == (NameFilter(q, d) && StatusFilter(q, d))
  {
  }
}
