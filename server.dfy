/**
 * The handlers written inline in `webapp/backend/server.js`. The dog
 * handlers are the same code as the dog controller's; the monkey handlers
 * differ from the monkey router's (three filters, the name filter unguarded,
 * `reserved` applied only when non-empty).
 */
module Server {
  import opened Wrappers
  import opened JsText
  import opened JsValues
  import opened Docs
  import opened BinarySearch
  import opened SearchCommon
  import DogController
  import MonkeyRoutes

  /** `POST /dogs`: 409 "Duplicate dog ID" for a stored id, 400 when saving fails. */
  method CreateDog(store: Collection, doc: Doc, saved: bool) returns (reply: CreateReply)
    requires doc.id.Some?
    modifies store
    ensures old(store.HasId(doc.id.value)) ==>
              reply == Refused(409, Some("Duplicate dog ID")) && store.docs == old(store.docs)
    ensures !old(store.HasId(doc.id.value)) && !saved ==>
              reply == Refused(400, None) && store.docs == old(store.docs)
    ensures !old(store.HasId(doc.id.value)) && saved ==>
              reply == Created(doc) && store.docs == old(store.docs) + [doc]
  {
    reply := DogController.CreateDog(store, doc, saved);
  }

  /** `POST /monkeys`: 409 "Duplicate monkey ID" for a stored id, 400 when saving fails. */
  method CreateMonkey(store: Collection, doc: Doc, saved: bool) returns (reply: CreateReply)
    requires doc.id.Some?
    modifies store
    ensures old(store.HasId(doc.id.value)) ==>
              reply == Refused(409, Some("Duplicate monkey ID")) && store.docs == old(store.docs)
    ensures !old(store.HasId(doc.id.value)) && !saved ==>
              reply == Refused(400, None) && store.docs == old(store.docs)
    ensures !old(store.HasId(doc.id.value)) && saved ==>
              reply == Created(doc) && store.docs == old(store.docs) + [doc]
  {
    reply := MonkeyRoutes.Create(store, doc, saved);
  }

  /** The query object of `GET /dogs`: name, trainingStatus and reserved, each when non-empty. */
  method DogsQuery(q: Query) returns (query: map<string, QueryValue>)
    ensures query.Keys <= {"name", "trainingStatus", "reserved"}
    ensures ("name" in query) == Supplied(q, "name")
    ensures ("trainingStatus" in query) == Supplied(q, "trainingStatus")
    ensures ("reserved" in query) == Supplied(q, "reserved")
    ensures Supplied(q, "name") ==> query["name"] == Pattern(q["name"])
    ensures Supplied(q, "trainingStatus") ==> query["trainingStatus"] == Text(q["trainingStatus"])
    ensures Supplied(q, "reserved") ==> query["reserved"] == Flag(q["reserved"] == "true")
  {
    query := DogController.GetDogsQuery(q);
  }

  /** The query object of `GET /monkeys`: name, species and reserved, each when non-empty. */
  method MonkeysQuery(q: Query) returns (query: map<string, QueryValue>)
    ensures query.Keys <= {"name", "species", "reserved"}
    ensures ("name" in query) == Supplied(q, "name")
    ensures ("species" in query) == Supplied(q, "species")
    ensures ("reserved" in query) == Supplied(q, "reserved")
    ensures Supplied(q, "name") ==> query["name"] == Pattern(q["name"])
    ensures Supplied(q, "species") ==> query["species"] == Text(q["species"])
    ensures Supplied(q, "reserved") ==> query["reserved"] == Flag(q["reserved"] == "true")
  {
    query := map[];
    if Supplied(q, "name") {
      query := query["name" := Pattern(q["name"])];
    }
    if Supplied(q, "species") {
      query := query["species" := Text(q["species"])];
    }
    if Supplied(q, "reserved") {
      query := query["reserved" := Flag(q["reserved"] == "true")];
    }
  }

  /** `GET /dogs/search`: the dog controller's `searchDogs`. */
  method SearchDogs(fetched: seq<Doc>, sorted: Option<seq<Doc>>, q: Query) returns (reply: Reply)
    requires SortedForLookup(fetched, sorted)
    ensures sorted.None? ==> reply == ServerError(None)
    ensures sorted.Some? && Supplied(q, "id") ==> reply.Results? || reply == NotFound("Dog not found")
    ensures Supplied(q, "id") && reply.Results? ==>
              reply.count == 1 && |reply.results| == 1 && reply.results[0] in fetched
              && IdKey(reply.results[0]) == Lower(q["id"])
    ensures (sorted.Some? && Supplied(q, "id") && HasIds(sorted.value)
             && exists d :: d in fetched && IdKey(d) == Lower(q["id"])) ==> reply.Results?
    ensures (sorted.Some? && Supplied(q, "id")
             && forall d :: d in fetched ==> IdKey(d) != Lower(q["id"])) ==> reply == NotFound("Dog not found")
    ensures sorted.Some? && !Supplied(q, "id") && Supplied(q, "name") && !AllNamed(sorted.value) ==>
              reply == ServerError(None)
    ensures sorted.Some? && !Supplied(q, "id") && !(Supplied(q, "name") && !AllNamed(sorted.value)) ==>
              reply == Results(|Keep(sorted.value, (d: Doc) => DogController.DogMatch(q, d))|,
                               Keep(sorted.value, (d: Doc) => DogController.DogMatch(q, d)))
    ensures !Supplied(q, "id") && reply.Results? ==>
              SortedByIdKey(reply.results) && forall d :: d in reply.results ==> d in fetched
  {
    reply := DogController.SearchDogs(fetched, sorted, q);
  }

  predicate NameFilter(q: Query, m: Doc)
  {
    Supplied(q, "name") ==> NameMatches(m.name, q["name"])
  }

  predicate SpeciesFilter(q: Query, m: Doc)
  {
    Supplied(q, "species") ==> m.species == Some(q["species"])
  }

  /** `if (reserved)`: an empty `reserved` applies no filter. */
  predicate ReservedFilter(q: Query, m: Doc)
  {
    Supplied(q, "reserved") ==> ReservedMatches(m.reserved, q["reserved"])
  }

  /** The three optional filters of `/monkeys/search`. */
  predicate MonkeyMatch(q: Query, m: Doc)
  {
    NameFilter(q, m) && SpeciesFilter(q, m) && ReservedFilter(q, m)
  }

  /**
   * The filter chain of `/monkeys/search`; `None` when a name is supplied and
   * some record lacks one, on which `m.name.toLowerCase()` throws.
   */
  method ApplyMonkeyFilters(sorted: seq<Doc>, q: Query) returns (filtered: Option<seq<Doc>>)
    ensures Supplied(q, "name") && !AllNamed(sorted) ==> filtered == None
    ensures !(Supplied(q, "name") && !AllNamed(sorted)) ==>
              filtered == Some(Keep(sorted, (m: Doc) => MonkeyMatch(q, m)))
  {
    var s := sorted;
    KeepAll(sorted, (m: Doc) => true);
    ghost var m1 := (m: Doc) => NameFilter(q, m);
    if Supplied(q, "name") {
      if !AllNamed(s) {
        return None;
      }
      s := Keep(s, (m: Doc) => NameFilter(q, m));
    }
    KeepStep(sorted, (m: Doc) => true, Supplied(q, "name"), (m: Doc) => NameFilter(q, m), m1);
    ghost var m2 := (m: Doc) => NameFilter(q, m) && SpeciesFilter(q, m);
    if Supplied(q, "species") {
      s := Keep(s, (m: Doc) => SpeciesFilter(q, m));
    }
    KeepStep(sorted, m1, Supplied(q, "species"), (m: Doc) => SpeciesFilter(q, m), m2);
    if Supplied(q, "reserved") {
      s := Keep(s, (m: Doc) => ReservedFilter(q, m));
    }
    KeepStep(sorted, m2, Supplied(q, "reserved"), (m: Doc) => ReservedFilter(q, m), (m: Doc) => MonkeyMatch(q, m));
    return Some(s);
  }

  /** `GET /monkeys/search`. */
  method SearchMonkeys(fetched: seq<Doc>, sorted: Option<seq<Doc>>, q: Query) returns (reply: Reply)
    requires SortedForLookup(fetched, sorted)
    ensures sorted.None? ==> reply == ServerError(None)
    ensures sorted.Some? && Supplied(q, "id") ==> reply.Results? || reply == NotFound("Monkey not found")
    ensures Supplied(q, "id") && reply.Results? ==>
              reply.count == 1 && |reply.results| == 1 && reply.results[0] in fetched
              && IdKey(reply.results[0]) == Lower(q["id"])
    ensures (sorted.Some? && Supplied(q, "id") && HasIds(sorted.value)
             && exists d :: d in fetched && IdKey(d) == Lower(q["id"])) ==> reply.Results?
    ensures (sorted.Some? && Supplied(q, "id")
             && forall d :: d in fetched ==> IdKey(d) != Lower(q["id"])) ==> reply == NotFound("Monkey not found")
    ensures sorted.Some? && !Supplied(q, "id") && Supplied(q, "name") && !AllNamed(sorted.value) ==>
              reply == ServerError(None)
    ensures sorted.Some? && !Supplied(q, "id") && !(Supplied(q, "name") && !AllNamed(sorted.value)) ==>
              reply == Results(|Keep(sorted.value, (m: Doc) => MonkeyMatch(q, m))|,
                               Keep(sorted.value, (m: Doc) => MonkeyMatch(q, m)))
    ensures !Supplied(q, "id") && reply.Results? ==>
              SortedByIdKey(reply.results) && forall d :: d in reply.results ==> d in fetched
  {
    if sorted.None? {
      return ServerError(None);
    }
    var s := sorted.value;
    if Supplied(q, "id") {
      reply := LookupReply(fetched, s, q["id"], "Monkey not found");
      return;
    }
    var filtered := ApplyMonkeyFilters(s, q);
    if filtered.None? {
      return ServerError(None);
    }
    var results := filtered.value;
    KeepSortedByIdKey(s, (m: Doc) => MonkeyMatch(q, m));
    forall d | d in results ensures d in fetched {
      assert d in multiset(s);
    }
    return Results(|results|, results);
  }

  /**
   * Without an id, the monkey search of this file and that of the monkey
   * router agree whenever the router's extra parameters are absent, no
   * record lacks a name, and `reserved` is either absent or non-empty.
   */
  lemma SameAsRouterWithoutExtras(sorted: seq<Doc>, q: Query, toNumber: Coercion)
    requires "trainingStatus" !in q && "tailLength" !in q
    requires "reserved" in q ==> q["reserved"] != ""
    requires AllNamed(sorted)
    ensures Keep(sorted, (m: Doc) => MonkeyMatch(q, m))
            == Keep(sorted, (m: Doc) => MonkeyRoutes.MonkeyMatch(q, toNumber, m))
  {
    KeepExt(sorted, (m: Doc) => MonkeyMatch(q, m), (m: Doc) => MonkeyRoutes.MonkeyMatch(q, toNumber, m));
  }
}
