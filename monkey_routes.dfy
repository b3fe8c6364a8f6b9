/**
 * The monkey router of `webapp/backend/routes/monkeyRoutes.js`: the create
 * handler, the list query, and the `/search` handler (case-insensitive lookup
 * by id, or five optional filters over the id-sorted records).
 */
module MonkeyRoutes {
  import opened Wrappers
  import opened JsText
  import opened JsValues
  import opened Docs
  import opened BinarySearch
  import opened SearchCommon

  /**
   * `POST /monkeys` after validation: a stored record with the same id gives
   * 409 "Duplicate monkey ID"; a failing save gives 400 with the error's message.
   */
  method Create(store: Collection, doc: Doc, saved: bool) returns (reply: CreateReply)
    requires doc.id.Some?
    modifies store
    ensures old(store.HasId(doc.id.value)) ==>
              reply == Refused(409, Some("Duplicate monkey ID")) && store.docs == old(store.docs)
    ensures !old(store.HasId(doc.id.value)) && !saved ==>
              reply == Refused(400, None) && store.docs == old(store.docs)
    ensures !old(store.HasId(doc.id.value)) && saved ==>
              reply == Created(doc) && store.docs == old(store.docs) + [doc]
  {
    reply := CreateIfAbsent(store, doc, saved, Refused(409, Some("Duplicate monkey ID")), Refused(400, None));
  }

  /** The query object of `GET /monkeys`, built one supplied parameter at a time. */
  method ListQuery(q: Query, toNumber: Coercion) returns (query: map<string, QueryValue>)
    ensures query.Keys <= {"name", "species", "trainingStatus", "reserved", "tailLength"}
    ensures ("name" in query) == Supplied(q, "name")
    ensures ("species" in query) == Supplied(q, "species")
    ensures ("trainingStatus" in query) == Supplied(q, "trainingStatus")
    ensures ("reserved" in query) == Present(q, "reserved")
    ensures ("tailLength" in query) == Supplied(q, "tailLength")
    ensures Supplied(q, "name") ==> query["name"] == Pattern(q["name"])
    ensures Supplied(q, "species") ==> query["species"] == Text(q["species"])
    ensures Supplied(q, "trainingStatus") ==> query["trainingStatus"] == Text(q["trainingStatus"])
    ensures Present(q, "reserved") ==> query["reserved"] == Flag(q["reserved"] == "true")
    ensures Supplied(q, "tailLength") ==> query["tailLength"] == Numeric(toNumber(q["tailLength"]))
  {
    query := map[];
    if Supplied(q, "name") {
      query := query["name" := Pattern(q["name"])];
    }
    if Supplied(q, "species") {
      query := query["species" := Text(q["species"])];
    }
    if Supplied(q, "trainingStatus") {
      query := query["trainingStatus" := Text(q["trainingStatus"])];
    }
    if Present(q, "reserved") {
      query := query["reserved" := Flag(q["reserved"] == "true")];
    }
    if Supplied(q, "tailLength") {
      query := query["tailLength" := Numeric(toNumber(q["tailLength"]))];
    }
  }

  predicate NameFilter(q: Query, m: Doc)
  {
    Supplied(q, "name") ==> NameMatches(m.name, q["name"])
  }

  predicate SpeciesFilter(q: Query, m: Doc)
  {
    Supplied(q, "species") ==> m.species == Some(q["species"])
  }

  predicate StatusFilter(q: Query, m: Doc)
  {
    Supplied(q, "trainingStatus") ==> m.trainingStatus == Some(q["trainingStatus"])
  }

  predicate ReservedFilter(q: Query, m: Doc)
  {
    Present(q, "reserved") ==> ReservedMatches(m.reserved, q["reserved"])
  }

  /** `Number(m.tailLength) === Number(tailLength)`. */
  predicate TailLengthFilter(q: Query, toNumber: Coercion, m: Doc)
  {
    Supplied(q, "tailLength") ==> NumberMatches(m.tailLength, toNumber(q["tailLength"]))
  }

  /** The five optional filters of `/search`, all of which a record must pass. */
  predicate MonkeyMatch(q: Query, toNumber: Coercion, m: Doc)
  {
    NameFilter(q, m) && SpeciesFilter(q, m) && StatusFilter(q, m) && ReservedFilter(q, m)
    && TailLengthFilter(q, toNumber, m)
  }

  /** The chain of `if (param) filtered = filtered.filter(...)` steps. */
  method ApplyFilters(sorted: seq<Doc>, q: Query, toNumber: Coercion) returns (filtered: seq<Doc>)
    ensures filtered == Keep(sorted, (m: Doc) => MonkeyMatch(q, toNumber, m))
  {
    filtered := sorted;
    KeepAll(sorted, (m: Doc) => true);
    ghost var m1 := (m: Doc) => NameFilter(q, m);
    if Supplied(q, "name") {
      filtered := Keep(filtered, (m: Doc) => NameFilter(q, m));
    }
    KeepStep(sorted, (m: Doc) => true, Supplied(q, "name"), (m: Doc) => NameFilter(q, m), m1);
    ghost var m2 := (m: Doc) => NameFilter(q, m) && SpeciesFilter(q, m);
    if Supplied(q, "species") {
      filtered := Keep(filtered, (m: Doc) => SpeciesFilter(q, m));
    }
    KeepStep(sorted, m1, Supplied(q, "species"), (m: Doc) => SpeciesFilter(q, m), m2);
    ghost var m3 := (m: Doc) => NameFilter(q, m) && SpeciesFilter(q, m) && StatusFilter(q, m);
    if Supplied(q, "trainingStatus") {
      filtered := Keep(filtered, (m: Doc) => StatusFilter(q, m));
    }
    KeepStep(sorted, m2, Supplied(q, "trainingStatus"), (m: Doc) => StatusFilter(q, m), m3);
    ghost var m4 := (m: Doc) => NameFilter(q, m) && SpeciesFilter(q, m) && StatusFilter(q, m) && ReservedFilter(q, m);
    if Present(q, "reserved") {
      filtered := Keep(filtered, (m: Doc) => ReservedFilter(q, m));
    }
    KeepStep(sorted, m3, Present(q, "reserved"), (m: Doc) => ReservedFilter(q, m), m4);
    if Supplied(q, "tailLength") {
      filtered := Keep(filtered, (m: Doc) => TailLengthFilter(q, toNumber, m));
    }
    KeepStep(sorted, m4, Supplied(q, "tailLength"), (m: Doc) => TailLengthFilter(q, toNumber, m),
             (m: Doc) => MonkeyMatch(q, toNumber, m));
  }

  /**
   * `GET /monkeys/search`. `fetched` is what `Monkey.find({})` returned and
   * `sorted` the outcome of sorting it by id.
   */
  method Search(fetched: seq<Doc>, sorted: Option<seq<Doc>>, q: Query, toNumber: Coercion) returns (reply: Reply)
    requires SortedForLookup(fetched, sorted)
    ensures sorted.None? ==> reply == ServerError(None)
    ensures sorted.Some? && Supplied(q, "id") ==> reply.Results? || reply == NotFound("Monkey not found")
    ensures Supplied(q, "id") && reply.Results? ==>
              reply.count == 1 && |reply.results| == 1 && reply.results[0] in fetched
              && IdKey(reply.results[0]) == Lower(q["id"])
    ensures (sorted.Some? && Supplied(q, "id") && HasIds(sorted.value)
             && exists d :: d in fetched && IdKey(d) == Lower(q["id"])) ==> reply.Results?
    ensures (sorted.Some? && Supplied(q, "id")
             && forall d :: d in fetched ==> IdKey(d) != Lower(q["id"])) ==> reply == NotFound("Monkey not found")
    ensures sorted.Some? && !Supplied(q, "id") ==>
              reply == Results(|Keep(sorted.value, (m: Doc) => MonkeyMatch(q, toNumber, m))|,
                               Keep(sorted.value, (m: Doc) => MonkeyMatch(q, toNumber, m)))
    ensures !Supplied(q, "id") && reply.Results? ==>
              SortedByIdKey(reply.results) && forall d :: d in reply.results ==> d in fetched
  {
    if sorted.None? {
      return ServerError(None);
    }
    var s := sorted.value;
    if Supplied(q, "id") {
      reply := LookupReply(fetched, s, q["id"], "Monkey not found");
      return;
    }
    var filtered := ApplyFilters(s, q, toNumber);
    KeepSortedByIdKey(s, (m: Doc) => MonkeyMatch(q, toNumber, m));
    forall d | d in filtered ensures d in fetched {
      assert d in multiset(s);
    }
    return Results(|filtered|, filtered);
  }

  /** A tailLength that `Number` turns into NaN matches no record. */
  lemma NonNumericTailLengthMatchesNothing(sorted: seq<Doc>, q: Query, toNumber: Coercion)
    requires Supplied(q, "tailLength") && toNumber(q["tailLength"]) == NaN
    ensures Keep(sorted, (m: Doc) => MonkeyMatch(q, toNumber, m)) == []
  {
    var r := Keep(sorted, (m: Doc) => MonkeyMatch(q, toNumber, m));
    if r != [] {
      assert r[0] in r;
    }
  }

  /** Species and trainingStatus are compared exactly: a different case does not match. */
  lemma SpeciesIsCaseSensitive(q: Query, toNumber: Coercion, m: Doc)
    requires Supplied(q, "species") && m.species == Some("Capuchin") && q["species"] == "capuchin"
    ensures !MonkeyMatch(q, toNumber, m)
  {
  }
}
