/**
 * The monkey handlers of `webapp/backend/controllers/monkeyController.js`.
 * They are the same code as the handlers of the monkey router, so each one is
 * that router's handler, restated with the controller's contract.
 */
module MonkeyController {
  import opened Wrappers
  import opened JsText
  import opened JsValues
  import opened Docs
  import opened BinarySearch
  import opened SearchCommon
  import MonkeyRoutes

  /**
   * `createMonkey`: a stored record with the same id gives 409 "Duplicate
   * monkey ID"; a failing save gives 400 with the error's message.
   */
  method CreateMonkey(store: Collection, doc: Doc, saved: bool) returns (reply: CreateReply)
    requires doc.id.Some?
    modifies store
    ensures old(store.HasId(doc.id.value)) ==>
              reply == Refused(409, Some("Duplicate monkey ID")) && store.docs == old(store.docs)
    ensures !old(store.HasId(doc.id.value)) && !saved ==>
              reply == Refused(400, None) && store.docs == old(store.docs)
    ensures !old(store.HasId(doc.id.value)) && saved ==>
              reply == Created(doc) && store.docs == old(store.docs) + [doc]
  {
    reply := MonkeyRoutes.Create(store, doc, saved);
  }

  /**
   * The query object of `getAllMonkeys`: a key for each supplied, non-empty
   * parameter, `reserved` whenever it is present, `tailLength` through `Number`.
   */
  method GetAllMonkeysQuery(q: Query, toNumber: Coercion) returns (query: map<string, QueryValue>)
    ensures query.Keys <= {"name", "species", "trainingStatus", "reserved", "tailLength"}
    ensures ("name" in query) == Supplied(q, "name")
    ensures ("species" in query) == Supplied(q, "species")
    ensures ("trainingStatus" in query) == Supplied(q, "trainingStatus")
    ensures ("reserved" in query) == Present(q, "reserved")
    ensures ("tailLength" in query) == Supplied(q, "tailLength")
    ensures Supplied(q, "name") ==> query["name"] == Pattern(q["name"])
    ensures Supplied(q, "species") ==> query["species"] == Text(q["species"])
    ensures Supplied(q, "trainingStatus") ==> query["trainingStatus"] == Text(q["trainingStatus"])
    ensures Present(q, "reserved") ==> query["reserved"] == Flag(q["reserved"] == "true")
    ensures Supplied(q, "tailLength") ==> query["tailLength"] == Numeric(toNumber(q["tailLength"]))
  {
    query := MonkeyRoutes.ListQuery(q, toNumber);
  }

  /** `searchMonkeys`: lookup by id, or the five filters over the sorted records. */
  method SearchMonkeys(fetched: seq<Doc>, sorted: Option<seq<Doc>>, q: Query, toNumber: Coercion) returns (reply: Reply)
    requires SortedForLookup(fetched, sorted)
    ensures sorted.None? ==> reply == ServerError(None)
    ensures sorted.Some? && Supplied(q, "id") ==> reply.Results? || reply == NotFound("Monkey not found")
    ensures Supplied(q, "id") && reply.Results? ==>
              reply.count == 1 && |reply.results| == 1 && reply.results[0] in fetched
              && IdKey(reply.results[0]) == Lower(q["id"])
    ensures (sorted.Some? && Supplied(q, "id") && HasIds(sorted.value)
             && exists d :: d in fetched && IdKey(d) == Lower(q["id"])) ==> reply.Results?
    ensures (sorted.Some? && Supplied(q, "id")
             && forall d :: d in fetched ==> IdKey(d) != Lower(q["id"])) ==> reply == NotFound("Monkey not found")
    ensures sorted.Some? && !Supplied(q, "id") ==>
              reply == Results(|Keep(sorted.value, (m: Doc) => MonkeyRoutes.MonkeyMatch(q, toNumber, m))|,
                               Keep(sorted.value, (m: Doc) => MonkeyRoutes.MonkeyMatch(q, toNumber, m)))
    ensures !Supplied(q, "id") && reply.Results? ==>
              SortedByIdKey(reply.results) && forall d :: d in reply.results ==> d in fetched
  {
    reply := MonkeyRoutes.Search(fetched, sorted, q, toNumber);
  }
}
