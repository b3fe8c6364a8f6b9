/**
 * What the search and create handlers of the back end have in common: the
 * shape of their replies, the filters their search pipelines apply, the
 * outcome of sorting by id, and the collection a create handler inserts into.
 */
module SearchCommon {
  import opened Wrappers
  import opened JsText
  import opened JsValues
  import opened Docs
  import opened BinarySearch

  /** The reply of a search handler. */
  datatype Reply =
    | Results(count: int, results: seq<Doc>)  // 200 `{ count, results }`
    | NotFound(error: string)                 // 404 `{ error }`
    | ServerError(message: Option<string>)    // 500; `None` is the message of a thrown TypeError

  /**
   * The outcome of `docs.sort((a, b) => a.id.localeCompare(b.id))`: `None`
   * when the comparator threw. A successful sort is a permutation of what was
   * fetched, and the sort succeeds whenever every record has an id.
   */
  predicate SortOutcome(fetched: seq<Doc>, sorted: Option<seq<Doc>>)
  {
    && (sorted.Some? ==> multiset(sorted.value) == multiset(fetched))
    && ((forall d :: d in fetched ==> d.id.Some?) ==> sorted.Some?)
  }

  /**
   * A sort outcome whose order agrees with the lower-cased `<` order that the
   * lookup descends by (the locale collation itself is not modelled).
   */
  predicate SortedForLookup(fetched: seq<Doc>, sorted: Option<seq<Doc>>)
  {
    SortOutcome(fetched, sorted) && (sorted.Some? ==> SortedByIdKey(sorted.value))
  }

  /** `d.name?.toLowerCase().includes(term.toLowerCase())`. */
  predicate NameMatches(name: Option<string>, term: string)
  {
    name.Some? && IncludesIgnoringCase(name.value, term)
  }

  /** `d.field?.toLowerCase() === v.toLowerCase()`: a missing field never matches. */
  predicate EqualsIgnoringCase(field: Option<string>, v: string)
  {
    field.Some? && Lower(field.value) == Lower(v)
  }

  /** `d.field === n` for a number `n` that may be NaN; a missing field never matches. */
  predicate NumberMatches(field: Option<real>, n: Num)
  {
    field.Some? && NumEq(Finite(field.value), n)
  }

  /** `d.reserved === (v === "true")`. */
  predicate ReservedMatches(field: Option<bool>, v: string)
  {
    field == Some(v == "true")
  }

  /** A NaN query value matches no stored number. */
  lemma NaNMatchesNothing(field: Option<real>)
    ensures !NumberMatches(field, NaN)
  {
  }

  /** Every record in `s` has a name. */
  predicate AllNamed(s: seq<Doc>)
  {
    forall d :: d in s ==> d.name.Some?
  }

  /** Filtering a list sorted by lower-cased id leaves it sorted. */
  lemma KeepSortedByIdKey(s: seq<Doc>, p: Doc -> bool)
    requires SortedByIdKey(s)
    ensures SortedByIdKey(Keep(s, p))
  {
    var ordered := (a: Doc, b: Doc) => !StrLess(IdKey(b), IdKey(a));
    forall i, j | 0 <= i < j < |s|
      ensures ordered(s[i], s[j])
    {
      assert KeysOrdered(s, i, j);
    }
    KeepChain(s, p, ordered);
    var kept := Keep(s, p);
    forall i, j | 0 <= i < j < |kept|
      ensures KeysOrdered(kept, i, j)
    {
      assert ordered(kept[i], kept[j]);
    }
  }

  /**
   * The id branch shared by the handlers that use the case-insensitive
   * lookup: `found ? 200 { count: 1, results: [found] } : 404 { error }`.
   */
  method LookupReply(fetched: seq<Doc>, sorted: seq<Doc>, id: string, notFound: string) returns (reply: Reply)
    requires multiset(sorted) == multiset(fetched) && id != ""
    ensures reply.Results? || reply == NotFound(notFound)
    ensures reply.Results? ==>
              reply.count == 1 && |reply.results| == 1 && reply.results[0] in fetched
              && IdKey(reply.results[0]) == Lower(id)
    ensures (forall d :: d in fetched ==> IdKey(d) != Lower(id)) ==> reply == NotFound(notFound)
    ensures (SortedByIdKey(sorted) && HasIds(sorted)
             && exists d :: d in fetched && IdKey(d) == Lower(id)) ==> reply.Results?
  {
    var found := BinarySearch.BinarySearch(Some(sorted), Some(id));
    if found.None? {
      if SortedByIdKey(sorted) && HasIds(sorted) && exists d :: d in fetched && IdKey(d) == Lower(id) {
        var d :| d in fetched && IdKey(d) == Lower(id);
        assert d in multiset(sorted);
        var k :| 0 <= k < |sorted| && sorted[k] == d;
        LookupFindsPresent(sorted, id, k);
      }
      return NotFound(notFound);
    }
    assert found.value in multiset(fetched);
    return Results(1, [found.value]);
  }

  /** The outcome of a create handler. */
  datatype CreateReply =
    | Created(doc: Doc)                          // 201 `{ message, <doc> }`
    | Refused(status: int, error: Option<string>)  // `None` is the message of a thrown error

  /** A database collection: the stored records, in insertion order. */
  class Collection {
    var docs: seq<Doc>

    constructor (docs: seq<Doc>)
      ensures this.docs == docs
    {
      this.docs := docs;
    }

    /** `Model.findOne({ id })` finds a record. */
    predicate HasId(id: string)
      reads this
    {
      exists d :: d in docs && d.id == Some(id)
    }
  }

  /**
   * `findOne({ id })`, then `new Model(body).save()`: a record whose id is
   * already stored is refused with `duplicate`; otherwise the record is
   * appended, unless saving fails (`saved` false), which is refused with
   * `failure`.
   */
  method CreateIfAbsent(store: Collection, doc: Doc, saved: bool, duplicate: CreateReply, failure: CreateReply)
    returns (reply: CreateReply)
    requires doc.id.Some?
    modifies store
    ensures old(store.HasId(doc.id.value)) ==> reply == duplicate && store.docs == old(store.docs)
    ensures !old(store.HasId(doc.id.value)) && !saved ==> reply == failure && store.docs == old(store.docs)
    ensures !old(store.HasId(doc.id.value)) && saved ==> reply == Created(doc) && store.docs == old(store.docs) + [doc]
  {
    var existing := exists d :: d in store.docs && d.id == doc.id;
    if existing {
      return duplicate;
    }
    if !saved {
      return failure;
    }
    store.docs := store.docs + [doc];
    return Created(doc);
  }

  /** A value placed in a database query object by a list handler. */
  datatype QueryValue =
    | Pattern(source: string)  // `new RegExp(v, "i")`, matched by the database
    | Text(text: string)
    | Flag(flag: bool)
    | Numeric(number: Num)
}
