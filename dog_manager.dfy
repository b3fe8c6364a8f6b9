/**
 * The dog manager page (webapp/frontend/src/pages/DogManager.js): the list
 * fetched from the backend, a name filter, paging, and local removal after
 * a delete.
 */
module DogManagerPage {
  import opened Wrappers
  import opened JsText
  import opened Docs
  import opened Pagination

  /** `d.name?.toLowerCase().includes(filter.toLowerCase())`; no name, no match. */
  predicate NameMatches(d: Doc, filter: string)
  {
    d.name.Some? && Includes(Lower(d.name.value), Lower(filter))
  }

  /**
   * `filteredDogs`: in order, the dogs whose name contains the filter text
   * ignoring case; a dog without a name is dropped.
   */
  function FilteredDogs(dogs: seq<Doc>, filter: string): (r: seq<Doc>)
    ensures IsSubsequence(r, dogs)
    ensures forall d :: d in r <==> d in dogs && d.name.Some? && IncludesIgnoringCase(d.name.value, filter)
  {
    KeepIsSubsequence(dogs, (d: Doc) => NameMatches(d, filter));
    Keep(dogs, (d: Doc) => NameMatches(d, filter))
  }

  /** An empty filter shows every named dog. */
  lemma EmptyFilterKeepsNamed(dogs: seq<Doc>)
    ensures FilteredDogs(dogs, "") == Keep(dogs, (d: Doc) => d.name.Some?)
  {
    LowerEmpty("");
    forall d: Doc ensures NameMatches(d, "") == d.name.Some? {
      if d.name.Some? {
        assert "" <= Lower(d.name.value)[0..];
      }
    }
    KeepExt(dogs, (d: Doc) => NameMatches(d, ""), (d: Doc) => d.name.Some?);
  }

  /** The outcome of `GET /dogs`: `None` when the request failed. */
  type Fetched = Option<Option<seq<Doc>>>

  class DogManager {
    var dogs: seq<Doc>
    var error: string
    var filterText: string
    var currentPage: int

    /** The page number never drops below 1. */
    predicate Valid()
      reads this
    {
      currentPage >= 1
    }

    constructor ()
      ensures Valid()
      ensures dogs == [] && error == "" && filterText == "" && currentPage == 1
    {
      dogs := [];
      error := "";
      filterText := "";
      currentPage := 1;
    }

    function Filtered(): seq<Doc>
      reads this
    {
      FilteredDogs(dogs, filterText)
    }

    /** `totalPages`. */
    function PageCount(): nat
      reads this
    {
      TotalPages(|Filtered()|)
    }

    /** `paginatedDogs`: the cards shown. */
    function Shown(): seq<Doc>
      reads this
      requires Valid()
    {
      PageOf(Filtered(), currentPage)
    }

    /** `fetchDogs`: `res.data.results || []` on success, an error message otherwise. */
    method FetchDogs(response: Fetched)
      modifies this
      ensures response.Some? ==> dogs == (if response.value.Some? then response.value.value else []) && error == old(error)
      ensures response.None? ==> dogs == old(dogs) && error == "Failed to load dogs"
      ensures filterText == old(filterText) && currentPage == old(currentPage)
    {
      if response.None? {
        error := "Failed to load dogs";
      } else if response.value.Some? {
        dogs := response.value.value;
      } else {
        dogs := [];
      }
    }

    /** Typing in the filter box: the new text, back to page 1. */
    method SetFilterText(text: string)
      modifies this
      ensures Valid()
      ensures filterText == text && currentPage == 1
      ensures dogs == old(dogs) && error == old(error)
    {
      filterText := text;
      currentPage := 1;
    }

    /**
     * The Prev button, rendered only when there is more than one page: one
     * page back, never below 1.
     */
    method PrevPage()
      requires Valid() && PageCount() > 1
      modifies this
      ensures Valid()
      ensures currentPage == (if old(currentPage) > 1 then old(currentPage) - 1 else 1)
      ensures dogs == old(dogs) && error == old(error) && filterText == old(filterText)
    {
      currentPage := if currentPage - 1 > 1 then currentPage - 1 else 1;
    }

    /**
     * The Next button, rendered only when there is more than one page: one
     * page on, never beyond the last page.
     */
    method NextPage()
      requires Valid() && PageCount() > 1
      modifies this
      ensures Valid() && currentPage <= PageCount()
      ensures currentPage == (if old(currentPage) < PageCount() then old(currentPage) + 1 else PageCount())
      ensures dogs == old(dogs) && error == old(error) && filterText == old(filterText)
    {
      currentPage := if currentPage + 1 < PageCount() then currentPage + 1 else PageCount();
    }

    /**
     * `handleDelete` after `DELETE /dogs/:id`: on success every dog with that
     * `_id` leaves the list and the rest keep their order; on failure an
     * error message.
     */
    method HandleDelete(id: string, succeeded: bool)
      modifies this
      ensures succeeded ==> dogs == RemoveByOid(old(dogs), id) && error == old(error)
      ensures !succeeded ==> dogs == old(dogs) && error == "Failed to delete dog"
      ensures filterText == old(filterText) && currentPage == old(currentPage)
    {
      if succeeded {
        dogs := RemoveByOid(dogs, id);
      } else {
        error := "Failed to delete dog";
      }
    }
  }

  /** The cards shown on a page in range are the matching dogs from that window. */
  lemma ShownAreFiltered(m: DogManager)
    requires m.Valid()
    ensures forall d :: d in m.Shown() ==> d in m.dogs && NameMatches(d, m.filterText)
    ensures |m.Shown()| <= ItemsPerPage
  {
    forall d | d in m.Shown() ensures d in m.Filtered() {
      var i :| 0 <= i < |m.Shown()| && m.Shown()[i] == d;
      assert d == m.Filtered()[(m.currentPage - 1) * ItemsPerPage + i];
    }
  }
}
