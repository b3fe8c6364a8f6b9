/**
 * The monkey manager page (webapp/frontend/src/pages/MonkeyManager.js): the
 * same list, filter and paging as the dog page, except that the name filter
 * does not guard a missing name.
 */
module MonkeyManagerPage {
  import opened Wrappers
  import opened JsText
  import opened Docs
  import opened Pagination
  import DogManagerPage

  /**
   * `filteredMonkeys`: `m.name.toLowerCase()` throws on a monkey without a
   * name, which is `None` here; otherwise, in order, the monkeys whose name
   * contains the filter text ignoring case.
   */
  function FilteredMonkeys(monkeys: seq<Doc>, filter: string): (r: Option<seq<Doc>>)
    ensures r.None? <==> exists m :: m in monkeys && m.name.None?
    ensures r.Some? ==> IsSubsequence(r.value, monkeys)
    ensures r.Some? ==> forall m :: m in r.value <==> m in monkeys && m.name.Some? && IncludesIgnoringCase(m.name.value, filter)
  {
    if forall m :: m in monkeys ==> m.name.Some? then
      KeepIsSubsequence(monkeys, (m: Doc) => m.name.Some? && Includes(Lower(m.name.value), Lower(filter)));
      Some(Keep(monkeys, (m: Doc) => m.name.Some? && Includes(Lower(m.name.value), Lower(filter))))
    else
      None
  }

  /** When every monkey has a name, the monkey filter is the dog filter. */
  lemma FilterAgreesWhenNamed(monkeys: seq<Doc>, filter: string)
    requires forall m :: m in monkeys ==> m.name.Some?
    ensures FilteredMonkeys(monkeys, filter) == Some(DogManagerPage.FilteredDogs(monkeys, filter))
  {
    KeepExt(monkeys, (m: Doc) => m.name.Some? && Includes(Lower(m.name.value), Lower(filter)),
      (d: Doc) => DogManagerPage.NameMatches(d, filter));
  }

  /** The outcome of `GET /monkeys`: `None` when the request failed. */
  type Fetched = Option<Option<seq<Doc>>>

  class MonkeyManager {
    var monkeys: seq<Doc>
    var error: string
    var filterText: string
    var currentPage: int

    /** The page number never drops below 1. */
    predicate Valid()
      reads this
    {
      currentPage >= 1
    }

    constructor ()
      ensures Valid()
      ensures monkeys == [] && error == "" && filterText == "" && currentPage == 1
    {
      monkeys := [];
      error := "";
      filterText := "";
      currentPage := 1;
    }

    function Filtered(): Option<seq<Doc>>
      reads this
    {
      FilteredMonkeys(monkeys, filterText)
    }

    /** `totalPages`; the render has thrown already when the filter did. */
    function PageCount(): nat
      reads this
      requires Filtered().Some?
    {
      TotalPages(|Filtered().value|)
    }

    /** `paginatedMonkeys`: the cards shown. */
    function Shown(): seq<Doc>
      reads this
      requires Valid() && Filtered().Some?
    {
      PageOf(Filtered().value, currentPage)
    }

    /** `fetchMonkeys`: `res.data.results || []` on success, an error message otherwise. */
    method FetchMonkeys(response: Fetched)
      modifies this
      ensures response.Some? ==> monkeys == (if response.value.Some? then response.value.value else []) && error == old(error)
      ensures response.None? ==> monkeys == old(monkeys) && error == "Failed to load monkeys"
      ensures filterText == old(filterText) && currentPage == old(currentPage)
    {
      if response.None? {
        error := "Failed to load monkeys";
      } else if response.value.Some? {
        monkeys := response.value.value;
      } else {
        monkeys := [];
      }
    }

    /** Typing in the filter box: the new text, back to page 1. */
    method SetFilterText(text: string)
      modifies this
      ensures Valid()
      ensures filterText == text && currentPage == 1
      ensures monkeys == old(monkeys) && error == old(error)
    {
      filterText := text;
      currentPage := 1;
    }

    /** The Prev button, rendered only with more than one page: never below 1. */
    method PrevPage()
      requires Valid() && Filtered().Some? && PageCount() > 1
      modifies this
      ensures Valid()
      ensures currentPage == (if old(currentPage) > 1 then old(currentPage) - 1 else 1)
      ensures monkeys == old(monkeys) && error == old(error) && filterText == old(filterText)
    {
      currentPage := if currentPage - 1 > 1 then currentPage - 1 else 1;
    }

    /** The Next button, rendered only with more than one page: never beyond the last. */
    method NextPage()
      requires Valid() && Filtered().Some? && PageCount() > 1
      modifies this
      ensures Valid() && Filtered().Some? && currentPage <= PageCount()
      ensures currentPage == (if old(currentPage) < PageCount() then old(currentPage) + 1 else PageCount())
      ensures monkeys == old(monkeys) && error == old(error) && filterText == old(filterText)
    {
      currentPage := if currentPage + 1 < PageCount() then currentPage + 1 else PageCount();
    }

    /**
     * `handleDelete` after `DELETE /monkeys/:id`: on success every monkey
     * with that `_id` leaves the list and the rest keep their order; on
     * failure an error message.
     */
    method HandleDelete(id: string, succeeded: bool)
      modifies this
      ensures succeeded ==> monkeys == RemoveByOid(old(monkeys), id) && error == old(error)
      ensures !succeeded ==> monkeys == old(monkeys) && error == "Failed to delete monkey"
      ensures filterText == old(filterText) && currentPage == old(currentPage)
    {
      if succeeded {
        monkeys := RemoveByOid(monkeys, id);
      } else {
        error := "Failed to delete monkey";
      }
    }
  }
}
