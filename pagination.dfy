/**
 * The paging both manager pages apply to their filtered lists: nine cards a
 * page, `Math.ceil(n / 9)` pages, page `p` the slice `[(p - 1) * 9, p * 9)`.
 */
module Pagination {
  /** `itemsPerPage`. */
  const ItemsPerPage: nat := 9

  /** `Math.ceil(n / itemsPerPage)`: the fewest pages that hold `n` items. */
  function TotalPages(n: nat): (t: nat)
    ensures t * ItemsPerPage >= n
    ensures t == 0 || (t - 1) * ItemsPerPage < n
    ensures t == 0 <==> n == 0
  {
    (n + ItemsPerPage - 1) / ItemsPerPage
  }

  function Min(a: int, b: int): int
  {
    if a <= b then a else b
  }

  /**
   * `s.slice((page - 1) * 9, page * 9)`: the items whose indices lie in
   * that window, so at most nine, in list order.
   */
  function PageOf<T>(s: seq<T>, page: int): (r: seq<T>)
    requires page >= 1
    ensures |r| <= ItemsPerPage
    ensures |s| <= (page - 1) * ItemsPerPage ==> r == []
    ensures (page - 1) * ItemsPerPage < |s| ==> (page - 1) * ItemsPerPage + |r| == Min(page * ItemsPerPage, |s|)
    ensures forall i :: 0 <= i < |r| ==> r[i] == s[(page - 1) * ItemsPerPage + i]
  {
    var lo := (page - 1) * ItemsPerPage;
    var hi := page * ItemsPerPage;
    if lo >= |s| then [] else if hi >= |s| then s[lo..] else s[lo..hi]
  }

  /** The first `k` pages one after the other. */
  function FirstPages<T>(s: seq<T>, k: nat): seq<T>
  {
    if k == 0 then [] else FirstPages(s, k - 1) + PageOf(s, k)
  }

  lemma {:induction false} FirstPagesPrefix<T>(s: seq<T>, k: nat)
    ensures FirstPages(s, k) == s[..Min(k * ItemsPerPage, |s|)]
  {
    if k > 0 {
      FirstPagesPrefix(s, k - 1);
      var lo := Min((k - 1) * ItemsPerPage, |s|);
      var hi := Min(k * ItemsPerPage, |s|);
      assert s[..hi] == s[..lo] + s[lo..hi];
    }
  }

  /** Pages 1 to `TotalPages` concatenate to the whole list. */
  lemma PagesCoverList<T>(s: seq<T>)
    ensures FirstPages(s, TotalPages(|s|)) == s
  {
    FirstPagesPrefix(s, TotalPages(|s|));
  }

  /** Every page up to `TotalPages` shows at least one item, and every later page none. */
  lemma PagesInRangeNonEmpty<T>(s: seq<T>, page: int)
    requires page >= 1
    ensures PageOf(s, page) != [] <==> page <= TotalPages(|s|)
  {
  }
}
