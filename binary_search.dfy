/**
 * The case-insensitive lookup by id (`webapp/backend/utils/binarySearch.js`):
 * a binary descent over an array of records sorted by id. A record without an
 * id met on the way ends the search with `null`.
 */
module BinarySearch {
  import opened Wrappers
  import opened JsText
  import opened Docs

  /** `arr[mid].id?.toLowerCase()`; a missing id reads as the falsy empty string. */
  function IdKey(d: Doc): string
  {
    if d.id.Some? then Lower(d.id.value) else ""
  }

  /** The record at `j` does not sort before the record at `i`. */
  predicate KeysOrdered(s: seq<Doc>, i: int, j: int)
    requires 0 <= i < |s| && 0 <= j < |s|
  {
    !StrLess(IdKey(s[j]), IdKey(s[i]))
  }

  /** Ascending by lower-cased id: no later record has a smaller key. */
  predicate SortedByIdKey(s: seq<Doc>)
  {
    forall i, j :: 0 <= i < j < |s| ==> KeysOrdered(s, i, j)
  }

  /** The record at `i` carries a non-empty id. */
  predicate HasIdAt(s: seq<Doc>, i: int)
    requires 0 <= i < |s|
  {
    IdKey(s[i]) != ""
  }

  /** Every record carries a non-empty id. */
  predicate HasIds(s: seq<Doc>)
  {
    forall i :: 0 <= i < |s| ==> HasIdAt(s, i)
  }

  /**
   * What the loop computes from the window `[lo, hi]` for the lower-cased
   * target `t`: probe the midpoint, stop on a missing id or a hit, otherwise
   * continue in the upper or the lower half.
   */
  function Probe(s: seq<Doc>, t: string, lo: int, hi: int): Option<Doc>
    requires 0 <= lo <= hi + 1 <= |s|
    decreases hi - lo + 1
  {
    if lo > hi then None
    else
      var mid := (lo + hi) / 2;
      var cur := IdKey(s[mid]);
      if cur == "" then None
      else if cur == t then Some(s[mid])
      else if StrLess(cur, t) then Probe(s, t, mid + 1, hi)
      else Probe(s, t, lo, mid - 1)
  }

  /** A record the probe returns lies in the window and has the target key. */
  lemma {:induction false} ProbeSound(s: seq<Doc>, t: string, lo: int, hi: int)
    requires 0 <= lo <= hi + 1 <= |s|
    ensures Probe(s, t, lo, hi).Some? ==>
              exists k :: lo <= k <= hi && s[k] == Probe(s, t, lo, hi).value && IdKey(s[k]) == t
    decreases hi - lo + 1
  {
    if lo <= hi {
      var mid := (lo + hi) / 2;
      var cur := IdKey(s[mid]);
      if cur != "" && cur != t {
        if StrLess(cur, t) {
          ProbeSound(s, t, mid + 1, hi);
        } else {
          ProbeSound(s, t, lo, mid - 1);
        }
      }
    }
  }

  /**
   * `binarySearch(arr, targetId)`: `arr` is `None` when it is not an array and
   * `targetId` is `None` when it is undefined.
   */
  function Lookup(arr: Option<seq<Doc>>, targetId: Option<string>): (r: Option<Doc>)
    ensures r.Some? ==> arr.Some? && targetId.Some? && r.value in arr.value
                        && IdKey(r.value) == Lower(targetId.value)
    ensures arr.None? || targetId.None? || targetId == Some("") ==> r.None?
  {
    if arr.None? || targetId.None? || targetId.value == "" then None
    else
      ProbeSound(arr.value, Lower(targetId.value), 0, |arr.value| - 1);
      Probe(arr.value, Lower(targetId.value), 0, |arr.value| - 1)
  }

  /** The loop of `binarySearch`, with its early returns. */
  method BinarySearch(arr: Option<seq<Doc>>, targetId: Option<string>) returns (found: Option<Doc>)
    ensures found == Lookup(arr, targetId)
    ensures found.Some? ==> arr.Some? && targetId.Some? && found.value in arr.value
                            && IdKey(found.value) == Lower(targetId.value)
  {
    if arr.None? || targetId.None? || targetId.value == "" {
      assert Lookup(arr, targetId) == None;
      return None;
    }
    var s := arr.value;
    var normalizedTarget := Lower(targetId.value);
    var left, right := 0, |s| - 1;
    while left <= right
      invariant 0 <= left <= right + 1 <= |s|
      invariant Probe(s, normalizedTarget, left, right) == Probe(s, normalizedTarget, 0, |s| - 1)
      decreases right - left + 1
    {
      var mid := (left + right) / 2;
      var currentId := IdKey(s[mid]);
      if currentId == "" {
        assert Probe(s, normalizedTarget, left, right) == None;
        assert Lookup(arr, targetId) == None;
        return None;
      }
      if currentId == normalizedTarget {
        assert Probe(s, normalizedTarget, left, right) == Some(s[mid]);
        assert Lookup(arr, targetId) == Some(s[mid]);
        return Some(s[mid]);
      } else if StrLess(currentId, normalizedTarget) {
        left := mid + 1;
      } else {
        right := mid - 1;
      }
    }
    assert Probe(s, normalizedTarget, left, right) == None;
    return None;
  }

  /**
   * In a list sorted by lower-cased id in which every record has an id, a key
   * present in the window is found.
   */
  lemma {:induction false} ProbeFinds(s: seq<Doc>, t: string, lo: int, hi: int, k: int)
    requires 0 <= lo <= hi + 1 <= |s|
    requires SortedByIdKey(s) && HasIds(s)
    requires lo <= k <= hi && IdKey(s[k]) == t
    ensures Probe(s, t, lo, hi).Some?
    decreases hi - lo + 1
  {
    var mid := (lo + hi) / 2;
    ProbeStep(s, t, lo, hi, k);
    if Probe(s, t, lo, hi).Some? {
    } else if mid < k {
      ProbeFinds(s, t, mid + 1, hi, k);
    } else if k < mid {
      ProbeFinds(s, t, lo, mid - 1, k);
    }
  }

  /**
   * One probe of a sorted window holding the key at `k`: either the midpoint
   * is a hit, or the search continues in the half that still holds `k`.
   */
  lemma ProbeStep(s: seq<Doc>, t: string, lo: int, hi: int, k: int)
    requires 0 <= lo <= hi + 1 <= |s|
    requires SortedByIdKey(s) && HasIds(s)
    requires lo <= k <= hi && IdKey(s[k]) == t
    ensures var mid := (lo + hi) / 2;
            || Probe(s, t, lo, hi).Some?
            || (mid < k && Probe(s, t, lo, hi) == Probe(s, t, mid + 1, hi))
            || (k < mid && Probe(s, t, lo, hi) == Probe(s, t, lo, mid - 1))
  {
    var mid := (lo + hi) / 2;
    var cur := IdKey(s[mid]);
    assert HasIdAt(s, mid);
    if cur == t {
      assert Probe(s, t, lo, hi) == Some(s[mid]);
    } else if StrLess(cur, t) {
      // k cannot sit at or before the midpoint, whose key is already smaller
      SortedAt(s, k, mid);
      assert mid < k;
    } else {
      // the midpoint's key is larger, so k sits before it
      StrLessTotal(cur, t);
      SortedAt(s, mid, k);
      assert k < mid;
    }
  }

  lemma SortedAt(s: seq<Doc>, i: int, j: int)
    requires SortedByIdKey(s) && 0 <= i < |s| && 0 <= j < |s|
    ensures i < j ==> !StrLess(IdKey(s[j]), IdKey(s[i]))
  {
    if i < j {
      assert KeysOrdered(s, i, j);
    }
  }

  /** Sorted and present implies found, with a matching id. */
  lemma LookupFindsPresent(s: seq<Doc>, targetId: string, k: int)
    requires SortedByIdKey(s) && HasIds(s)
    requires 0 <= k < |s| && IdKey(s[k]) == Lower(targetId)
    ensures Lookup(Some(s), Some(targetId)).Some?
  {
    WholeWindowFinds(s, Lower(targetId), k);
    LowerEmpty(targetId);
  }

  lemma WholeWindowFinds(s: seq<Doc>, t: string, k: int)
    requires SortedByIdKey(s) && HasIds(s)
    requires 0 <= k < |s| && IdKey(s[k]) == t
    ensures t != "" && Probe(s, t, 0, |s| - 1).Some?
  {
    assert HasIdAt(s, k);
    ProbeFinds(s, t, 0, |s| - 1, k);
  }

  /** When no record's lower-cased id is the lower-cased target, the result is null. */
  lemma LookupMiss(s: seq<Doc>, targetId: Option<string>)
    requires targetId.Some? ==> forall d :: d in s ==> IdKey(d) != Lower(targetId.value)
    ensures Lookup(Some(s), targetId) == None
  {
  }

  /** An empty array yields null for every target. */
  lemma LookupEmpty(targetId: Option<string>)
    ensures Lookup(Some([]), targetId) == None
  {
  }

  /** The result depends on the target only through its lower-case form. */
  lemma {:induction false} LookupIgnoresCase(arr: Option<seq<Doc>>, targetId: string)
    ensures Lookup(arr, Some(targetId)) == Lookup(arr, Some(Lower(targetId)))
  {
    LowerIdempotent(targetId);
    LowerEmpty(targetId);
  }

  /**
   * A probe of a midpoint without an id ends the search, even when a matching
   * record sits elsewhere in a list sorted by lower-cased id.
   */
  lemma MissingIdAborts(s: seq<Doc>, targetId: string, k: int)
    requires |s| >= 2 && s[(|s| - 1) / 2].id == None
    requires 0 <= k < |s| && IdKey(s[k]) == Lower(targetId) && targetId != ""
    ensures Lookup(Some(s), Some(targetId)) == None
  {
    LowerEmpty(targetId);
    MidWithoutId(s, Lower(targetId));
  }

  lemma MidWithoutId(s: seq<Doc>, t: string)
    requires |s| >= 1 && s[(|s| - 1) / 2].id == None
    ensures Probe(s, t, 0, |s| - 1) == None
  {
    assert IdKey(s[(|s| - 1) / 2]) == "";
  }

  function Animal(id: string, name: string): Doc
  {
    Doc("", Some(id), Some(name), None, None, None, None, None, None, None, None)
  }

  /** The five-record example list, sorted by id. */
  function SampleAnimals(): seq<Doc>
  {
    [Animal("A001", "Buddy"), Animal("A002", "Charlie"), Animal("A003", "Max"),
     Animal("A004", "Rocky"), Animal("A005", "Bella")]
  }

  /** An example, not a property: the middle id of the example list is found. */
  lemma SampleMiddle()
    ensures Lookup(Some(SampleAnimals()), Some("A003")) == Some(Animal("A003", "Max"))
  {
    assert Lower("A003") == "a003";
  }

  /** An example, not a property: the first id of the example list is found. */
  lemma SampleFirst()
    ensures Lookup(Some(SampleAnimals()), Some("A001")) == Some(Animal("A001", "Buddy"))
  {
    var s := SampleAnimals();
    assert Lower("A001") == "a001";
    assert IdKey(s[2]) == "a003" && IdKey(s[0]) == "a001";
    assert !StrLess("a003", "a001");
    assert Probe(s, "a001", 0, 4) == Probe(s, "a001", 0, 1);
    assert Probe(s, "a001", 0, 1) == Some(s[0]);
  }

  /** An example, not a property: the last id of the example list is found. */
  lemma SampleLast()
    ensures Lookup(Some(SampleAnimals()), Some("A005")) == Some(Animal("A005", "Bella"))
  {
    var s := SampleAnimals();
    assert Lower("A005") == "a005";
    assert IdKey(s[2]) == "a003" && IdKey(s[3]) == "a004" && IdKey(s[4]) == "a005";
    assert StrLess("a003", "a005") && StrLess("a004", "a005");
    assert Probe(s, "a005", 0, 4) == Probe(s, "a005", 3, 4);
    assert Probe(s, "a005", 3, 4) == Probe(s, "a005", 4, 4);
  }

  /** Examples, not a property: an id absent from the example list, or a lookup in an empty array, gives null. */
  lemma SampleMisses()
    ensures Lookup(Some(SampleAnimals()), Some("Z999")) == None
    ensures Lookup(Some([]), Some("A001")) == None
  {
    var s := SampleAnimals();
    assert Lower("Z999") == "z999";
    assert Lower("A001") == "a001" && Lower("A002") == "a002" && Lower("A003") == "a003";
    assert Lower("A004") == "a004" && Lower("A005") == "a005";
    assert forall d | d in s :: IdKey(d) != "z999";
  }
}
