/**
 * Stored animal documents and the list operations the handlers build on:
 * `Array.prototype.filter` and the removal of entries by `_id`.
 */
module Docs {
  import opened Wrappers

  /**
   * A dog or monkey document as fetched from the database or received by the
   * browser. Every field may be missing; `oid` is the database's `_id`.
   */
  datatype Doc = Doc(
    oid: string,
    id: Option<string>,
    name: Option<string>,
    breed: Option<string>,
    species: Option<string>,
    trainingStatus: Option<string>,
    inServiceCountry: Option<string>,
    age: Option<real>,
    weight: Option<real>,
    tailLength: Option<real>,
    reserved: Option<bool>)

  /** `s.filter(p)`: the elements satisfying `p`, in their original order. */
  function Keep<T(!new)>(s: seq<T>, p: T -> bool): (r: seq<T>)
    ensures |r| <= |s|
    ensures forall x :: x in r <==> x in s && p(x)
  {
    if s == [] then [] else (if p(s[0]) then [s[0]] else []) + Keep(s[1..], p)
  }

  /** `a` can be obtained from `b` by deleting elements. */
  predicate IsSubsequence<T(==)>(a: seq<T>, b: seq<T>)
    decreases |b|
  {
    if a == [] then true
    else if b == [] then false
    else if a[0] == b[0] then IsSubsequence(a[1..], b[1..])
    else IsSubsequence(a, b[1..])
  }

  lemma {:induction false} SubsequenceDrop<T>(a: seq<T>, b: seq<T>)
    requires a != [] && IsSubsequence(a, b)
    ensures IsSubsequence(a[1..], b)
    decreases |b|, 1
  {
    if a[0] != b[0] {
      SubsequenceDrop(a, b[1..]);
    }
    SubsequenceSkip(a[1..], b);
  }

  lemma {:induction false} SubsequenceSkip<T>(a: seq<T>, b: seq<T>)
    requires b != [] && IsSubsequence(a, b[1..])
    ensures IsSubsequence(a, b)
    decreases |b|, 0
  {
    if a != [] && a[0] == b[0] {
      SubsequenceDrop(a, b[1..]);
    }
  }

  /** Filtering keeps a subsequence: it only removes elements, never reorders them. */
  lemma {:induction false} KeepIsSubsequence<T(!new)>(s: seq<T>, p: T -> bool)
    ensures IsSubsequence(Keep(s, p), s)
    decreases |s|
  {
    if s != [] {
      KeepIsSubsequence(s[1..], p);
      if !p(s[0]) {
        assert Keep(s, p) == Keep(s[1..], p);
        SubsequenceSkip(Keep(s, p), s);
      } else {
        assert Keep(s, p)[1..] == Keep(s[1..], p);
      }
    }
  }

  /** Filtering distributes over concatenation. */
  lemma {:induction false} KeepAppend<T(!new)>(a: seq<T>, b: seq<T>, p: T -> bool)
    ensures Keep(a + b, p) == Keep(a, p) + Keep(b, p)
    decreases |a|
  {
    if a != [] {
      assert (a + b)[1..] == a[1..] + b;
      KeepAppend(a[1..], b, p);
    } else {
      assert a + b == b;
    }
  }

  /** Two filters in a row are one filter by the conjunction. */
  lemma {:induction false} KeepKeep<T(!new)>(s: seq<T>, p: T -> bool, q: T -> bool, pq: T -> bool)
    requires forall x :: pq(x) == (p(x) && q(x))
    ensures Keep(Keep(s, p), q) == Keep(s, pq)
    decreases |s|
  {
    if s != [] {
      KeepKeep(s[1..], p, q, pq);
      if p(s[0]) {
        assert Keep(s, p) == [s[0]] + Keep(s[1..], p);
        assert Keep(s, p)[1..] == Keep(s[1..], p);
        assert Keep(s, p)[0] == s[0];
      } else {
        assert Keep(s, p) == Keep(s[1..], p);
      }
    }
  }

  /**
   * One more `if (on) list = list.filter(p)` step after filtering by `before`
   * is one filter by `after`, the conjunction of the two; a step that is off
   * is one whose predicate holds everywhere.
   */
  lemma KeepStep<T(!new)>(s: seq<T>, before: T -> bool, on: bool, p: T -> bool, after: T -> bool)
    requires forall x :: after(x) == (before(x) && p(x))
    requires !on ==> forall x :: p(x)
    ensures (if on then Keep(Keep(s, before), p) else Keep(s, before)) == Keep(s, after)
  {
    if on {
      KeepKeep(s, before, p, after);
    } else {
      KeepExt(s, before, after);
    }
  }

  /** A filter that keeps every element changes nothing. */
  lemma {:induction false} KeepAll<T(!new)>(s: seq<T>, p: T -> bool)
    requires forall x :: x in s ==> p(x)
    ensures Keep(s, p) == s
    decreases |s|
  {
    if s != [] {
      KeepAll(s[1..], p);
    }
  }

  /** A filter that keeps no element gives the empty list. */
  lemma {:induction false} KeepNone<T(!new)>(s: seq<T>, p: T -> bool)
    requires forall x :: x in s ==> !p(x)
    ensures Keep(s, p) == []
    decreases |s|
  {
    if s != [] {
      KeepNone(s[1..], p);
    }
  }

  /** Filters that agree on every element give the same result. */
  lemma {:induction false} KeepExt<T(!new)>(s: seq<T>, p: T -> bool, q: T -> bool)
    requires forall x :: x in s ==> p(x) == q(x)
    ensures Keep(s, p) == Keep(s, q)
    decreases |s|
  {
    if s != [] {
      KeepExt(s[1..], p, q);
    }
  }

  /** A stronger filter keeps a subsequence of what a weaker one keeps. */
  lemma {:induction false} KeepMonotone<T(!new)>(s: seq<T>, strong: T -> bool, weak: T -> bool)
    requires forall x :: strong(x) ==> weak(x)
    ensures IsSubsequence(Keep(s, strong), Keep(s, weak))
    decreases |s|
  {
    if s != [] {
      KeepMonotone(s[1..], strong, weak);
      if weak(s[0]) {
        assert Keep(s, weak) == [s[0]] + Keep(s[1..], weak);
        assert Keep(s, weak)[1..] == Keep(s[1..], weak);
        if strong(s[0]) {
          assert Keep(s, strong) == [s[0]] + Keep(s[1..], strong);
          assert Keep(s, strong)[1..] == Keep(s[1..], strong);
        } else {
          assert Keep(s, strong) == Keep(s[1..], strong);
          SubsequenceSkip(Keep(s, strong), Keep(s, weak));
        }
      } else {
        assert Keep(s, weak) == Keep(s[1..], weak);
        assert Keep(s, strong) == Keep(s[1..], strong);
      }
    }
  }

  /** Every ordered pair of positions is related by `r`. */
  predicate Chain<T>(s: seq<T>, r: (T, T) -> bool)
  {
    forall i, j :: 0 <= i < j < |s| ==> r(s[i], s[j])
  }

  /** Filtering a list ordered by `r` leaves it ordered by `r`. */
  lemma {:induction false} KeepChain<T(!new)>(s: seq<T>, p: T -> bool, r: (T, T) -> bool)
    requires Chain(s, r)
    ensures Chain(Keep(s, p), r)
    decreases |s|
  {
    if s != [] {
      assert Chain(s[1..], r) by {
        forall i, j | 0 <= i < j < |s[1..]| ensures r(s[1..][i], s[1..][j]) {
          assert s[1..][i] == s[i + 1] && s[1..][j] == s[j + 1];
        }
      }
      KeepChain(s[1..], p, r);
      var rest := Keep(s[1..], p);
      if p(s[0]) {
        forall i, j | 0 <= i < j < |Keep(s, p)| ensures r(Keep(s, p)[i], Keep(s, p)[j]) {
          if i == 0 {
            assert Keep(s, p)[j] == rest[j - 1];
            assert rest[j - 1] in s[1..];
            var k :| 0 <= k < |s[1..]| && s[1..][k] == rest[j - 1];
            assert s[k + 1] == rest[j - 1];
          } else {
            assert Keep(s, p)[i] == rest[i - 1] && Keep(s, p)[j] == rest[j - 1];
          }
        }
      }
    }
  }

  /** `list.filter(d => d._id !== oid)`: remove every entry with that `_id`. */
  function RemoveByOid(s: seq<Doc>, oid: string): (r: seq<Doc>)
    ensures forall d :: d in r <==> d in s && d.oid != oid
    ensures IsSubsequence(r, s)
  {
    KeepIsSubsequence(s, (d: Doc) => d.oid != oid);
    Keep(s, (d: Doc) => d.oid != oid)
  }
}
