/**
 * The string operations the JavaScript and Java code relies on: case mapping
 * (`toLowerCase`, `equalsIgnoreCase`), whitespace trimming (`trim`), substring
 * search (`includes`) and the relational `<` on strings.
 *
 * Strings are sequences of characters; the order of `<` is the lexicographic
 * order of character codes.
 */
module JsText {

  /** An ASCII upper-case letter. */
  predicate IsUpper(c: char) { 'A' <= c <= 'Z' }

  /** An ASCII lower-case letter. */
  predicate IsLower(c: char) { 'a' <= c <= 'z' }

  /** An ASCII decimal digit. */
  predicate IsDigit(c: char) { '0' <= c <= '9' }

  /** Lower-case mapping of one character (ASCII letters only). */
  function LowerChar(c: char): (r: char)
    ensures IsUpper(c) ==> IsLower(r) && r as int == c as int + 32
    ensures !IsUpper(c) ==> r == c
  {
    if IsUpper(c) then (c as int + 32) as char else c
  }

  /** `s.toLowerCase()`. */
  function Lower(s: string): (r: string)
    ensures |r| == |s|
  {
    seq(|s|, i requires 0 <= i < |s| => LowerChar(s[i]))
  }

  /** `lower` is `s` lower-cased when it agrees with it character by character. */
  lemma LowerMatches(s: string, lower: string)
    requires |s| == |lower| && forall i :: 0 <= i < |s| ==> LowerChar(s[i]) == lower[i]
    ensures Lower(s) == lower
  {
  }

  /** Lower-casing twice is lower-casing once. */
  lemma LowerIdempotent(s: string)
    ensures Lower(Lower(s)) == Lower(s)
  {
    assert forall i :: 0 <= i < |s| ==> Lower(Lower(s))[i] == Lower(s)[i];
  }

  lemma LowerEmpty(s: string)
    ensures Lower(s) == "" <==> s == ""
  {
    assert |Lower(s)| == |s|;
  }

  /** Lower-casing distributes over concatenation. */
  lemma LowerAppend(a: string, b: string)
    ensures Lower(a + b) == Lower(a) + Lower(b)
  {
    assert forall i :: 0 <= i < |a + b| ==> Lower(a + b)[i] == (Lower(a) + Lower(b))[i];
  }

  /**
   * The characters `String.prototype.trim` removes: the ECMAScript
   * WhiteSpace and LineTerminator code points.
   */
  predicate IsJsSpace(c: char)
  {
    var n := c as int;
    (0x09 <= n <= 0x0D) || n == 0x20 || n == 0xA0 || n == 0x1680 ||
    (0x2000 <= n <= 0x200A) || n == 0x2028 || n == 0x2029 || n == 0x202F ||
    n == 0x205F || n == 0x3000 || n == 0xFEFF
  }

  /** Lower-casing neither creates nor removes whitespace. */
  lemma LowerCharSpace(c: char)
    ensures IsJsSpace(LowerChar(c)) == IsJsSpace(c)
  {
  }

  function TrimStart(s: string): string
  {
    if |s| > 0 && IsJsSpace(s[0]) then TrimStart(s[1..]) else s
  }

  function TrimEnd(s: string): string
  {
    if |s| > 0 && IsJsSpace(s[|s| - 1]) then TrimEnd(s[..|s| - 1]) else s
  }

  /** `s.trim()`. */
  function Trim(s: string): string
  {
    TrimEnd(TrimStart(s))
  }

  /** Every character is whitespace. */
  predicate IsBlank(s: string)
  {
    forall i :: 0 <= i < |s| ==> IsJsSpace(s[i])
  }

  lemma {:induction false} TrimStartBlank(s: string)
    ensures TrimStart(s) == "" <==> IsBlank(s)
    decreases |s|
  {
    if |s| > 0 && IsJsSpace(s[0]) {
      TrimStartBlank(s[1..]);
      assert IsBlank(s) <==> IsBlank(s[1..]) by {
        if IsBlank(s[1..]) {
          forall i | 0 <= i < |s| ensures IsJsSpace(s[i]) {
            if i > 0 { assert s[i] == s[1..][i - 1]; }
          }
        }
        if IsBlank(s) {
          forall i | 0 <= i < |s[1..]| ensures IsJsSpace(s[1..][i]) {
            assert s[1..][i] == s[i + 1];
          }
        }
      }
    } else if |s| > 0 {
      assert !IsJsSpace(s[0]);
    }
  }

  /** What is left after trimming the start begins with a non-space, if anything is left. */
  lemma {:induction false} TrimStartHead(s: string)
    ensures TrimStart(s) != "" ==> !IsJsSpace(TrimStart(s)[0])
    decreases |s|
  {
    if |s| > 0 && IsJsSpace(s[0]) {
      TrimStartHead(s[1..]);
    }
  }

  /** Trimming the end of a string that begins with a non-space leaves it non-empty. */
  lemma {:induction false} TrimEndKeepsHead(s: string)
    requires s != [] && !IsJsSpace(s[0])
    ensures TrimEnd(s) != ""
    decreases |s|
  {
    if IsJsSpace(s[|s| - 1]) {
      TrimEndKeepsHead(s[..|s| - 1]);
    }
  }

  /** A string is empty after `trim()` exactly when all its characters are whitespace. */
  lemma TrimEmptyIffBlank(s: string)
    ensures Trim(s) == "" <==> IsBlank(s)
  {
    TrimStartBlank(s);
    TrimStartHead(s);
    if TrimStart(s) != "" {
      TrimEndKeepsHead(TrimStart(s));
    }
  }

  /** Lower-casing does not change whether a string is blank. */
  lemma LowerBlank(s: string)
    ensures IsBlank(Lower(s)) == IsBlank(s)
  {
    forall i | 0 <= i < |s| ensures IsJsSpace(Lower(s)[i]) == IsJsSpace(s[i]) {
      LowerCharSpace(s[i]);
    }
  }

  /** `s.includes(t)`: `t` occurs in `s` at some position. */
  predicate Includes(s: string, t: string)
  {
    exists i :: 0 <= i <= |s| && t <= s[i..]
  }

  /** Case-insensitive containment as the search filters write it. */
  predicate IncludesIgnoringCase(s: string, t: string)
  {
    Includes(Lower(s), Lower(t))
  }

  /**
   * The JavaScript relational `a < b` on two strings: lexicographic order of
   * character codes, a proper prefix coming first.
   */
  predicate StrLess(a: string, b: string)
  {
    StrLessFrom(a, b, 0)
  }

  /** `a < b` decided from position `i` on, the characters before `i` being equal. */
  predicate StrLessFrom(a: string, b: string, i: nat)
    decreases |a| - i
  {
    if i >= |a| then i < |b|
    else if i >= |b| then false
    else if a[i] == b[i] then StrLessFrom(a, b, i + 1)
    else a[i] < b[i]
  }

  lemma {:induction false} StrLessFromIrreflexive(a: string, i: nat)
    ensures !StrLessFrom(a, a, i)
    decreases |a| - i
  {
    if i < |a| {
      StrLessFromIrreflexive(a, i + 1);
    }
  }

  lemma StrLessIrreflexive(a: string)
    ensures !StrLess(a, a)
  {
    StrLessFromIrreflexive(a, 0);
  }

  lemma {:induction false} StrLessFromTotal(a: string, b: string, i: nat)
    requires i <= |a| && i <= |b| && a[..i] == b[..i]
    ensures a == b || StrLessFrom(a, b, i) || StrLessFrom(b, a, i)
    decreases |a| - i
  {
    if i < |a| && i < |b| && a[i] == b[i] {
      assert a[..i + 1] == a[..i] + [a[i]] && b[..i + 1] == b[..i] + [b[i]];
      StrLessFromTotal(a, b, i + 1);
    } else if i == |a| && i == |b| {
      assert a == a[..i] && b == b[..i];
    }
  }

  /** `<` on strings is total: two different strings are ordered one way or the other. */
  lemma StrLessTotal(a: string, b: string)
    ensures a == b || StrLess(a, b) || StrLess(b, a)
  {
    StrLessFromTotal(a, b, 0);
  }

  lemma {:induction false} StrLessFromAsymmetric(a: string, b: string, i: nat)
    ensures !(StrLessFrom(a, b, i) && StrLessFrom(b, a, i))
    decreases |a| - i
  {
    if i < |a| && i < |b| && a[i] == b[i] {
      StrLessFromAsymmetric(a, b, i + 1);
    }
  }

  /** `<` on strings is asymmetric. */
  lemma StrLessAsymmetric(a: string, b: string)
    ensures !(StrLess(a, b) && StrLess(b, a))
  {
    StrLessFromAsymmetric(a, b, 0);
  }
}
