/**
 * The `java.lang.String`, `Integer` and `Boolean` operations the console
 * program relies on: `equalsIgnoreCase`, `trim`, string concatenation of a
 * possibly null reference, `Integer.parseInt` and its printed form,
 * `Boolean.parseBoolean`, and `split(",")`.
 */
module JavaText {
  import opened Wrappers
  import opened JsText

  /** `a.equalsIgnoreCase(b)` (ASCII letters). */
  predicate EqualsIgnoreCase(a: string, b: string)
  {
    Lower(a) == Lower(b)
  }

  /** A Java `String` reference: `None` is `null`. */
  type JString = Option<string>

  /** `"" + s`: a null reference prints as "null". */
  function Show(s: JString): string
  {
    if s.Some? then s.value else "null"
  }

  /** The characters `String.trim` removes: every code point up to the space. */
  predicate IsJavaSpace(c: char)
  {
    c as int <= 0x20
  }

  function JavaTrimStart(s: string): string
  {
    if |s| > 0 && IsJavaSpace(s[0]) then JavaTrimStart(s[1..]) else s
  }

  function JavaTrimEnd(s: string): string
  {
    if |s| > 0 && IsJavaSpace(s[|s| - 1]) then JavaTrimEnd(s[..|s| - 1]) else s
  }

  /** `s.trim()`. */
  function JavaTrim(s: string): string
  {
    JavaTrimEnd(JavaTrimStart(s))
  }

  /** A Java `int`. */
  type Int32 = x: int | -0x8000_0000 <= x < 0x8000_0000

  function DigitChar(d: int): char
    requires 0 <= d < 10
  {
    ('0' as int + d) as char
  }

  /** The decimal digits of `n`, most significant first, without leading zeros. */
  function Digits(n: nat): (r: string)
    ensures |r| > 0 && forall i :: 0 <= i < |r| ==> IsDigit(r[i])
  {
    if n < 10 then [DigitChar(n)] else Digits(n / 10) + [DigitChar(n % 10)]
  }

  /** `"" + n` for an `int`. */
  function IntToString(n: Int32): string
  {
    if n < 0 then "-" + Digits(-(n as int)) else Digits(n)
  }

  /** The value of a string of decimal digits. */
  function DigitsValue(s: string): nat
    requires forall i :: 0 <= i < |s| ==> IsDigit(s[i])
  {
    if s == [] then 0
    else
      assert IsDigit(s[|s| - 1]);
      DigitsValue(s[..|s| - 1]) * 10 + (s[|s| - 1] as int - '0' as int)
  }

  /**
   * `Integer.parseInt(s)`: an optional sign and at least one ASCII decimal
   * digit, with a value that fits in an `int`; `None` where Java throws
   * `NumberFormatException`. Other Unicode decimal digits, which Java also
   * accepts, give `None` here.
   */
  function ParseInt(s: string): (r: Option<Int32>)
    ensures r.Some? ==> |s| > 0
  {
    var negative := |s| > 0 && s[0] == '-';
    var body := if |s| > 0 && (s[0] == '-' || s[0] == '+') then s[1..] else s;
    var magnitude := ParseDigits(body);
    if magnitude < 0 then None
    else
      var v := if negative then -magnitude else magnitude;
      if -0x8000_0000 <= v < 0x8000_0000 then Some(v) else None
  }

  /** The value of a non-empty string of decimal digits, or -1 when it is not one. */
  function ParseDigits(body: string): (r: int)
    ensures r >= -1
  {
    if |body| == 0 || !(forall i :: 0 <= i < |body| ==> IsDigit(body[i])) then -1
    else DigitsValue(body)
  }

  lemma {:induction false} DigitsRoundTrip(n: nat)
    ensures DigitsValue(Digits(n)) == n
  {
    if n >= 10 {
      var d := Digits(n);
      DigitsRoundTrip(n / 10);
      assert d[..|d| - 1] == Digits(n / 10);
    }
  }

  /** An `int` printed and parsed back is the same `int`. */
  lemma IntRoundTrip(n: Int32)
    ensures ParseInt(IntToString(n)) == Some(n)
  {
    var s := IntToString(n);
    if n < 0 {
      var m: nat := -(n as int);
      DigitsRoundTrip(m);
      assert s[0] == '-' && s[1..] == Digits(m);
      assert ParseDigits(s[1..]) == m;
    } else {
      DigitsRoundTrip(n);
      assert IsDigit(s[0]);
      assert ParseDigits(s) == n;
    }
  }

  /** `"" + b` for a `boolean`. */
  function BoolToString(b: bool): string
  {
    if b then "true" else "false"
  }

  /** `Boolean.parseBoolean(s)`: "true" in any letter case. */
  predicate ParseBoolean(s: string)
  {
    EqualsIgnoreCase(s, "true")
  }

  lemma BoolRoundTrip(b: bool)
    ensures ParseBoolean(BoolToString(b)) == b
  {
    assert Lower("false") == "false" && Lower("true") == "true";
  }

  /** The pieces of `s` between commas, empty pieces included. */
  function SplitAll(s: string): (r: seq<string>)
    ensures |r| > 0
  {
    if s == [] then [""]
    else
      var rest := SplitAll(s[1..]);
      if s[0] == ',' then [""] + rest else [[s[0]] + rest[0]] + rest[1..]
  }

  function DropTrailingEmpty(pieces: seq<string>): (r: seq<string>)
    ensures |r| <= |pieces| && r == pieces[..|r|]
    ensures r != [] ==> r[|r| - 1] != ""
  {
    if pieces == [] then []
    else if pieces[|pieces| - 1] == "" then DropTrailingEmpty(pieces[..|pieces| - 1])
    else pieces
  }

  /**
   * `s.split(",")`: the pieces between commas with trailing empty pieces
   * removed; a string without a comma is its own single piece.
   */
  function Split(s: string): (r: seq<string>)
  {
    if ',' !in s then [s] else DropTrailingEmpty(SplitAll(s))
  }

  /** The fields joined with commas, as the save routine writes a line. */
  function Join(fields: seq<string>): (r: string)
    requires |fields| > 0
  {
    if |fields| == 1 then fields[0] else fields[0] + "," + Join(fields[1..])
  }

  predicate CommaFree(s: string)
  {
    ',' !in s
  }

  lemma {:induction false} SplitAllPrefix(a: string, s: string)
    requires CommaFree(a)
    ensures SplitAll(a + s) == [a + SplitAll(s)[0]] + SplitAll(s)[1..]
  {
    if a != [] {
      assert (a + s)[1..] == a[1..] + s;
      assert (a + s)[0] == a[0];
      SplitAllPrefix(a[1..], s);
      assert [a[0]] + (a[1..] + SplitAll(s)[0]) == a + SplitAll(s)[0];
    } else {
      assert a + s == s;
      assert a + SplitAll(s)[0] == SplitAll(s)[0];
      assert SplitAll(s) == [SplitAll(s)[0]] + SplitAll(s)[1..];
    }
  }

  lemma {:induction false} SplitAllJoin(fields: seq<string>)
    requires |fields| > 0 && forall i :: 0 <= i < |fields| ==> CommaFree(fields[i])
    ensures SplitAll(Join(fields)) == fields
  {
    if |fields| == 1 {
      SplitAllPrefix(fields[0], "");
      assert fields[0] + "" == fields[0];
    } else {
      var t := Join(fields[1..]);
      SplitAllJoin(fields[1..]);
      assert ("," + t)[1..] == t;
      assert SplitAll("," + t) == [""] + SplitAll(t);
      SplitAllPrefix(fields[0], "," + t);
      assert fields[0] + "," + t == fields[0] + ("," + t);
      assert fields[0] + "" == fields[0];
    }
  }

  /**
   * Comma-free fields, at least two of them, the last one non-empty, come
   * back from `split(",")` as they were joined.
   */
  lemma SplitJoin(fields: seq<string>)
    requires |fields| >= 2 && forall i :: 0 <= i < |fields| ==> CommaFree(fields[i])
    requires fields[|fields| - 1] != ""
    ensures Split(Join(fields)) == fields
  {
    SplitAllJoin(fields);
    assert ',' in Join(fields) by {
      assert Join(fields) == fields[0] + "," + Join(fields[1..]);
      assert Join(fields)[|fields[0]|] == ',';
    }
  }

  /** An empty last field is lost: `split` drops trailing empty pieces. */
  lemma TrailingEmptyFieldLost()
    ensures Split("a,") == ["a"]
  {
    assert "a,"[1..] == ",";
    assert ","[1..] == "";
    assert SplitAll(",") == ["", ""];
    assert ['a'] + "" == "a";
    assert SplitAll("a,") == ["a", ""];
  }
}
