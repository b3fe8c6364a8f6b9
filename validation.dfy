/**
 * What the request-body validators have in common: their outcome, the scan
 * of a fixed list of keys for the first one that fails a test, and the
 * tests on single values (`typeof` checks and number comparisons).
 */
module Validation {
  import opened Wrappers
  import opened JsText
  import opened JsValues

  /**
   * What a validator does with a request: call `next` (`Pass`), answer 400
   * with an error message (`Fail`), or throw before answering (`Throws`).
   */
  datatype Check = Pass | Fail(error: string) | Throws

  /**
   * `for (const [key, val] of Object.entries(fields)) if (!ok(val)) return key`:
   * the first key, in order, whose value fails `ok`.
   */
  function FirstFailing(b: Body, keys: seq<string>, ok: JsValue -> bool): (r: Option<string>)
    ensures r.None? <==> forall i :: 0 <= i < |keys| ==> ok(Get(b, keys[i]))
    ensures r.Some? ==> exists i :: 0 <= i < |keys| && keys[i] == r.value && !ok(Get(b, keys[i]))
                                    && forall j :: 0 <= j < i ==> ok(Get(b, keys[j]))
  {
    if keys == [] then None
    else if !ok(Get(b, keys[0])) then Some(keys[0])
    else
      var r := FirstFailing(b, keys[1..], ok);
      assert r.Some? ==> exists i :: 1 <= i < |keys| && keys[i] == r.value && !ok(Get(b, keys[i]))
                                     && forall j :: 0 <= j < i ==> ok(Get(b, keys[j])) by {
        if r.Some? {
          var i :| 0 <= i < |keys[1..]| && keys[1..][i] == r.value && !ok(Get(b, keys[1..][i]))
                   && forall j :: 0 <= j < i ==> ok(Get(b, keys[1..][j]));
          assert forall j :: 0 <= j < i + 1 ==> ok(Get(b, keys[j])) by {
            forall j | 0 <= j < i + 1 ensures ok(Get(b, keys[j])) {
              if j > 0 { assert keys[j] == keys[1..][j - 1]; }
            }
          }
        }
      }
      assert r.None? ==> forall i :: 0 <= i < |keys| ==> ok(Get(b, keys[i])) by {
        if r.None? {
          forall i | 0 <= i < |keys| ensures ok(Get(b, keys[i])) {
            if i > 0 { assert keys[i] == keys[1..][i - 1]; }
          }
        }
      }
      r
  }

  /** The key reported is the first failing one: every earlier key passes. */
  lemma {:induction false} FirstFailingAt(b: Body, keys: seq<string>, ok: JsValue -> bool, i: int)
    requires 0 <= i < |keys| && !ok(Get(b, keys[i]))
    requires forall j :: 0 <= j < i ==> ok(Get(b, keys[j]))
    ensures FirstFailing(b, keys, ok) == Some(keys[i])
  {
    if i > 0 {
      assert ok(Get(b, keys[0]));
      forall j | 0 <= j < i - 1 ensures ok(Get(b, keys[1..][j])) {
        assert keys[1..][j] == keys[j + 1];
      }
      FirstFailingAt(b, keys[1..], ok, i - 1);
    }
  }

  /** A key outside the list is never looked at. */
  lemma {:induction false} FirstFailingUnread(b: Body, keys: seq<string>, ok: JsValue -> bool, k: string, v: JsValue)
    requires k !in keys
    ensures FirstFailing(b[k := v], keys, ok) == FirstFailing(b, keys, ok)
  {
    if keys != [] {
      assert Get(b[k := v], keys[0]) == Get(b, keys[0]);
      FirstFailingUnread(b, keys[1..], ok, k, v);
    }
  }

  /** Two bodies whose listed values pass and fail alike report the same key. */
  lemma {:induction false} FirstFailingAgree(b1: Body, b2: Body, keys: seq<string>, ok: JsValue -> bool)
    requires forall i :: 0 <= i < |keys| ==> ok(Get(b1, keys[i])) == ok(Get(b2, keys[i]))
    ensures FirstFailing(b1, keys, ok) == FirstFailing(b2, keys, ok)
  {
    if keys != [] {
      assert ok(Get(b1, keys[0])) == ok(Get(b2, keys[0]));
      forall i | 0 <= i < |keys[1..]| ensures ok(Get(b1, keys[1..][i])) == ok(Get(b2, keys[1..][i])) {
        assert keys[1..][i] == keys[i + 1];
      }
      FirstFailingAgree(b1, b2, keys[1..], ok);
    }
  }

  /** `typeof v === "number" && !(v < 0)`: NaN passes, since `NaN < 0` is false. */
  predicate NotNegative(v: JsValue)
  {
    v.Number? && !(v.n.Finite? && v.n.value < 0.0)
  }

  /** `typeof v === "number" && v >= 0`: NaN fails, since `NaN >= 0` is false. */
  predicate NonNegativeNumber(v: JsValue)
  {
    v.Number? && v.n.Finite? && v.n.value >= 0.0
  }

  /** The two ways of writing the number check disagree on NaN and nowhere else. */
  lemma NumberChecksDifferOnlyOnNaN(v: JsValue)
    ensures NotNegative(v) != NonNegativeNumber(v) <==> v == Number(NaN)
  {
  }

  /** `typeof v === "boolean"`. */
  predicate IsBoolean(v: JsValue)
  {
    v.Bool?
  }

  /** Lower-casing a string does not change whether it counts as non-empty. */
  lemma LowerKeepsNonEmpty(s: string)
    ensures IsNonEmptyString(Str(Lower(s))) == IsNonEmptyString(Str(s))
  {
    NonEmptyStringIffNotBlank(Str(s));
    NonEmptyStringIffNotBlank(Str(Lower(s)));
    LowerBlank(s);
  }

  /** An incoming request whose parsed body a middleware may rewrite in place. */
  class Request {
    var body: Body

    constructor (body: Body)
      ensures this.body == body
    {
      this.body := body;
    }
  }
}
