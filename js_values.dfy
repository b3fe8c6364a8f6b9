/**
 * JavaScript values as the request handlers and validators see them: JSON
 * request bodies, query strings, and the number type with its NaN.
 */
module JsValues {
  import opened Wrappers
  import opened JsText

  /** A JavaScript number: NaN, or a finite value (infinities do not arise from JSON). */
  datatype Num = NaN | Finite(value: real)

  /** `a === b` on numbers: NaN is equal to nothing, not even itself. */
  predicate NumEq(a: Num, b: Num)
  {
    a.Finite? && b.Finite? && a.value == b.value
  }

  /** A string-to-number coercion such as `parseInt` or `Number`, left abstract. */
  type Coercion = string -> Num

  /** `parseInt` yields an integer or NaN, never a fraction. */
  ghost predicate IntegerValued(parseInt: Coercion)
  {
    forall s :: parseInt(s).Finite? ==> parseInt(s).value == parseInt(s).value.Floor as real
  }

  /** A value in a JSON request body. `Object` stands for any object or array. */
  datatype JsValue = Undefined | Null | Bool(b: bool) | Number(n: Num) | Str(s: string) | Object

  /** A parsed request body; a key that is not in the map reads as `undefined`. */
  type Body = map<string, JsValue>

  function Get(b: Body, k: string): JsValue
  {
    if k in b then b[k] else Undefined
  }

  /** `typeof v === "string" && v.trim().length > 0`. */
  predicate IsNonEmptyString(v: JsValue)
  {
    v.Str? && |Trim(v.s)| > 0
  }

  /** A non-empty string is one with at least one non-whitespace character. */
  lemma NonEmptyStringIffNotBlank(v: JsValue)
    ensures IsNonEmptyString(v) <==> v.Str? && !IsBlank(v.s)
  {
    if v.Str? {
      TrimEmptyIffBlank(v.s);
    }
  }

  /**
   * A parsed query string (`req.query`): every supplied parameter is a
   * string; a parameter that was not supplied is not in the map.
   */
  type Query = map<string, string>

  /** `if (q.k)`: the parameter is supplied and is not the empty string. */
  predicate Supplied(q: Query, k: string)
  {
    k in q && q[k] != ""
  }

  /** `q.k !== undefined`: the parameter is supplied, possibly empty. */
  predicate Present(q: Query, k: string)
  {
    k in q
  }
}
