/**
 * The few JavaScript notions the controllers lean on: a request field that may be
 * absent, the truthiness test `if (v)` applied to such a field, and strict
 * equality `===` between a document's `_id` and a query string.
 */
module Js {

  /** A field of a JSON body or of a query string: absent (`undefined`) or present. */
  datatype Option<+T> = None | Some(value: T)

  /** `if (v)` on a string field: `undefined` and `""` are falsy. */
  predicate StringTruthy(v: Option<string>)
  {
    v.Some? && v.value != ""
  }

  /** `if (v)` on a boolean field: `undefined` and `false` are falsy. */
  predicate BoolTruthy(v: Option<bool>)
  {
    v == Some(true)
  }

  /** `if (v)` on a number field: `undefined` and `0` are falsy. */
  predicate NumberTruthy(v: Option<int>)
  {
    v.Some? && v.value != 0
  }

  /**
   * The two kinds of value that meet in `c._id === idFilter`: a primitive string
   * and an ObjectId object (here identified by the id it wraps).
   */
  datatype Value = Str(s: string) | ObjectId(id: nat)

  /**
   * `a === s` for a primitive string `s`: true exactly when `a` is itself a
   * primitive string with the same characters. An object is never `===` to a
   * primitive.
   */
  predicate StrictEqualsString(a: Value, s: string)
  {
    match a
    case Str(t) => t == s
    case ObjectId(_) => false
  }
}
