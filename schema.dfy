/**
 * What the three Mongoose schemas share: the `trim: true` setter applied to a
 * string path, the `required: true` validator, and the cast of a string to an
 * ObjectId reference. `save()` rejects a document that fails any of these with a
 * ValidationError and stores nothing.
 */
module Schema {
  import opened Js
  import opened Text
  import opened ObjectIds

  /** The outcome of building and validating a document before it is written. */
  datatype Checked<T> = Accepted(doc: T) | ValidationError

  /** The `trim` setter on a string path that may be absent. */
  function TrimPath(v: Option<string>): (r: Option<string>)
    ensures r.None? <==> v.None?
    ensures r.Some? ==> r.value == Trim(v.value) && Trimmed(r.value)
  {
    match v
    case None => None
    case Some(s) => TrimSlice(s); Some(Trim(s))
  }

  /**
   * `required: true` on a trimmed string path: the value must be present and, once
   * trimmed, not empty.
   */
  predicate RequiredString(v: Option<string>)
  {
    v.Some? && Trim(v.value) != ""
  }

  /** An ObjectId path: absent, or a string that casts to an id. */
  predicate RefCasts(v: Option<string>)
  {
    v.None? || ParseId(v.value).Some?
  }

  /** The cast of an ObjectId path that `RefCasts` admits. */
  function CastRef(v: Option<string>): (r: Option<nat>)
    requires RefCasts(v)
    ensures r.None? <==> v.None?
    ensures r.Some? ==> IdText(r.value) == v.value
  {
    match v
    case None => None
    case Some(s) => IdTextOfParsed(s, ParseId(s).value); ParseId(s)
  }
}
