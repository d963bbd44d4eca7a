/** The zod checks the public form endpoints validate their bodies with. A schema
    accepts an object whose listed keys meet their checks; unknown keys are
    dropped from the parsed value. */
module FormSchemas {
  import opened Json

  function Prop(body: Json, k: string): Option<Json>
  {
    Field(Some(body), k)
  }

  /** `z.string()`. */
  predicate IsText(v: Option<Json>)
  {
    v.Some? && v.value.JStr?
  }

  /** `z.string().min(1)`. */
  predicate NonEmptyText(v: Option<Json>)
  {
    IsText(v) && |v.value.s| >= 1
  }

  /** `z.string().optional()`: absent, or a string (`null` is refused). */
  predicate OptionalText(v: Option<Json>)
  {
    v.None? || v.value.JStr?
  }

  /** `z.string().email()`, with the address test left uninterpreted. */
  predicate Email(v: Option<Json>, isEmail: string -> bool)
  {
    IsText(v) && isEmail(v.value.s)
  }

  /** `z.number().positive()`. */
  predicate Positive(v: Option<Json>)
  {
    v.Some? && v.value.JNum? && v.value.n > 0
  }

  /** The parsed value of an optional string. */
  function TextOf(v: Option<Json>): (r: Option<string>)
    requires OptionalText(v)
    ensures r.None? <==> v.None?
    ensures r.Some? ==> v == Some(JStr(r.value))
  {
    if v.Some? then Some(v.value.s) else None
  }

  /** `v || null` on a parsed optional string: the empty string becomes `null`. */
  function NonEmptyOrNull(v: Option<string>): (r: Option<string>)
    ensures r.Some? <==> v.Some? && v.value != ""
    ensures r.Some? ==> r == v
  {
    if v.Some? && v.value != "" then v else None
  }
}
