/** The body-reading rules that the product and category create routes share:
    the required name, the slug source, optional trimmed text fields, numbers that
    fall back to 0 and flags that default to true. */
module AdminForms {
  import opened Json
  import opened Web
  import opened Text

  /** The TypeError of calling `trim` (or reading past) a value that has none. */
  function NotAString(key: string): Thrown
  {
    Thrown(None, key + ".trim is not a function")
  }

  /** The TypeError of reading a property of a `null` body. */
  function NullBody(key: string): Thrown
  {
    Thrown(None, "Cannot read properties of null (reading '" + key + "')")
  }

  /** `!v || v.trim() === ''` and its error: `Done(None)` for the 400 answer,
      `Done(Some(v))` for a name that passes, with `v` untrimmed. */
  function RequiredName(v: Option<Json>): Outcome<Option<string>>
  {
    if !Present(v) then Done(None)
    else if !v.value.JStr? then Threw(NotAString("name"))
    else if Trim(v.value.s) == "" then Done(None)
    else Done(Some(v.value.s))
  }

  /** `v?.trim()`: `None` for `undefined` and `null`. */
  function OptionalTrim(v: Option<Json>, key: string): Outcome<Option<string>>
  {
    if v.None? || v.value.JNull? then Done(None)
    else if v.value.JStr? then Done(Some(Trim(v.value.s)))
    else Threw(NotAString(key))
  }

  /** `v?.trim() || null`. */
  function TrimmedOrNull(v: Option<Json>, key: string): Outcome<Option<string>>
  {
    var t := OptionalTrim(v, key);
    if t.Done? && t.value.Some? && t.value.value == "" then Done(None) else t
  }

  /** The slug the route hands to `generateUniqueSlug`: `generateSlug` of the trimmed
      slug, or of the (untrimmed) name when no slug text is left. */
  function SlugSource(slug: Option<Json>, name: string, generateSlug: string -> string): Outcome<string>
  {
    var t := OptionalTrim(slug, "slug");
    if t.Threw? then Threw(t.error)
    else if t.value.None? || t.value.value == "" then Done(generateSlug(name))
    else Done(generateSlug(t.value.value))
  }

  /** `parseX(v) || 0`, where `None` stands for `NaN`. */
  function OrZero(parsed: Option<int>): int
  {
    if parsed.Some? then parsed.value else 0
  }

  /** `v !== undefined ? Boolean(v) : true`: only an absent key defaults. */
  function DefaultTrue(v: Option<Json>): bool
  {
    if v.None? then true else ToBoolean(v)
  }

  // ---------------------------------------------------------------- properties

  /** A name passes exactly when it is a string with a non-blank character;
      a truthy non-string throws on `trim`. */
  lemma RequiredNameRule(v: Option<Json>)
    ensures RequiredName(v) == Done(None) <==> !Present(v) || (v.value.JStr? && AllSpace(v.value.s))
    ensures RequiredName(v).Done? && RequiredName(v).value.Some? ==>
      v == Some(JStr(RequiredName(v).value.value)) && Trim(RequiredName(v).value.value) != ""
    ensures RequiredName(v).Threw? <==> Present(v) && !v.value.JStr?
  {
    if Present(v) && v.value.JStr? {
      TrimEmptyIff(v.value.s);
    }
  }

  /** A stored optional text is trimmed and never empty; blank text and a missing
      or `null` value are stored as `null`. */
  lemma TrimmedOrNullRule(v: Option<Json>, key: string)
    ensures TrimmedOrNull(v, key).Done? && TrimmedOrNull(v, key).value.Some? ==>
      var t := TrimmedOrNull(v, key).value.value;
      t != "" && Trim(t) == t && v.Some? && v.value.JStr? && t == Trim(v.value.s)
    ensures v.None? || v == Some(JNull) ==> TrimmedOrNull(v, key) == Done(None)
    ensures v.Some? && v.value.JStr? && AllSpace(v.value.s) ==> TrimmedOrNull(v, key) == Done(None)
    ensures TrimmedOrNull(v, key).Threw? <==> v.Some? && !v.value.JNull? && !v.value.JStr?
  {
    if v.Some? && v.value.JStr? {
      TrimIdempotent(v.value.s);
      TrimEmptyIff(v.value.s);
    }
  }

  /** The slug source: a provided slug with text wins over the name; either passes
      through `generateSlug`. */
  lemma SlugSourceRule(slug: Option<Json>, name: string, generateSlug: string -> string)
    ensures slug.None? || slug == Some(JNull) ==> SlugSource(slug, name, generateSlug) == Done(generateSlug(name))
    ensures slug.Some? && slug.value.JStr? && AllSpace(slug.value.s) ==>
      SlugSource(slug, name, generateSlug) == Done(generateSlug(name))
    ensures slug.Some? && slug.value.JStr? && !AllSpace(slug.value.s) ==>
      SlugSource(slug, name, generateSlug) == Done(generateSlug(Trim(slug.value.s)))
    ensures SlugSource(slug, name, generateSlug).Threw? <==> slug.Some? && !slug.value.JNull? && !slug.value.JStr?
  {
    if slug.Some? && slug.value.JStr? {
      TrimEmptyIff(slug.value.s);
    }
  }

  /** `NaN` and 0 both give 0; any other number is kept. */
  lemma OrZeroRule(parsed: Option<int>)
    ensures parsed.None? ==> OrZero(parsed) == 0
    ensures parsed.Some? ==> OrZero(parsed) == parsed.value
  {
  }

  /** Only an absent key gives `true`; a present `null` or `false` gives `false`. */
  lemma DefaultTrueRule(v: Option<Json>)
    ensures v.None? ==> DefaultTrue(v)
    ensures v == Some(JNull) || v == Some(JBool(false)) ==> !DefaultTrue(v)
    ensures v.Some? ==> (DefaultTrue(v) <==> Truthy(v.value))
  {
  }
}
