/** `/api/admin/products`: the staff-only product list and product creation. */
module AdminProductsRoute {
  import opened Json
  import opened Web
  import opened Text
  import opened AdminForms

  /** What the POST handler awaits, in order: the session, the body, the unique
      slug search (whose `findUnique` queries may throw) and the insert, which
      yields the new record's id. */
  datatype Effects = Effects(
    session: Outcome<Option<Session>>,
    body: Outcome<Json>,
    uniqueSlug: string -> Outcome<string>,
    created: Outcome<string>)

  /** The value `parseFloat` hands back for `priceWholesale`: `null` when the field is
      falsy, `NaN` when it does not parse. */
  datatype Wholesale = NoWholesale | NotANumber | Price(amount: int)

  /** The record handed to `product.create`. */
  datatype ProductData = ProductData(
    name: string,
    slug: string,
    shortDescription: Option<string>,
    descriptionRichText: Json,
    images: Json,
    categoryId: Json,
    tags: Json,
    priceRetail: int,
    priceWholesale: Wholesale,
    stock: int,
    sku: Option<string>,
    featured: bool,
    active: bool)

  datatype Reply =
    | ErrorReply(error: string, details: Option<string>, code: Option<string>)
    | Created(id: string, data: ProductData)
    | Listed(products: seq<Json>)

  const Unauthorized := "Unauthorized"
  const NameRequired := "El nombre es requerido"
  const SlugTaken := "Ya existe un producto con ese slug. El slug se generará automáticamente."
  const CreateFailed := "Error al crear el producto"
  const FetchFailed := "Failed to fetch products"

  /** The number parsers, uninterpreted; `None` is `NaN`. */
  datatype Parsers = Parsers(parseFloat: Option<Json> -> Option<int>, parseInt: Option<Json> -> Option<int>)

  function Prop(body: Json, k: string): Option<Json>
  {
    Field(Some(body), k)
  }

  /** `Array.isArray(v) ? v : (v ? [v] : empty)`. */
  function AsList(v: Option<Json>, empty: Json): Json
  {
    if v.Some? && v.value.JArr? then v.value
    else if Present(v) then JArr([v.value])
    else empty
  }

  /** `v || null`. */
  function OrNull(v: Option<Json>): Json
  {
    if Present(v) then v.value else JNull
  }

  function WholesalePrice(v: Option<Json>, parseFloat: Option<Json> -> Option<int>): Wholesale
  {
    if !Present(v) then NoWholesale
    else if parseFloat(v).None? then NotANumber
    else Price(parseFloat(v).value)
  }

  /** `productData`, once `name` passed and the text fields trimmed without error. */
  function Data(body: Json, name: string, slug: string, shortDescription: Option<string>, sku: Option<string>,
                p: Parsers): ProductData
  {
    ProductData(
      Trim(name),
      slug,
      shortDescription,
      OrNull(Prop(body, "descriptionRichText")),
      AsList(Prop(body, "images"), JArr([])),
      OrNull(Prop(body, "categoryId")),
      AsList(Prop(body, "tags"), JNull),
      OrZero(p.parseFloat(Prop(body, "priceRetail"))),
      WholesalePrice(Prop(body, "priceWholesale"), p.parseFloat),
      OrZero(p.parseInt(Prop(body, "stock"))),
      sku,
      ToBoolean(Prop(body, "featured")),
      DefaultTrue(Prop(body, "active")))
  }

  /** The `catch` block: a unique-constraint failure is 409, anything else 500. */
  function Failure(e: Thrown): Response<Reply>
  {
    if HasCode(e, "P2002") then Response(409, ErrorReply(SlugTaken, None, None))
    else
      Response(500, ErrorReply(if e.message != "" then e.message else CreateFailed,
                               Some(e.message), e.code))
  }

  function Post(e: Effects, generateSlug: string -> string, p: Parsers): Response<Reply>
  {
    if e.session.Threw? then Failure(e.session.error)
    else if !IsStaff(e.session.value) then Response(401, ErrorReply(Unauthorized, None, None))
    else if e.body.Threw? then Failure(e.body.error)
    else if e.body.value.JNull? then Failure(NullBody("name"))
    else
      var body := e.body.value;
      var name := RequiredName(Prop(body, "name"));
      if name.Threw? then Failure(name.error)
      else if name.value.None? then Response(400, ErrorReply(NameRequired, None, None))
      else
        var slug := SlugSource(Prop(body, "slug"), name.value.value, generateSlug);
        if slug.Threw? then Failure(slug.error)
        else
          var finalSlug := e.uniqueSlug(slug.value);
          if finalSlug.Threw? then Failure(finalSlug.error)
          else
            var shortDescription := TrimmedOrNull(Prop(body, "shortDescription"), "shortDescription");
            if shortDescription.Threw? then Failure(shortDescription.error)
            else
              var sku := TrimmedOrNull(Prop(body, "sku"), "sku");
              if sku.Threw? then Failure(sku.error)
              else if e.created.Threw? then Failure(e.created.error)
              else
                Response(201, Created(e.created.value,
                  Data(body, name.value.value, finalSlug.value, shortDescription.value, sku.value, p)))
  }

  /** GET: the list as the store returns it, newest first by `createdAt`. */
  function List(session: Outcome<Option<Session>>, products: Outcome<seq<Json>>): Response<Reply>
  {
    if session.Threw? then Response(500, ErrorReply(FetchFailed, None, None))
    else if !IsStaff(session.value) then Response(401, ErrorReply(Unauthorized, None, None))
    else if products.Threw? then Response(500, ErrorReply(FetchFailed, None, None))
    else Response(200, Listed(products.value))
  }

  // ---------------------------------------------------------------- properties

  /** Without an ADMIN or EDITOR session both handlers answer 401. */
  lemma NoStaffIs401(e: Effects, generateSlug: string -> string, p: Parsers, products: Outcome<seq<Json>>)
    requires e.session.Done? && !IsStaff(e.session.value)
    ensures Post(e, generateSlug, p) == Response(401, ErrorReply(Unauthorized, None, None))
    ensures List(e.session, products) == Response(401, ErrorReply(Unauthorized, None, None))
  {
  }

  /** A missing or blank name is 400, decided before any slug is generated or
      looked up. */
  lemma BlankNameIs400(e: Effects, generateSlug: string -> string, p: Parsers,
                       uniqueSlug: string -> Outcome<string>, created: Outcome<string>)
    requires e.session.Done? && IsStaff(e.session.value) && e.body.Done? && !e.body.value.JNull?
    requires var v := Prop(e.body.value, "name"); !Present(v) || (v.value.JStr? && AllSpace(v.value.s))
    ensures Post(e, generateSlug, p) == Response(400, ErrorReply(NameRequired, None, None))
    ensures Post(e.(uniqueSlug := uniqueSlug, created := created), generateSlug, p) == Post(e, generateSlug, p)
  {
    RequiredNameRule(Prop(e.body.value, "name"));
  }

  /** Every check passed and every effect succeeded. */
  predicate Accepted(e: Effects, generateSlug: string -> string)
  {
    e.session.Done? && IsStaff(e.session.value) && e.body.Done? && !e.body.value.JNull? &&
    var body := e.body.value;
    var name := RequiredName(Prop(body, "name"));
    name.Done? && name.value.Some? &&
    var slug := SlugSource(Prop(body, "slug"), name.value.value, generateSlug);
    slug.Done? && e.uniqueSlug(slug.value).Done? &&
    TrimmedOrNull(Prop(body, "shortDescription"), "shortDescription").Done? &&
    TrimmedOrNull(Prop(body, "sku"), "sku").Done? &&
    e.created.Done?
  }

  /** Only a request that passes every check and whose effects all succeed
      creates a product. */
  lemma CreatedOnlyIfAccepted(e: Effects, generateSlug: string -> string, p: Parsers)
    requires Post(e, generateSlug, p).status == 201
    ensures Accepted(e, generateSlug)
  {
    RequiredNameRule(Prop(e.body.value, "name"));
  }

  /** Such a request creates the product, with the unique slug found for the
      slug source. */
  lemma AcceptedCreates(e: Effects, generateSlug: string -> string, p: Parsers)
    requires Accepted(e, generateSlug)
    ensures var body := e.body.value;
      var name := Prop(body, "name").value.s;
      var slug := SlugSource(Prop(body, "slug"), name, generateSlug).value;
      Post(e, generateSlug, p) == Response(201, Created(e.created.value,
        Data(body, name, e.uniqueSlug(slug).value,
             TrimmedOrNull(Prop(body, "shortDescription"), "shortDescription").value,
             TrimmedOrNull(Prop(body, "sku"), "sku").value, p)))
  {
    RequiredNameRule(Prop(e.body.value, "name"));
  }

  /** The created record follows the normalisation rules. */
  lemma DataRules(body: Json, name: string, slug: string, shortDescription: Option<string>, sku: Option<string>,
                  p: Parsers)
    requires Trim(name) != ""
    ensures var d := Data(body, name, slug, shortDescription, sku, p);
      d.name == Trim(name) && d.name != "" && d.slug == slug &&
      (Prop(body, "images").Some? && Prop(body, "images").value.JArr? ==> d.images == Prop(body, "images").value) &&
      (!Present(Prop(body, "images")) ==> d.images == JArr([])) &&
      (Prop(body, "tags").Some? && Prop(body, "tags").value.JArr? ==> d.tags == Prop(body, "tags").value) &&
      (!Present(Prop(body, "tags")) ==> d.tags == JNull) &&
      (Prop(body, "categoryId") == Some(JStr("")) ==> d.categoryId == JNull) &&
      (Present(Prop(body, "categoryId")) ==> d.categoryId == Prop(body, "categoryId").value) &&
      (p.parseFloat(Prop(body, "priceRetail")).None? ==> d.priceRetail == 0) &&
      (!Present(Prop(body, "priceWholesale")) ==> d.priceWholesale == NoWholesale) &&
      (p.parseInt(Prop(body, "stock")).None? ==> d.stock == 0) &&
      d.featured == ToBoolean(Prop(body, "featured")) &&
      (Prop(body, "active").None? ==> d.active) &&
      (Prop(body, "active").Some? ==> d.active == Truthy(Prop(body, "active").value))
  {
  }

  /** A truthy scalar `images` or `tags` value is wrapped in a one-element list. */
  lemma ScalarWrapped(v: Json, empty: Json)
    requires Truthy(v) && !v.JArr?
    ensures AsList(Some(v), empty) == JArr([v])
  {
  }

  /** A duplicate slug is reported as 409; every other failure as 500. */
  lemma ConflictIs409(e: Thrown)
    ensures Failure(e).status == 409 <==> HasCode(e, "P2002")
    ensures Failure(e).status != 409 ==> Failure(e).status == 500
    ensures !HasCode(e, "P2002") ==>
      Failure(e).body.error == (if e.message != "" then e.message else CreateFailed) &&
      Failure(e).body.details == Some(e.message) && Failure(e).body.code == e.code
  {
  }
}
