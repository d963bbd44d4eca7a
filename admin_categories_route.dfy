/** `/api/admin/categories`: the staff-only category list, ordered for the admin
    screens, and category creation. */
module AdminCategoriesRoute {
  import opened Json
  import opened Web
  import opened Text
  import opened Sequences
  import opened AdminForms

  /** A stored category, as far as the list's order is concerned. */
  datatype Category = Category(id: string, name: string, order: int)

  /** What the POST handler awaits, in order: the session, the body, the unique
      slug search and the insert, which yields the new record's id. */
  datatype Effects = Effects(
    session: Outcome<Option<Session>>,
    body: Outcome<Json>,
    uniqueSlug: string -> Outcome<string>,
    created: Outcome<string>)

  /** The record handed to `category.create`. */
  datatype CategoryData = CategoryData(
    name: string, slug: string, description: Option<string>, imageUrl: Option<string>,
    order: int, visible: bool)

  datatype Reply =
    | ErrorReply(error: string, details: Option<string>)
    | Created(id: string, data: CategoryData)
    | Listed(categories: seq<Category>)

  const Unauthorized := "Unauthorized"
  const NameRequired := "El nombre es requerido"
  const SlugTaken := "Ya existe una categoría con ese slug. El slug se generará automáticamente."
  const CreateFailed := "Failed to create category"
  const FetchFailed := "Failed to fetch categories"

  // ---------------------------------------------------------------- GET

  /** `orderBy: [{ order: 'asc' }, { name: 'asc' }]`. */
  predicate ByOrderThenName(a: Category, b: Category)
  {
    a.order < b.order || (a.order == b.order && LexLe(a.name, b.name))
  }

  /** The list as the query returns it, from the table in store order. */
  function Listing(table: seq<Category>): seq<Category>
  {
    SortBy(table, ByOrderThenName)
  }

  function List(session: Outcome<Option<Session>>, table: Outcome<seq<Category>>): Response<Reply>
  {
    if session.Threw? then Response(500, ErrorReply(FetchFailed, None))
    else if !IsStaff(session.value) then Response(401, ErrorReply(Unauthorized, None))
    else if table.Threw? then Response(500, ErrorReply(FetchFailed, None))
    else Response(200, Listed(Listing(table.value)))
  }

  lemma OrderThenNameIsTotalPreorder()
    ensures TotalPreorder(ByOrderThenName)
  {
    forall a: Category, b: Category
      ensures ByOrderThenName(a, b) || ByOrderThenName(b, a)
    {
      LexTotal(a.name, b.name);
    }
    forall a: Category, b: Category, c: Category | ByOrderThenName(a, b) && ByOrderThenName(b, c)
      ensures ByOrderThenName(a, c)
    {
      if a.order == b.order && b.order == c.order {
        LexTransitive(a.name, b.name, c.name);
      }
    }
  }

  /** The listing holds every category once and is ordered by `order`, then by
      name; categories that agree on both keep the table's order. */
  lemma ListingOrdered(table: seq<Category>, order: int, name: string)
    ensures multiset(Listing(table)) == multiset(table)
    ensures forall i, j :: 0 <= i < j < |Listing(table)| ==>
      var a := Listing(table)[i];
      var b := Listing(table)[j];
      a.order < b.order || (a.order == b.order && LexLe(a.name, b.name))
    ensures Filter(Listing(table), (c: Category) => c.order == order && c.name == name) ==
      Filter(table, (c: Category) => c.order == order && c.name == name)
  {
    OrderThenNameIsTotalPreorder();
    SortBySorted(table, ByOrderThenName);
    SortByPermutes(table, ByOrderThenName);
    var same := (c: Category) => c.order == order && c.name == name;
    forall a, b | same(a) && same(b) ensures ByOrderThenName(a, b) {
      LexTotal(a.name, b.name);
    }
    SortByStable(table, ByOrderThenName, same);
  }

  // ---------------------------------------------------------------- POST

  function Prop(body: Json, k: string): Option<Json>
  {
    Field(Some(body), k)
  }

  /** `categoryData`, once `name` passed and the text fields trimmed without error. */
  function Data(body: Json, name: string, slug: string, description: Option<string>, imageUrl: Option<string>,
                parseInt: Option<Json> -> Option<int>): CategoryData
  {
    CategoryData(Trim(name), slug, description, imageUrl,
                 OrZero(parseInt(Prop(body, "order"))), DefaultTrue(Prop(body, "visible")))
  }

  /** The `catch` block: a unique-constraint failure is 409, anything else 500. */
  function Failure(e: Thrown): Response<Reply>
  {
    if HasCode(e, "P2002") then Response(409, ErrorReply(SlugTaken, None))
    else Response(500, ErrorReply(CreateFailed, Some(e.message)))
  }

  function Post(e: Effects, generateSlug: string -> string, parseInt: Option<Json> -> Option<int>): Response<Reply>
  {
    if e.session.Threw? then Failure(e.session.error)
    else if !IsStaff(e.session.value) then Response(401, ErrorReply(Unauthorized, None))
    else if e.body.Threw? then Failure(e.body.error)
    else if e.body.value.JNull? then Failure(NullBody("name"))
    else
      var body := e.body.value;
      var name := RequiredName(Prop(body, "name"));
      if name.Threw? then Failure(name.error)
      else if name.value.None? then Response(400, ErrorReply(NameRequired, None))
      else
        var slug := SlugSource(Prop(body, "slug"), name.value.value, generateSlug);
        if slug.Threw? then Failure(slug.error)
        else
          var finalSlug := e.uniqueSlug(slug.value);
          if finalSlug.Threw? then Failure(finalSlug.error)
          else
            var description := TrimmedOrNull(Prop(body, "description"), "description");
            if description.Threw? then Failure(description.error)
            else
              var imageUrl := TrimmedOrNull(Prop(body, "imageUrl"), "imageUrl");
              if imageUrl.Threw? then Failure(imageUrl.error)
              else if e.created.Threw? then Failure(e.created.error)
              else
                Response(201, Created(e.created.value,
                  Data(body, name.value.value, finalSlug.value, description.value, imageUrl.value, parseInt)))
  }

  // ---------------------------------------------------------------- properties

  /** Both handlers answer 401 without an ADMIN or EDITOR session. */
  lemma NoStaffIs401(e: Effects, generateSlug: string -> string, parseInt: Option<Json> -> Option<int>,
                     table: Outcome<seq<Category>>)
    requires e.session.Done? && !IsStaff(e.session.value)
    ensures Post(e, generateSlug, parseInt) == Response(401, ErrorReply(Unauthorized, None))
    ensures List(e.session, table) == Response(401, ErrorReply(Unauthorized, None))
  {
  }

  /** A missing or blank name is 400, before any slug is looked up. */
  lemma BlankNameIs400(e: Effects, generateSlug: string -> string, parseInt: Option<Json> -> Option<int>,
                       uniqueSlug: string -> Outcome<string>, created: Outcome<string>)
    requires e.session.Done? && IsStaff(e.session.value) && e.body.Done? && !e.body.value.JNull?
    requires var v := Prop(e.body.value, "name"); !Present(v) || (v.value.JStr? && AllSpace(v.value.s))
    ensures Post(e, generateSlug, parseInt) == Response(400, ErrorReply(NameRequired, None))
    ensures Post(e.(uniqueSlug := uniqueSlug, created := created), generateSlug, parseInt) ==
      Post(e, generateSlug, parseInt)
  {
    RequiredNameRule(Prop(e.body.value, "name"));
  }

  /** Every check passed and every effect succeeded. */
  predicate Accepted(e: Effects, generateSlug: string -> string)
  {
    e.session.Done? && IsStaff(e.session.value) && e.body.Done? && !e.body.value.JNull? &&
    var body := e.body.value;
    var name := RequiredName(Prop(body, "name"));
    name.Done? && name.value.Some? &&
    var slug := SlugSource(Prop(body, "slug"), name.value.value, generateSlug);
    slug.Done? && e.uniqueSlug(slug.value).Done? &&
    TrimmedOrNull(Prop(body, "description"), "description").Done? &&
    TrimmedOrNull(Prop(body, "imageUrl"), "imageUrl").Done? &&
    e.created.Done?
  }

  /** Only a request that passes every check and whose effects all succeed
      creates a category. */
  lemma CreatedOnlyIfAccepted(e: Effects, generateSlug: string -> string, parseInt: Option<Json> -> Option<int>)
    requires Post(e, generateSlug, parseInt).status == 201
    ensures Accepted(e, generateSlug)
  {
    RequiredNameRule(Prop(e.body.value, "name"));
  }

  /** Such a request creates the category, with the unique slug found for the
      slug source. */
  lemma AcceptedCreates(e: Effects, generateSlug: string -> string, parseInt: Option<Json> -> Option<int>)
    requires Accepted(e, generateSlug)
    ensures var body := e.body.value;
      var name := Prop(body, "name").value.s;
      var slug := SlugSource(Prop(body, "slug"), name, generateSlug).value;
      Post(e, generateSlug, parseInt) == Response(201, Created(e.created.value,
        Data(body, name, e.uniqueSlug(slug).value,
             TrimmedOrNull(Prop(body, "description"), "description").value,
             TrimmedOrNull(Prop(body, "imageUrl"), "imageUrl").value, parseInt)))
  {
    RequiredNameRule(Prop(e.body.value, "name"));
  }

  /** The created record: a non-numeric or zero order is 0, and `visible` defaults
      to true only when the key is absent. */
  lemma DataRules(body: Json, name: string, slug: string, description: Option<string>, imageUrl: Option<string>,
                  parseInt: Option<Json> -> Option<int>)
    requires Trim(name) != ""
    ensures var d := Data(body, name, slug, description, imageUrl, parseInt);
      d.name == Trim(name) && d.name != "" && d.slug == slug &&
      (parseInt(Prop(body, "order")).None? ==> d.order == 0) &&
      (parseInt(Prop(body, "order")).Some? ==> d.order == parseInt(Prop(body, "order")).value) &&
      (Prop(body, "visible").None? ==> d.visible) &&
      (Prop(body, "visible").Some? ==> d.visible == Truthy(Prop(body, "visible").value))
  {
  }

  /** A duplicate slug is reported as 409; every other failure as 500 with the
      fixed message. */
  lemma ConflictIs409(e: Thrown)
    ensures Failure(e).status == 409 <==> HasCode(e, "P2002")
    ensures !HasCode(e, "P2002") ==>
      Failure(e).status == 500 && Failure(e).body.error == CreateFailed && Failure(e).body.details == Some(e.message)
  {
  }
}
