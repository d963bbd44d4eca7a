/** `POST /api/admin/sections`: the admin editor creates a section on a page. */
module AdminSectionsRoute {
  import opened Json
  import opened Web

  /** What the handler awaits, in order: the session, the body, the page
      lookup, the existing orders of the page's sections (what the `_max`
      aggregate reads) and the insert, which yields the new record's id. */
  datatype Effects = Effects(
    session: Outcome<Option<Session>>,
    body: Outcome<Json>,
    page: Outcome<bool>,
    orders: Outcome<seq<int>>,
    created: Outcome<string>)

  /** The record handed to `section.create`; `order` is `None` when `parseInt` gave `NaN`. */
  datatype SectionData = SectionData(pageId: Json, sectionType: Json, content: Json, order: Option<int>, visible: bool)

  datatype Reply =
    | ErrorReply(error: string, details: Option<string>, code: Option<string>)
    | Created(id: string, data: SectionData)

  const Unauthorized := "Unauthorized"
  const Required := "pageId y type son requeridos"
  const NoPage := "La página no existe"
  const NoPageOnInsert := "La página especificada no existe"
  const CreateFailed := "Error al crear la sección"

  /** `_max.order` over the page's sections; `None` when it has none. */
  function MaxOrder(orders: seq<int>): (r: Option<int>)
    ensures r.None? <==> orders == []
    ensures r.Some? ==> r.value in orders && forall o :: o in orders ==> o <= r.value
  {
    if orders == [] then None
    else
      var rest := MaxOrder(orders[1..]);
      assert forall o :: o in orders ==> o == orders[0] || o in orders[1..];
      if rest.Some? && rest.value > orders[0] then rest else Some(orders[0])
  }

  /** `(maxOrder._max.order ?? -1) + 1`. */
  function DefaultOrder(orders: seq<int>): int
  {
    var m := MaxOrder(orders);
    (if m.Some? then m.value else -1) + 1
  }

  /** The destructuring read `const { k } = body`. */
  function Prop(body: Json, k: string): Option<Json>
  {
    Field(Some(body), k)
  }

  function Data(body: Json, orders: seq<int>, parseInt: Json -> Option<int>): SectionData
    requires Prop(body, "pageId").Some? && Prop(body, "type").Some?
  {
    var content := Prop(body, "content");
    var order := Prop(body, "order");
    var visible := Prop(body, "visible");
    SectionData(
      Prop(body, "pageId").value,
      Prop(body, "type").value,
      if Present(content) then content.value else JObj(map[]),
      if order.Some? then parseInt(order.value) else Some(DefaultOrder(orders)),
      if visible.Some? then ToBoolean(visible) else true)
  }

  /** The `catch` block's message choice. */
  function ErrorMessage(e: Thrown): string
  {
    if HasCode(e, "P2003") then NoPageOnInsert
    else if e.message != "" then e.message
    else CreateFailed
  }

  function Failure(e: Thrown): Response<Reply>
  {
    Response(500, ErrorReply(ErrorMessage(e), Some(e.message), e.code))
  }

  function DestructureNull(): Thrown
  {
    Thrown(None, "Cannot destructure property 'pageId' of 'body' as it is null.")
  }

  function Post(e: Effects, parseInt: Json -> Option<int>): Response<Reply>
  {
    if e.session.Threw? then Failure(e.session.error)
    else if !IsStaff(e.session.value) then Response(401, ErrorReply(Unauthorized, None, None))
    else if e.body.Threw? then Failure(e.body.error)
    else if e.body.value.JNull? then Failure(DestructureNull())
    else
      var body := e.body.value;
      if !Present(Prop(body, "pageId")) || !Present(Prop(body, "type")) then
        Response(400, ErrorReply(Required, None, None))
      else if e.page.Threw? then Failure(e.page.error)
      else if !e.page.value then Response(404, ErrorReply(NoPage, None, None))
      else if e.orders.Threw? then Failure(e.orders.error)
      else if e.created.Threw? then Failure(e.created.error)
      else Response(201, Created(e.created.value, Data(body, e.orders.value, parseInt)))
  }

  // ---------------------------------------------------------------- properties

  /** The default order is past every existing order of the page, and 0 on a page
      without sections. */
  lemma DefaultOrderIsNext(orders: seq<int>)
    ensures orders == [] ==> DefaultOrder(orders) == 0
    ensures forall o :: o in orders ==> o < DefaultOrder(orders)
    ensures orders != [] ==> DefaultOrder(orders) - 1 in orders
  {
  }

  /** Without an ADMIN or EDITOR session the reply is 401, whatever was sent. */
  lemma NoStaffIs401(e: Effects, parseInt: Json -> Option<int>)
    requires e.session.Done? && !IsStaff(e.session.value)
    ensures Post(e, parseInt).status == 401
  {
  }

  /** A missing `pageId` or `type` is answered with 400 before the page is looked up:
      the reply does not depend on the later effects. */
  lemma MissingFieldsIs400(e: Effects, parseInt: Json -> Option<int>,
                           page: Outcome<bool>, orders: Outcome<seq<int>>, created: Outcome<string>)
    requires e.session.Done? && IsStaff(e.session.value) && e.body.Done? && !e.body.value.JNull?
    requires !Present(Prop(e.body.value, "pageId")) || !Present(Prop(e.body.value, "type"))
    ensures Post(e, parseInt) == Response(400, ErrorReply(Required, None, None))
    ensures Post(e.(page := page, orders := orders, created := created), parseInt) == Post(e, parseInt)
  {
  }

  /** A section is created exactly when every check passes and every effect succeeds,
      and then the record carries the defaults. */
  lemma CreatedIff(e: Effects, parseInt: Json -> Option<int>)
    ensures Post(e, parseInt).status == 201 <==>
      e.session.Done? && IsStaff(e.session.value) && e.body.Done? && !e.body.value.JNull? &&
      Present(Prop(e.body.value, "pageId")) && Present(Prop(e.body.value, "type")) &&
      e.page == Done(true) && e.orders.Done? && e.created.Done?
    ensures Post(e, parseInt).status == 201 ==>
      var body := e.body.value;
      var d := Post(e, parseInt).body.data;
      Post(e, parseInt).body.id == e.created.value &&
      d.pageId == Prop(body, "pageId").value && d.sectionType == Prop(body, "type").value &&
      (Prop(body, "order").None? ==> d.order == Some(DefaultOrder(e.orders.value))) &&
      (!Present(Prop(body, "content")) ==> d.content == JObj(map[])) &&
      (Present(Prop(body, "content")) ==> d.content == Prop(body, "content").value) &&
      (Prop(body, "visible").None? ==> d.visible)
  {
  }

  /** An unknown page is 404. */
  lemma UnknownPageIs404(e: Effects, parseInt: Json -> Option<int>)
    requires e.session.Done? && IsStaff(e.session.value) && e.body.Done? && !e.body.value.JNull?
    requires Present(Prop(e.body.value, "pageId")) && Present(Prop(e.body.value, "type"))
    requires e.page == Done(false)
    ensures Post(e, parseInt) == Response(404, ErrorReply(NoPage, None, None))
  {
  }

  /** A foreign-key failure on insert (P2003) is reported as a missing page; other
      failures carry their own message, or the default one. */
  lemma InsertFailureMessage(e: Thrown)
    ensures Failure(e).status == 500
    ensures HasCode(e, "P2003") ==> Failure(e).body.error == NoPageOnInsert
    ensures !HasCode(e, "P2003") && e.message != "" ==> Failure(e).body.error == e.message
    ensures !HasCode(e, "P2003") && e.message == "" ==> Failure(e).body.error == CreateFailed
    ensures Failure(e).body.details == Some(e.message) && Failure(e).body.code == e.code
  {
  }
}
