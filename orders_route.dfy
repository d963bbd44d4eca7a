/** `POST /api/orders`: the public endpoint the checkout posts an order to. */
module OrdersRoute {
  import opened Json
  import opened Web
  import opened FormSchemas
  import Cart
  import Checkout

  /** What the handler awaits: the body, then the insert, which yields the id. */
  datatype Effects = Effects(body: Outcome<Json>, created: Outcome<string>)

  datatype OrderLine = OrderLine(productId: string, name: string, quantity: int, price: int)

  /** The record handed to `order.create`. */
  datatype OrderRecord = OrderRecord(
    customerName: string, email: string, whatsapp: Option<string>, orderType: string,
    items: seq<OrderLine>, total: int, address: Option<string>, notes: Option<string>, status: string)

  datatype Reply = ErrorReply(error: string) | Created(id: string, record: OrderRecord)

  const InvalidData := "Invalid data"
  const CreateFailed := "Failed to create order"

  /** One entry of `items`. */
  predicate LineValid(v: Json)
  {
    v.JObj? && IsText(Prop(v, "productId")) && IsText(Prop(v, "name")) &&
    Positive(Prop(v, "quantity")) && Positive(Prop(v, "price"))
  }

  /** `orderSchema`. */
  predicate Valid(body: Json, isEmail: string -> bool)
  {
    body.JObj? &&
    NonEmptyText(Prop(body, "customerName")) &&
    Email(Prop(body, "email"), isEmail) &&
    OptionalText(Prop(body, "whatsapp")) &&
    (Prop(body, "type") == Some(JStr("RETAIL")) || Prop(body, "type") == Some(JStr("WHOLESALE"))) &&
    Prop(body, "items").Some? && Prop(body, "items").value.JArr? &&
    (forall x :: x in Prop(body, "items").value.elems ==> LineValid(x)) &&
    Positive(Prop(body, "total")) &&
    OptionalText(Prop(body, "address")) &&
    OptionalText(Prop(body, "notes"))
  }

  function LineOf(v: Json): OrderLine
    requires LineValid(v)
  {
    OrderLine(Prop(v, "productId").value.s, Prop(v, "name").value.s,
              Prop(v, "quantity").value.n, Prop(v, "price").value.n)
  }

  function Lines(elems: seq<Json>): (r: seq<OrderLine>)
    requires forall x :: x in elems ==> LineValid(x)
    ensures |r| == |elems|
  {
    seq(|elems|, i requires 0 <= i < |elems| => LineOf(elems[i]))
  }

  /** The parsed body, with status NEW added. */
  function Record(body: Json, isEmail: string -> bool): OrderRecord
    requires Valid(body, isEmail)
  {
    OrderRecord(
      Prop(body, "customerName").value.s,
      Prop(body, "email").value.s,
      TextOf(Prop(body, "whatsapp")),
      Prop(body, "type").value.s,
      Lines(Prop(body, "items").value.elems),
      Prop(body, "total").value.n,
      TextOf(Prop(body, "address")),
      TextOf(Prop(body, "notes")),
      "NEW")
  }

  function Post(e: Effects, isEmail: string -> bool): Response<Reply>
  {
    if e.body.Threw? then Response(500, ErrorReply(CreateFailed))
    else if !Valid(e.body.value, isEmail) then Response(400, ErrorReply(InvalidData))
    else if e.created.Threw? then Response(500, ErrorReply(CreateFailed))
    else Response(201, Created(e.created.value, Record(e.body.value, isEmail)))
  }

  // ---------------------------------------------------------------- properties

  /** A schema failure is 400 whatever the store would do; any other failure is 500. */
  lemma StatusRules(e: Effects, isEmail: string -> bool, created: Outcome<string>)
    ensures Post(e, isEmail).status == 400 <==> e.body.Done? && !Valid(e.body.value, isEmail)
    ensures Post(e, isEmail).status == 500 <==> e.body.Threw? || (Valid(e.body.value, isEmail) && e.created.Threw?)
    ensures Post(e, isEmail).status == 201 <==> e.body.Done? && Valid(e.body.value, isEmail) && e.created.Done?
    ensures e.body.Done? && !Valid(e.body.value, isEmail) ==> Post(e.(created := created), isEmail) == Post(e, isEmail)
  {
  }

  /** A stored order has a customer name and a valid email, a known type, positive
      line quantities and prices and a positive total, the submitted total, and
      status NEW. */
  lemma StoredOrder(e: Effects, isEmail: string -> bool)
    requires Post(e, isEmail).status == 201
    ensures var r := Post(e, isEmail).body.record;
      r.customerName != "" && isEmail(r.email) &&
      (r.orderType == "RETAIL" || r.orderType == "WHOLESALE") &&
      (forall i :: 0 <= i < |r.items| ==> r.items[i].quantity > 0 && r.items[i].price > 0) &&
      r.total > 0 && Prop(e.body.value, "total") == Some(JNum(r.total)) &&
      r.status == "NEW" && Post(e, isEmail).body.id == e.created.value
  {
    var items := Prop(e.body.value, "items").value.elems;
    assert forall i :: 0 <= i < |items| ==> items[i] in items;
  }

  /** An order without a positive total is refused, so a zero-total order never
      reaches the store. */
  lemma ZeroTotalRejected(e: Effects, isEmail: string -> bool)
    requires e.body.Done? && Prop(e.body.value, "total") == Some(JNum(0))
    ensures Post(e, isEmail).status == 400
  {
  }

  // ---------------------------------------------------------------- the checkout's body

  /** `JSON.stringify` of the page's body: the form fields, then type, items and total. */
  function EncodeLine(o: Checkout.OrderItem): Json
  {
    JObj(map["productId" := JStr(o.productId), "name" := JStr(o.name),
             "quantity" := JNum(o.quantity), "price" := JNum(o.price)])
  }

  function EncodeLines(items: seq<Checkout.OrderItem>): (r: seq<Json>)
    ensures |r| == |items|
  {
    seq(|items|, i requires 0 <= i < |items| => EncodeLine(items[i]))
  }

  function EncodeBody(b: Checkout.OrderBody): Json
  {
    JObj(map[
      "customerName" := JStr(b.form.customerName), "email" := JStr(b.form.email),
      "whatsapp" := JStr(b.form.whatsapp), "address" := JStr(b.form.address),
      "notes" := JStr(b.form.notes), "type" := JStr(b.orderType),
      "items" := JArr(EncodeLines(b.items)),
      "total" := JNum(b.total)])
  }

  /** A cart of lines with positive prices has a positive total as soon as it has a line. */
  lemma {:induction false} PositiveTotal(items: seq<Cart.CartItem>)
    requires forall i :: 0 <= i < |items| ==> items[i].quantity >= 1 && items[i].price > 0
    ensures items != [] ==> Cart.Total(items) > 0
    ensures items == [] ==> Cart.Total(items) == 0
  {
    if items != [] {
      PositiveTotal(items[1..]);
      assert items[0].price * items[0].quantity >= items[0].price;
    }
  }

  lemma EncodedFields(b: Checkout.OrderBody)
    ensures var body := EncodeBody(b);
      body.JObj? &&
      Prop(body, "customerName") == Some(JStr(b.form.customerName)) &&
      Prop(body, "email") == Some(JStr(b.form.email)) &&
      OptionalText(Prop(body, "whatsapp")) && OptionalText(Prop(body, "address")) &&
      OptionalText(Prop(body, "notes")) &&
      Prop(body, "type") == Some(JStr(b.orderType)) &&
      Prop(body, "items") == Some(JArr(EncodeLines(b.items))) &&
      Prop(body, "total") == Some(JNum(b.total))
  {
  }

  lemma EncodedLines(items: seq<Checkout.OrderItem>)
    ensures var elems := EncodeLines(items);
      (forall x :: x in elems ==> LineValid(x)) <==>
      (forall i :: 0 <= i < |items| ==> items[i].quantity > 0 && items[i].price > 0)
  {
    var elems := EncodeLines(items);
    forall i | 0 <= i < |items|
      ensures LineValid(elems[i]) <==> items[i].quantity > 0 && items[i].price > 0
    {
      assert elems[i] == EncodeLine(items[i]);
    }
    assert (forall x :: x in elems ==> LineValid(x)) <==> (forall i :: 0 <= i < |elems| ==> LineValid(elems[i]));
  }

  /** The schema's verdict on an encoded body, field by field. */
  lemma ValidEncoded(b: Checkout.OrderBody, isEmail: string -> bool)
    ensures Valid(EncodeBody(b), isEmail) <==>
      b.form.customerName != "" && isEmail(b.form.email) &&
      (b.orderType == "RETAIL" || b.orderType == "WHOLESALE") &&
      (forall i :: 0 <= i < |b.items| ==> b.items[i].quantity > 0 && b.items[i].price > 0) &&
      b.total > 0
  {
    EncodedFields(b);
    EncodedLines(b.items);
  }

  /** The order the checkout posts for a valid cart is accepted exactly when a name
      is filled in, the email is valid, every price is positive and the cart is not
      empty; an empty cart's order is refused for its zero total. */
  lemma CheckoutOrderAccepted(form: Checkout.CheckoutForm, cart: Cart.CartState, isEmail: string -> bool)
    requires Cart.Valid(cart)
    ensures var body := EncodeBody(Checkout.PostedBody(form, cart.items));
      Valid(body, isEmail) <==>
        form.customerName != "" && isEmail(form.email) && cart.items != [] &&
        forall i :: 0 <= i < |cart.items| ==> cart.items[i].price > 0
  {
    var items := cart.items;
    var posted := Checkout.PostedBody(form, items);
    ValidEncoded(posted, isEmail);
    Checkout.OrderItemsMatchCart(items);
    if forall i :: 0 <= i < |items| ==> items[i].price > 0 {
      PositiveTotal(items);
    }
  }
}
