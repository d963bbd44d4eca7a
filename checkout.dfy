/** The retail checkout page: it posts the cart as an order, and on success
    shows the confirmation with a prepared WhatsApp message. */
module Checkout {
  import opened Json
  import opened Web
  import opened Cart
  import opened Text

  datatype CheckoutForm = CheckoutForm(customerName: string, email: string, whatsapp: string, address: string, notes: string)

  const EmptyForm := CheckoutForm("", "", "", "", "")

  /** One entry of the posted `items`. */
  datatype OrderItem = OrderItem(productId: string, name: string, quantity: int, price: int)

  /** The JSON body posted to `/api/orders`: the form spread, then type, items and total. */
  datatype OrderBody = OrderBody(form: CheckoutForm, orderType: string, items: seq<OrderItem>, total: int)

  /** The `fetch` result: `response.ok`, and what `response.json()` then yields. */
  datatype FetchReply = FetchReply(ok: bool, json: Outcome<Json>)

  const FailureAlert := "Error al crear el pedido. Por favor, intenta nuevamente."

  function ToOrderItem(item: CartItem): OrderItem
  {
    OrderItem(item.id, item.name, item.quantity, item.price)
  }

  /** `items.map(...)`. */
  function OrderItems(items: seq<CartItem>): (r: seq<OrderItem>)
    ensures |r| == |items|
  {
    seq(|items|, i requires 0 <= i < |items| => ToOrderItem(items[i]))
  }

  function PostedBody(form: CheckoutForm, items: seq<CartItem>): OrderBody
  {
    OrderBody(form, "RETAIL", OrderItems(items), Total(items))
  }

  /** The posted items are the cart lines one for one, in cart order. */
  lemma OrderItemsMatchCart(items: seq<CartItem>)
    ensures forall i :: 0 <= i < |items| ==>
      var o := OrderItems(items)[i];
      o.productId == items[i].id && o.name == items[i].name &&
      o.quantity == items[i].quantity && o.price == items[i].price
  {
  }

  /** The submitted order is a RETAIL order for the cart's total, which is the sum
      over the posted items of price times quantity. */
  lemma {:induction false} PostedTotal(form: CheckoutForm, items: seq<CartItem>)
    ensures PostedBody(form, items).orderType == "RETAIL"
    ensures PostedBody(form, items).total == ItemsTotal(OrderItems(items))
  {
    if items != [] {
      PostedTotal(form, items[1..]);
      assert OrderItems(items)[1..] == OrderItems(items[1..]);
    }
  }

  function ItemsTotal(items: seq<OrderItem>): int
  {
    if items == [] then 0 else items[0].price * items[0].quantity + ItemsTotal(items[1..])
  }

  /** `order.id` as the page stores it; an id that is not a string is not modelled. */
  function OrderIdOf(order: Json): Option<string>
  {
    var id := Field(Some(order), "id");
    if id.Some? && id.value.JStr? then Some(id.value.s) else None
  }

  /** The `try` block runs to `clearCart()`: the reply is ok, its body parses, and
      `order.id` can be read, which fails on a `null` body. */
  predicate Succeeds(response: Outcome<FetchReply>)
  {
    response.Done? && response.value.ok && response.value.json.Done? && !response.value.json.value.JNull?
  }

  /** The page's state, with the cart that the cart context holds for it. */
  class CheckoutPage {
    var cart: CartState
    var form: CheckoutForm
    var isSubmitting: bool
    var orderId: Option<string>
    var alerts: seq<string>

    constructor (cart0: CartState)
      ensures cart == cart0 && form == EmptyForm && !isSubmitting && orderId.None? && alerts == []
    {
      cart := cart0;
      form := EmptyForm;
      isSubmitting := false;
      orderId := None;
      alerts := [];
    }

    /** `handleSubmit`: post the order, then on an ok response store the id and
        clear the cart; any failure (a thrown `fetch`, a reply that is not ok, a body
        that does not parse or is `null`) raises the alert and leaves the cart alone. */
    method HandleSubmit(response: Outcome<FetchReply>) returns (posted: OrderBody)
      modifies this
      ensures posted == PostedBody(old(form), old(cart.items))
      ensures form == old(form) && !isSubmitting
      ensures Succeeds(response) ==>
        cart == Reduce(old(cart), ClearCart) && orderId == OrderIdOf(response.value.json.value) &&
        alerts == old(alerts)
      ensures !Succeeds(response) ==>
        cart == old(cart) && orderId == old(orderId) && alerts == old(alerts) + [FailureAlert]
    {
      isSubmitting := true;
      var orderItems := OrderItems(cart.items);
      posted := OrderBody(form, "RETAIL", orderItems, Total(cart.items));
      if response.Threw? {
        alerts := alerts + [FailureAlert];
      } else if response.value.ok {
        if response.value.json.Threw? || response.value.json.value.JNull? {
          alerts := alerts + [FailureAlert];
        } else {
          orderId := OrderIdOf(response.value.json.value);
          cart := Reduce(cart, ClearCart);
        }
      } else {
        alerts := alerts + [FailureAlert];
      }
      isSubmitting := false;
    }

    /** The confirmation is shown when `orderId` is a non-empty string. */
    function Confirmation(toLocale: int -> string): (r: Option<string>)
      reads this
      ensures r.Some? <==> orderId.Some? && orderId.value != ""
    {
      if orderId.Some? && orderId.value != "" then
        Some(WhatsAppMessage(orderId.value, cart.items, Total(cart.items), form, toLocale))
      else None
    }
  }

  // ---------------------------------------------------------------- the message

  function Join(lines: seq<string>): string
  {
    if lines == [] then "" else if |lines| == 1 then lines[0] else lines[0] + "\n" + Join(lines[1..])
  }

  function ProductLine(name: string, quantity: int, price: int, toLocale: int -> string): string
  {
    "- " + name + " x" + IntString(quantity) + " - $" + toLocale(price * quantity)
  }

  /** The product lines of the message, one per line of the order or of the cart
      (a cart's lines are taken through `OrderItems`, which copies the same fields). */
  function ProductLines(items: seq<OrderItem>, toLocale: int -> string): (r: seq<string>)
    ensures |r| == |items|
  {
    seq(|items|, i requires 0 <= i < |items| => ProductLine(items[i].name, items[i].quantity, items[i].price, toLocale))
  }

  /** `${v ? `\nLabel: ${v}` : ''}`. */
  function OptionalLine(caption: string, v: string): (r: string)
    ensures r == "" <==> v == ""
  {
    if v == "" then "" else "\n" + caption + ": " + v
  }

  function MessageFrom(orderId: string, productLines: seq<string>, total: int, form: CheckoutForm,
                       toLocale: int -> string): string
  {
    "Hola! Realicé un pedido en Mi Importadora.\n\nPedido #" + orderId +
    "\n\nProductos:\n" + Join(productLines) +
    "\n\nTotal: $" + toLocale(total) +
    "\n\nNombre: " + form.customerName + "\nEmail: " + form.email +
    OptionalLine("WhatsApp", form.whatsapp) + OptionalLine("Dirección", form.address) +
    OptionalLine("Notas", form.notes)
  }

  /** The message as written: built from the cart as it is at the render, which
      comes after `clearCart`. */
  function WhatsAppMessage(orderId: string, items: seq<CartItem>, total: int, form: CheckoutForm,
                           toLocale: int -> string): string
  {
    MessageFrom(orderId, ProductLines(OrderItems(items), toLocale), total, form, toLocale)
  }

  /** The message as evidently intended: built from the order that was posted. */
  function IntendedMessage(orderId: string, posted: OrderBody, toLocale: int -> string): string
  {
    MessageFrom(orderId, ProductLines(posted.items, toLocale), posted.total, posted.form, toLocale)
  }

  function WhatsAppLink(message: string, encode: string -> string): string
  {
    "https://wa.me/5491112345678?text=" + encode(message)
  }

  /** The WhatsApp, address and notes lines appear exactly when the field is filled in. */
  lemma OptionalLines(caption: string, v: string)
    ensures OptionalLine(caption, v) == "" <==> v == ""
    ensures v != "" ==> OptionalLine(caption, v) == "\n" + caption + ": " + v
  {
  }

  /** Once an order id is set the cart is empty (HandleSubmit's success case clears
      it), so the confirmation message the page shows lists no products and a zero
      total, whatever the order held. */
  lemma MessageAfterClear(page: CheckoutPage, toLocale: int -> string)
    requires page.orderId.Some? && page.orderId.value != ""
    requires page.cart.items == []
    ensures page.Confirmation(toLocale) ==
      Some(MessageFrom(page.orderId.value, [], 0, page.form, toLocale))
  {
  }

  /** The intended message lists the posted lines, which are the cart's lines
      before it was cleared, and the posted total. */
  lemma IntendedMessageListsOrder(orderId: string, form: CheckoutForm, items: seq<CartItem>, toLocale: int -> string)
    ensures IntendedMessage(orderId, PostedBody(form, items), toLocale) ==
      WhatsAppMessage(orderId, items, Total(items), form, toLocale)
  {
  }

  /** The two messages differ for every non-empty cart: the one as written has lost
      the products. */
  lemma {:induction false} LinesLost(items: seq<CartItem>, toLocale: int -> string)
    requires items != []
    ensures var cleared := Reduce(CartState(items), ClearCart).items;
      Join(ProductLines(OrderItems(items), toLocale)) != Join(ProductLines(OrderItems(cleared), toLocale))
  {
    var lines := ProductLines(OrderItems(items), toLocale);
    assert lines[0][0] == '-';
    if |lines| > 1 {
      assert Join(lines)[0] == lines[0][0];
    }
  }
}
