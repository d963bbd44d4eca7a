/** The shopping cart of the retail catalogue: a reducer over a list of line
    items and the two folds shown in the cart badge and totals. */
module Cart {
  import opened Json
  import Sequences

  /** One line of the cart. Prices are whole currency units. */
  datatype CartItem = CartItem(id: string, name: string, price: int, quantity: int, image: Option<string>)

  /** What `addToCart` dispatches: the product's fields without a quantity. */
  datatype AddPayload = AddPayload(id: string, name: string, price: int, image: Option<string>)

  datatype CartState = CartState(items: seq<CartItem>)

  datatype CartAction =
    | AddItem(payload: AddPayload)
    | RemoveItem(id: string)
    | UpdateQuantity(targetId: string, quantity: int)
    | ClearCart
    | LoadCart(loaded: seq<CartItem>)

  /** A catalogue product as `addToCart` receives it; `images` is `None` when it is not an array. */
  datatype Product = Product(id: string, name: string, priceRetail: int, images: Option<seq<string>>)

  /** Some line carries `id` (`items.find(item => item.id === id)`). */
  predicate HasId(items: seq<CartItem>, id: string)
  {
    exists i :: 0 <= i < |items| && items[i].id == id
  }

  /** The invariant the reducer keeps: ids pairwise distinct, every quantity at least 1. */
  predicate Valid(s: CartState)
  {
    (forall i, j :: 0 <= i < j < |s.items| ==> s.items[i].id != s.items[j].id) &&
    (forall i :: 0 <= i < |s.items| ==> s.items[i].quantity >= 1)
  }

  function Increment(items: seq<CartItem>, id: string): (r: seq<CartItem>)
  {
    seq(|items|, i requires 0 <= i < |items| =>
      if items[i].id == id then items[i].(quantity := items[i].quantity + 1) else items[i])
  }

  function SetQuantity(items: seq<CartItem>, id: string, q: int): (r: seq<CartItem>)
  {
    seq(|items|, i requires 0 <= i < |items| =>
      if items[i].id == id then items[i].(quantity := q) else items[i])
  }

  function Without(items: seq<CartItem>, id: string): seq<CartItem>
  {
    Sequences.Filter(items, (item: CartItem) => item.id != id)
  }

  function NewLine(p: AddPayload): CartItem
  {
    CartItem(p.id, p.name, p.price, 1, p.image)
  }

  /** `cartReducer`. */
  function Reduce(s: CartState, action: CartAction): CartState
  {
    match action
    case AddItem(p) =>
      if HasId(s.items, p.id) then CartState(Increment(s.items, p.id))
      else CartState(s.items + [NewLine(p)])
    case RemoveItem(id) => CartState(Without(s.items, id))
    case UpdateQuantity(id, q) =>
      if q <= 0 then CartState(Without(s.items, id))
      else CartState(SetQuantity(s.items, id, q))
    case ClearCart => CartState([])
    case LoadCart(loaded) => CartState(loaded)
  }

  /** `addToCart`: the payload it dispatches for a product. */
  function PayloadOf(product: Product): (p: AddPayload)
    ensures p.id == product.id && p.name == product.name && p.price == product.priceRetail
    ensures p.image.Some? <==> product.images.Some? && |product.images.value| > 0
    ensures p.image.Some? ==> p.image.value == product.images.value[0]
  {
    var image := if product.images.Some? && |product.images.value| > 0
                 then Some(product.images.value[0]) else None;
    AddPayload(product.id, product.name, product.priceRetail, image)
  }

  /** `total`: the sum of price times quantity over the lines. */
  function Total(items: seq<CartItem>): int
  {
    if items == [] then 0 else items[0].price * items[0].quantity + Total(items[1..])
  }

  /** `itemCount`: the sum of the quantities. */
  function ItemCount(items: seq<CartItem>): int
  {
    if items == [] then 0 else items[0].quantity + ItemCount(items[1..])
  }

  lemma {:induction false} TotalConcat(a: seq<CartItem>, b: seq<CartItem>)
    ensures Total(a + b) == Total(a) + Total(b)
    ensures ItemCount(a + b) == ItemCount(a) + ItemCount(b)
  {
    if a == [] {
      assert a + b == b;
    } else {
      assert (a + b)[1..] == a[1..] + b;
      TotalConcat(a[1..], b);
    }
  }

  /** Splitting a list around line `k` splits both folds. */
  lemma TotalAround(items: seq<CartItem>, k: int)
    requires 0 <= k < |items|
    ensures Total(items) == Total(items[..k]) + items[k].price * items[k].quantity + Total(items[k + 1..])
    ensures ItemCount(items) == ItemCount(items[..k]) + items[k].quantity + ItemCount(items[k + 1..])
  {
    assert items == items[..k] + ([items[k]] + items[k + 1..]);
    TotalConcat(items[..k], [items[k]] + items[k + 1..]);
    TotalConcat([items[k]], items[k + 1..]);
    assert [items[k]][1..] == [];
  }

  /** The line at index `k` carries `id`, and it is the only one to. */
  predicate OnlyAt(items: seq<CartItem>, id: string, k: int)
  {
    0 <= k < |items| && items[k].id == id &&
    forall i :: 0 <= i < |items| && i != k ==> items[i].id != id
  }

  lemma ValidUnique(s: CartState, k: int)
    requires Valid(s) && 0 <= k < |s.items|
    ensures OnlyAt(s.items, s.items[k].id, k)
  {
    forall i | 0 <= i < |s.items| && i != k ensures s.items[i].id != s.items[k].id {
      if i < k { } else { }
    }
  }

  /** ADD_ITEM for an id already in the cart adds one to that line only. */
  lemma AddExisting(s: CartState, p: AddPayload, k: int)
    requires Valid(s) && 0 <= k < |s.items| && s.items[k].id == p.id
    ensures var r := Reduce(s, AddItem(p)).items;
      r == s.items[k := s.items[k].(quantity := s.items[k].quantity + 1)]
  {
    ValidUnique(s, k);
    assert HasId(s.items, p.id);
  }

  /** ADD_ITEM for a new id appends one line with quantity 1. */
  lemma AddNew(s: CartState, p: AddPayload)
    requires !HasId(s.items, p.id)
    ensures Reduce(s, AddItem(p)).items == s.items + [CartItem(p.id, p.name, p.price, 1, p.image)]
  {
  }

  /** ADD_ITEM for a product already at line `k` adds one unit at that line's price. */
  lemma AddExistingTotals(s: CartState, p: AddPayload, k: int)
    requires Valid(s) && 0 <= k < |s.items| && s.items[k].id == p.id
    ensures var r := Reduce(s, AddItem(p)).items;
      ItemCount(r) == ItemCount(s.items) + 1 && Total(r) == Total(s.items) + s.items[k].price
  {
    var r := Reduce(s, AddItem(p)).items;
    AddExisting(s, p, k);
    TotalAround(s.items, k);
    TotalAround(r, k);
    assert r[..k] == s.items[..k] && r[k + 1..] == s.items[k + 1..];
    var x := s.items[k];
    assert r[k] == x.(quantity := x.quantity + 1);
    MulSucc(x.price, x.quantity);
  }

  lemma MulSucc(a: int, b: int)
    ensures a * (b + 1) == a * b + a
  {
  }

  /** Adding a product always adds exactly one unit; the total grows by the
      price of the line that now holds it. */
  lemma AddTotals(s: CartState, p: AddPayload)
    requires Valid(s)
    ensures var r := Reduce(s, AddItem(p)).items;
      ItemCount(r) == ItemCount(s.items) + 1 &&
      (!HasId(s.items, p.id) ==> Total(r) == Total(s.items) + p.price) &&
      (forall k :: 0 <= k < |s.items| && s.items[k].id == p.id ==> Total(r) == Total(s.items) + s.items[k].price)
  {
    if HasId(s.items, p.id) {
      var k :| 0 <= k < |s.items| && s.items[k].id == p.id;
      AddExistingTotals(s, p, k);
      forall k' | 0 <= k' < |s.items| && s.items[k'].id == p.id
        ensures s.items[k'].price == s.items[k].price
      {
        ValidUnique(s, k);
      }
    } else {
      TotalConcat(s.items, [NewLine(p)]);
      assert Total([NewLine(p)]) == p.price by { assert [NewLine(p)][1..] == []; }
      assert ItemCount([NewLine(p)]) == 1 by { assert [NewLine(p)][1..] == []; }
    }
  }

  /** `addToCart(product)` on a valid cart: a product not yet in the cart becomes a
      new last line holding one unit at its retail price with its first image (if
      any); a product already in the cart adds one unit to its line. Either way one
      more unit is counted. */
  lemma AddProduct(s: CartState, product: Product)
    requires Valid(s)
    ensures var r := Reduce(s, AddItem(PayloadOf(product))).items;
      ItemCount(r) == ItemCount(s.items) + 1 &&
      (!HasId(s.items, product.id) ==>
        |r| == |s.items| + 1 && r[..|s.items|] == s.items &&
        r[|s.items|].id == product.id && r[|s.items|].name == product.name &&
        r[|s.items|].price == product.priceRetail && r[|s.items|].quantity == 1 &&
        (r[|s.items|].image.Some? <==> product.images.Some? && |product.images.value| > 0) &&
        (r[|s.items|].image.Some? ==> r[|s.items|].image.value == product.images.value[0]) &&
        Total(r) == Total(s.items) + product.priceRetail) &&
      (forall k :: 0 <= k < |s.items| && s.items[k].id == product.id ==>
        r == s.items[k := s.items[k].(quantity := s.items[k].quantity + 1)])
  {
    var p := PayloadOf(product);
    AddTotals(s, p);
    if !HasId(s.items, p.id) {
      AddNew(s, p);
      var r := Reduce(s, AddItem(p)).items;
      assert r[..|s.items|] == s.items;
    }
    forall k | 0 <= k < |s.items| && s.items[k].id == product.id
      ensures Reduce(s, AddItem(p)).items == s.items[k := s.items[k].(quantity := s.items[k].quantity + 1)]
    {
      AddExisting(s, p, k);
    }
  }

  /** Adding the same new product twice gives one line with quantity 2. */
  lemma AddTwice(s: CartState, p: AddPayload)
    requires !HasId(s.items, p.id)
    ensures Reduce(Reduce(s, AddItem(p)), AddItem(p)).items ==
      s.items + [CartItem(p.id, p.name, p.price, 2, p.image)]
  {
    var once := Reduce(s, AddItem(p));
    var k := |s.items|;
    assert once.items[k].id == p.id;
    assert HasId(once.items, p.id);
    var twice := Reduce(once, AddItem(p));
    assert |twice.items| == k + 1;
    forall i | 0 <= i < k + 1
      ensures twice.items[i] == (s.items + [CartItem(p.id, p.name, p.price, 2, p.image)])[i]
    {
      if i < k { assert s.items[i].id != p.id by { assert !HasId(s.items, p.id); } }
    }
  }

  lemma {:induction false} WithoutAll(items: seq<CartItem>, id: string)
    ensures forall x :: x in Without(items, id) <==> x in items && x.id != id
  {
    forall x ensures x in Without(items, id) <==> x in items && x.id != id {
      Sequences.FilterMembership(items, (item: CartItem) => item.id != id, x);
    }
  }

  lemma {:induction false} WithoutMissing(items: seq<CartItem>, id: string)
    requires !HasId(items, id)
    ensures Without(items, id) == items
  {
    if items != [] {
      assert !HasId(items[1..], id) by {
        forall i | 0 <= i < |items[1..]| ensures items[1..][i].id != id { assert items[1..][i] == items[i + 1]; }
      }
      WithoutMissing(items[1..], id);
      assert items[0].id != id;
      assert items == [items[0]] + items[1..];
    }
  }

  lemma WithoutConcat(a: seq<CartItem>, b: seq<CartItem>, id: string)
    ensures Without(a + b, id) == Without(a, id) + Without(b, id)
  {
    Sequences.FilterConcat(a, b, (item: CartItem) => item.id != id);
  }

  lemma NotInSlice(items: seq<CartItem>, id: string, lo: int, hi: int)
    requires 0 <= lo <= hi <= |items|
    requires forall i :: lo <= i < hi ==> items[i].id != id
    ensures !HasId(items[lo..hi], id)
  {
    forall i | 0 <= i < hi - lo ensures items[lo..hi][i].id != id {
      assert items[lo..hi][i] == items[lo + i];
    }
  }

  /** REMOVE_ITEM: no line with the id remains, every other line stays, and a
      missing id leaves the cart as it was. */
  lemma RemoveSpec(s: CartState, id: string)
    ensures var r := Reduce(s, RemoveItem(id)).items;
      (forall x :: x in r <==> x in s.items && x.id != id) &&
      (!HasId(s.items, id) ==> r == s.items)
  {
    WithoutAll(s.items, id);
    if !HasId(s.items, id) { WithoutMissing(s.items, id); }
  }

  /** Filtering out an id that only the middle line carries leaves the lines around it. */
  lemma WithoutMiddle(pre: seq<CartItem>, x: CartItem, post: seq<CartItem>)
    requires !HasId(pre, x.id) && !HasId(post, x.id)
    ensures Without(pre + [x] + post, x.id) == pre + post
  {
    var id := x.id;
    assert pre + [x] + post == pre + ([x] + post);
    WithoutConcat(pre, [x] + post, id);
    WithoutConcat([x], post, id);
    WithoutMissing(pre, id);
    WithoutMissing(post, id);
    assert Without([x], id) == [] by { assert [x][1..] == []; }
  }

  /** REMOVE_ITEM on a valid cart holding the id at `k` drops exactly that line
      and keeps the others in their order. */
  lemma RemoveAt(s: CartState, k: int)
    requires Valid(s) && 0 <= k < |s.items|
    ensures Reduce(s, RemoveItem(s.items[k].id)).items == s.items[..k] + s.items[k + 1..]
  {
    var items := s.items;
    var id := items[k].id;
    ValidUnique(s, k);
    NotInSlice(items, id, 0, k);
    NotInSlice(items, id, k + 1, |items|);
    assert items[0..k] == items[..k] && items[k + 1..|items|] == items[k + 1..];
    assert items == items[..k] + [items[k]] + items[k + 1..];
    WithoutMiddle(items[..k], items[k], items[k + 1..]);
  }

  /** Removing a line takes its price times quantity off the total. */
  lemma RemoveTotals(s: CartState, k: int)
    requires Valid(s) && 0 <= k < |s.items|
    ensures var r := Reduce(s, RemoveItem(s.items[k].id)).items;
      Total(r) == Total(s.items) - s.items[k].price * s.items[k].quantity &&
      ItemCount(r) == ItemCount(s.items) - s.items[k].quantity
  {
    RemoveAt(s, k);
    TotalAround(s.items, k);
    TotalConcat(s.items[..k], s.items[k + 1..]);
  }

  /** UPDATE_QUANTITY to zero or less is REMOVE_ITEM. */
  lemma UpdateNonPositive(s: CartState, id: string, q: int)
    requires q <= 0
    ensures Reduce(s, UpdateQuantity(id, q)) == Reduce(s, RemoveItem(id))
  {
  }

  /** UPDATE_QUANTITY to a positive amount sets only the matching line; a
      missing id leaves the cart as it was. */
  lemma UpdatePositive(s: CartState, id: string, q: int)
    requires q > 0
    ensures var r := Reduce(s, UpdateQuantity(id, q)).items;
      |r| == |s.items| &&
      (forall i :: 0 <= i < |r| ==>
        r[i] == if s.items[i].id == id then s.items[i].(quantity := q) else s.items[i]) &&
      (!HasId(s.items, id) ==> r == s.items)
  {
  }

  /** CLEAR_CART empties the cart and LOAD_CART replaces it wholesale. */
  lemma ClearAndLoad(s: CartState, loaded: seq<CartItem>)
    ensures Reduce(s, ClearCart).items == [] && Total(Reduce(s, ClearCart).items) == 0
    ensures Reduce(s, LoadCart(loaded)).items == loaded
  {
  }

  lemma {:induction false} WithoutKeepsValid(s: CartState, id: string)
    requires Valid(s)
    ensures Valid(CartState(Without(s.items, id)))
    decreases |s.items|
  {
    if s.items != [] {
      var rest := CartState(s.items[1..]);
      WithoutKeepsValid(rest, id);
      var f := Without(rest.items, id);
      WithoutAll(rest.items, id);
      assert Without(s.items, id) == (if s.items[0].id != id then [s.items[0]] else []) + f;
      forall x | x in f ensures x.id != s.items[0].id {
        var i :| 0 <= i < |rest.items| && rest.items[i] == x;
        assert s.items[i + 1] == x;
      }
    }
  }

  /** Every action but LOAD_CART keeps ids distinct and quantities positive. */
  lemma ReducePreservesValid(s: CartState, action: CartAction)
    requires Valid(s) && !action.LoadCart?
    ensures Valid(Reduce(s, action))
  {
    match action
    case AddItem(p) =>
    case RemoveItem(id) => WithoutKeepsValid(s, id);
    case UpdateQuantity(id, q) => if q <= 0 { WithoutKeepsValid(s, id); }
    case ClearCart =>
  }
}
