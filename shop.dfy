/**
 * The shop page: an in-memory cart of products with add, quantity change and removal under a stock
 * bound, the subtotal, shipping fee and total, and checkout, which writes one order and one order item
 * per cart line and then empties the cart.
 */
module Shop {
  import opened Wrappers
  import opened Cart
  import ProductDetails

  datatype ShippingMethod = ShippingMethod(id: string, name: string, price: int)

  /** What a cart action reports (the toast it shows, or none). */
  datatype CartOutcome = Added | Updated | Removed | NotEnoughStock | NotInCart

  // ---------------------------------------------------------------- cart updates as values

  /** `cart.map(item => item.id === id ? { ...item, quantity: item.quantity + 1 } : item)`. */
  function BumpQuantity(cart: seq<CartItem>, id: string): seq<CartItem> {
    seq(|cart|, j requires 0 <= j < |cart| =>
      if cart[j].id == id then cart[j].(quantity := cart[j].quantity + 1) else cart[j])
  }

  /** `cart.map(item => item.id === id ? { ...item, quantity: q } : item)`. */
  function SetQuantity(cart: seq<CartItem>, id: string, q: int): seq<CartItem> {
    seq(|cart|, j requires 0 <= j < |cart| => if cart[j].id == id then cart[j].(quantity := q) else cart[j])
  }

  /** `cart.filter(item => item.id !== id)`. */
  function Without(cart: seq<CartItem>, id: string): (r: seq<CartItem>)
    ensures |r| <= |cart|
  {
    if cart == [] then [] else (if cart[0].id != id then [cart[0]] else []) + Without(cart[1..], id)
  }

  /** With unique ids, the `map` of `addToCart` raises the quantity of exactly the line for `id`. */
  lemma BumpAtUnique(cart: seq<CartItem>, id: string, i: nat)
    requires UniqueIds(cart) && i < |cart| && cart[i].id == id
    ensures BumpQuantity(cart, id) == cart[i := cart[i].(quantity := cart[i].quantity + 1)]
  {
  }

  /** With unique ids, the `map` of `updateQuantity` sets the quantity of exactly the line for `id`. */
  lemma SetAtUnique(cart: seq<CartItem>, id: string, i: nat, q: int)
    requires UniqueIds(cart) && i < |cart| && cart[i].id == id
    ensures SetQuantity(cart, id, q) == cart[i := cart[i].(quantity := q)]
  {
  }

  /** The filter keeps exactly the lines for other products. */
  lemma {:induction false} WithoutMembers(cart: seq<CartItem>, id: string)
    ensures forall x :: x in Without(cart, id) <==> x in cart && x.id != id
    decreases |cart|
  {
    if cart != [] {
      WithoutMembers(cart[1..], id);
      assert cart == [cart[0]] + cart[1..];
    }
  }

  /** The filter keeps the order of what it keeps: it distributes over concatenation. */
  lemma {:induction false} WithoutAppend(a: seq<CartItem>, b: seq<CartItem>, id: string)
    ensures Without(a + b, id) == Without(a, id) + Without(b, id)
    decreases |a|
  {
    if a == [] {
      assert a + b == b;
    } else {
      assert (a + b)[1..] == a[1..] + b;
      WithoutAppend(a[1..], b, id);
    }
  }

  /** Removing a product that has no line leaves the cart as it is. */
  lemma {:induction false} WithoutNoMatch(cart: seq<CartItem>, id: string)
    requires forall j :: 0 <= j < |cart| ==> cart[j].id != id
    ensures Without(cart, id) == cart
    decreases |cart|
  {
    if cart != [] {
      WithoutNoMatch(cart[1..], id);
    }
  }

  /** With unique ids, removing a product drops exactly its line and keeps the others in order. */
  lemma {:induction false} WithoutUnique(cart: seq<CartItem>, id: string, i: nat)
    requires UniqueIds(cart) && i < |cart| && cart[i].id == id
    ensures Without(cart, id) == cart[..i] + cart[i + 1..]
    decreases i
  {
    var rest := cart[1..];
    if i == 0 {
      WithoutNoMatch(rest, id);
    } else {
      WithoutUnique(rest, id, i - 1);
      assert rest[..i - 1] + rest[i..] == cart[1..i] + cart[i + 1..];
      assert cart[..i] == [cart[0]] + cart[1..i];
    }
  }

  /** The filter keeps ids unique. */
  lemma WithoutKeepsUnique(cart: seq<CartItem>, id: string)
    requires UniqueIds(cart)
    ensures UniqueIds(Without(cart, id))
  {
    match Find(cart, id)
    case None =>
      WithoutNoMatch(cart, id);
    case Some(i) =>
      WithoutUnique(cart, id, i);
  }

  /** Every line's quantity is between 1 and the stock it was added with, where that stock was positive. */
  predicate WithinStock(cart: seq<CartItem>) {
    forall j :: 0 <= j < |cart| ==> (cart[j].stock >= 1 ==> cart[j].quantity <= cart[j].stock)
  }

  predicate PositiveQuantities(cart: seq<CartItem>) {
    forall j :: 0 <= j < |cart| ==> cart[j].quantity >= 1
  }

  // ---------------------------------------------------------------- shipping and totals

  /** `shippingMethods.find(m => m.id === id)` from position `i` on. */
  function FindMethodFrom(methods: seq<ShippingMethod>, id: string, i: nat): (r: Option<nat>)
    requires i <= |methods|
    ensures r.Some? ==>
      i <= r.value < |methods| && methods[r.value].id == id && forall j :: i <= j < r.value ==> methods[j].id != id
    ensures r.None? ==> forall j :: i <= j < |methods| ==> methods[j].id != id
    decreases |methods| - i
  {
    if i == |methods| then None
    else if methods[i].id == id then Some(i)
    else FindMethodFrom(methods, id, i + 1)
  }

  /**
   * `getShippingFee`: 0 when no method is selected or the id is unknown, otherwise the price of the first
   * method with that id.
   */
  function ShippingFee(selected: string, methods: seq<ShippingMethod>): (fee: int)
    ensures selected == [] ==> fee == 0
    ensures (forall j :: 0 <= j < |methods| ==> methods[j].id != selected) ==> fee == 0
    ensures forall i :: (selected != [] && 0 <= i < |methods| && methods[i].id == selected &&
      forall j :: 0 <= j < i ==> methods[j].id != selected) ==> fee == methods[i].price
  {
    if selected == [] then 0
    else
      match FindMethodFrom(methods, selected, 0)
      case None => 0
      case Some(i) => methods[i].price
  }

  /** `getTotalAmount`: the subtotal plus the shipping fee. */
  function TotalAmount(cart: seq<CartItem>, selected: string, methods: seq<ShippingMethod>): int {
    Subtotal(cart) + ShippingFee(selected, methods)
  }

  // ---------------------------------------------------------------- checkout records

  datatype OrderRecord = OrderRecord(
    customerName: string, customerPhone: string, address: string, shippingMethodId: string,
    shippingFee: int, totalAmount: int, notes: Option<string>, status: string)

  datatype OrderItem = OrderItem(orderId: string, productId: string, quantity: int, priceAtTime: int)

  datatype CheckoutOutcome = MissingFields | OrderFailed | ItemsFailed | Placed

  /** `cart.map(item => ({ order_id, product_id: item.id, quantity: item.quantity, price_at_time: item.price }))`. */
  function OrderItemsOf(cart: seq<CartItem>, orderId: string): seq<OrderItem> {
    seq(|cart|, j requires 0 <= j < |cart| => OrderItem(orderId, cart[j].id, cart[j].quantity, cart[j].price))
  }

  /** The value of the written order items at the prices they record. */
  function ItemsValue(items: seq<OrderItem>): int {
    if items == [] then 0 else ItemsValue(items[..|items| - 1]) + items[|items| - 1].priceAtTime * items[|items| - 1].quantity
  }

  /** One order item per cart line, and the items are worth exactly the cart's subtotal. */
  lemma {:induction false} OrderItemsMatchCart(cart: seq<CartItem>, orderId: string)
    ensures |OrderItemsOf(cart, orderId)| == |cart|
    ensures ItemsValue(OrderItemsOf(cart, orderId)) == Subtotal(cart)
    decreases |cart|
  {
    if cart != [] {
      var n := |cart|;
      assert OrderItemsOf(cart, orderId)[..n - 1] == OrderItemsOf(cart[..n - 1], orderId);
      OrderItemsMatchCart(cart[..n - 1], orderId);
    }
  }

  /** The order's total is what its items are worth plus the shipping fee it records. */
  lemma OrderTotalAddsUp(cart: seq<CartItem>, orderId: string, selected: string, methods: seq<ShippingMethod>)
    ensures TotalAmount(cart, selected, methods) ==
      ItemsValue(OrderItemsOf(cart, orderId)) + ShippingFee(selected, methods)
  {
    OrderItemsMatchCart(cart, orderId);
  }

  // ---------------------------------------------------------------- product pictures

  /** What a product card shows: one of the bundled pictures, or the stored address itself. */
  datatype ShopImage = Bundled(image: ProductDetails.ProductImage) | Address(url: string)

  /** The shop's `getProductImage`: the bundled picture named by `imageUrl`, or `imageUrl` as it is. */
  function ShopProductImage(imageUrl: string): (img: ShopImage)
    ensures img.Bundled? <==> exists known: ProductDetails.ProductImage :: imageUrl == ProductDetails.ImageFileName(known)
    ensures img.Bundled? ==> ProductDetails.ImageFileName(img.image) == imageUrl
    ensures img.Address? ==> img.url == imageUrl
  {
    var image := ProductDetails.GetProductImage(imageUrl);
    if imageUrl == ProductDetails.ImageFileName(image) then Bundled(image) else Address(imageUrl)
  }

  /**
   * The shop and the product page agree on every bundled file name; for any other address the shop shows
   * the address and the product page the massage-oil picture.
   */
  lemma ShopAndDetailsPictures(imageUrl: string)
    ensures ShopProductImage(imageUrl).Bundled? ==>
      ShopProductImage(imageUrl).image == ProductDetails.GetProductImage(imageUrl)
    ensures ShopProductImage(imageUrl).Address? ==> ProductDetails.GetProductImage(imageUrl) == ProductDetails.MassageOil
  {
  }

  // ---------------------------------------------------------------- the page

  class ShopPage {
    var cart: seq<CartItem>
    var shippingMethods: seq<ShippingMethod>
    var customerName: string
    var customerPhone: string
    var customerAddress: string
    var selectedShippingMethod: string
    var notes: string

    /** What every cart action keeps: one line per product, each with at least one unit. */
    predicate Valid()
      reads this
    {
      UniqueIds(cart) && PositiveQuantities(cart)
    }

    /** An empty cart and form; the active shipping methods are what the page fetched. */
    constructor(shippingMethods: seq<ShippingMethod>)
      ensures Valid() && cart == [] && this.shippingMethods == shippingMethods
      ensures customerName == [] && customerPhone == [] && customerAddress == []
      ensures selectedShippingMethod == [] && notes == []
    {
      cart := [];
      this.shippingMethods := shippingMethods;
      customerName, customerPhone, customerAddress := [], [], [];
      selectedShippingMethod, notes := [], [];
    }

    /**
     * `addToCart`: a new product is appended with one unit (no stock check on this path); a product
     * already in the cart gains one unit unless its quantity has reached the product's stock.
     */
    method AddToCart(product: Product) returns (outcome: CartOutcome)
      requires Valid()
      modifies this`cart
      ensures Valid()
      ensures Find(old(cart), product.id).None? ==> cart == old(cart) + [ItemOf(product, 1)] && outcome == Added
      ensures Find(old(cart), product.id).Some? ==>
        var i := Find(old(cart), product.id).value;
        if old(cart)[i].quantity >= product.stock then cart == old(cart) && outcome == NotEnoughStock
        else cart == old(cart)[i := old(cart)[i].(quantity := old(cart)[i].quantity + 1)] && outcome == Added
      ensures old(WithinStock(cart)) &&
        (forall j :: 0 <= j < |old(cart)| && old(cart)[j].id == product.id ==> old(cart)[j].stock == product.stock)
        ==> WithinStock(cart)
    {
      var existing := Find(cart, product.id);
      if existing.Some? {
        var item := cart[existing.value];
        if item.quantity >= product.stock {
          return NotEnoughStock;
        }
        BumpAtUnique(cart, product.id, existing.value);
        cart := BumpQuantity(cart, product.id);
      } else {
        cart := cart + [ItemOf(product, 1)];
      }
      outcome := Added;
    }

    /**
     * `updateQuantity`: an unknown product changes nothing; a new quantity of zero or less removes the
     * line; one above the line's stock changes nothing; otherwise only that line's quantity changes.
     */
    method UpdateQuantity(productId: string, change: int) returns (outcome: CartOutcome)
      requires Valid()
      modifies this`cart
      ensures Valid()
      ensures Find(old(cart), productId).None? ==> cart == old(cart) && outcome == NotInCart
      ensures Find(old(cart), productId).Some? ==>
        var i := Find(old(cart), productId).value;
        var q := old(cart)[i].quantity + change;
        if q <= 0 then cart == old(cart)[..i] + old(cart)[i + 1..] && outcome == Removed
        else if q > old(cart)[i].stock then cart == old(cart) && outcome == NotEnoughStock
        else cart == old(cart)[i := old(cart)[i].(quantity := q)] && outcome == Updated
      ensures old(WithinStock(cart)) ==> WithinStock(cart)
    {
      var found := Find(cart, productId);
      if found.None? {
        return NotInCart;
      }
      var item := cart[found.value];
      var newQuantity := item.quantity + change;
      if newQuantity <= 0 {
        WithoutUnique(cart, productId, found.value);
        RemoveFromCart(productId);
        return Removed;
      }
      if newQuantity > item.stock {
        return NotEnoughStock;
      }
      SetAtUnique(cart, productId, found.value, newQuantity);
      cart := SetQuantity(cart, productId, newQuantity);
      outcome := Updated;
    }

    /** `removeFromCart`: drops every line for the product and keeps the rest in order. */
    method RemoveFromCart(productId: string)
      requires Valid()
      modifies this`cart
      ensures Valid()
      ensures cart == Without(old(cart), productId)
      ensures old(WithinStock(cart)) ==> WithinStock(cart)
    {
      WithoutKeepsUnique(cart, productId);
      WithoutMembers(cart, productId);
      cart := Without(cart, productId);
    }

    /** The form is filled in only when the name, phone, address and shipping method are all given. */
    predicate FormComplete()
      reads this
    {
      customerName != [] && customerPhone != [] && customerAddress != [] && selectedShippingMethod != []
    }

    /**
     * `handleCheckout`. The database is given as what its two inserts answer: the new order's id (or
     * `None` for an error) and whether the items were stored. Returns the order and the items written.
     */
    method Checkout(insertedOrderId: Option<string>, itemsStored: bool)
      returns (outcome: CheckoutOutcome, order: Option<OrderRecord>, items: seq<OrderItem>)
      requires Valid()
      modifies this`cart, this`customerName, this`customerPhone, this`customerAddress,
        this`selectedShippingMethod, this`notes
      ensures Valid()
      ensures outcome == MissingFields <==> !old(FormComplete())
      ensures outcome == MissingFields ==> order.None? && items == []
      ensures outcome != MissingFields ==> order == Some(OrderRecord(
        old(customerName), old(customerPhone), old(customerAddress), old(selectedShippingMethod),
        ShippingFee(old(selectedShippingMethod), shippingMethods),
        TotalAmount(old(cart), old(selectedShippingMethod), shippingMethods),
        if old(notes) == [] then None else Some(old(notes)), "pending"))
      ensures outcome != MissingFields && insertedOrderId.None? ==> outcome == OrderFailed && items == []
      ensures outcome != MissingFields && insertedOrderId.Some? ==>
        items == OrderItemsOf(old(cart), insertedOrderId.value) && (outcome == Placed <==> itemsStored)
      ensures outcome == Placed ==>
        cart == [] && customerName == [] && customerPhone == [] && customerAddress == [] &&
        selectedShippingMethod == [] && notes == []
      ensures outcome != Placed ==>
        cart == old(cart) && customerName == old(customerName) && customerPhone == old(customerPhone) &&
        customerAddress == old(customerAddress) && selectedShippingMethod == old(selectedShippingMethod) &&
        notes == old(notes)
    {
      order, items := None, [];
      if customerName == [] || customerPhone == [] || customerAddress == [] || selectedShippingMethod == [] {
        return MissingFields, order, items;
      }
      var fee := ShippingFee(selectedShippingMethod, shippingMethods);
      order := Some(OrderRecord(
        customerName, customerPhone, customerAddress, selectedShippingMethod,
        fee, TotalAmount(cart, selectedShippingMethod, shippingMethods),
        if notes == [] then None else Some(notes), "pending"));
      if insertedOrderId.None? {
        return OrderFailed, order, items;
      }
      items := OrderItemsOf(cart, insertedOrderId.value);
      if !itemsStored {
        return ItemsFailed, order, items;
      }
      cart := [];
      customerName, customerPhone, customerAddress := [], [], [];
      selectedShippingMethod, notes := [], [];
      outcome := Placed;
    }
  }
}
