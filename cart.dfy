/**
 * Products and cart lines shared by the shop page and the product page. Prices are integer minor
 * currency units; a cart line copies the product's fields at the moment it was first added.
 */
module Cart {
  import opened Wrappers

  datatype Product = Product(id: string, name: string, price: int, stock: int, imageUrl: string)

  /** `{ ...product, quantity }`. */
  datatype CartItem = CartItem(id: string, name: string, price: int, stock: int, imageUrl: string, quantity: int)

  function ItemOf(p: Product, quantity: int): CartItem {
    CartItem(p.id, p.name, p.price, p.stock, p.imageUrl, quantity)
  }

  // ---------------------------------------------------------------- lookup

  /** `cart.find(item => item.id === id)` from position `i` on, as the index of the first match. */
  function FindFrom(cart: seq<CartItem>, id: string, i: nat): (r: Option<nat>)
    requires i <= |cart|
    ensures r.Some? ==>
      i <= r.value < |cart| && cart[r.value].id == id && forall j :: i <= j < r.value ==> cart[j].id != id
    ensures r.None? ==> forall j :: i <= j < |cart| ==> cart[j].id != id
    decreases |cart| - i
  {
    if i == |cart| then None
    else if cart[i].id == id then Some(i)
    else FindFrom(cart, id, i + 1)
  }

  function Find(cart: seq<CartItem>, id: string): Option<nat> { FindFrom(cart, id, 0) }

  /** No two lines of the cart are for the same product. */
  predicate UniqueIds(cart: seq<CartItem>) {
    forall i, j :: 0 <= i < j < |cart| ==> cart[i].id != cart[j].id
  }

  /** With unique ids, the line found for `id` is the only one with that id. */
  lemma FindUnique(cart: seq<CartItem>, id: string, i: nat)
    requires UniqueIds(cart) && i < |cart| && cart[i].id == id
    ensures Find(cart, id) == Some(i)
  {
    var r := Find(cart, id);
    assert r.Some?;
  }

  // ---------------------------------------------------------------- sums

  function LineTotal(item: CartItem): int { item.price * item.quantity }

  /** `cart.reduce((total, item) => total + item.price * item.quantity, 0)`, summed left to right. */
  function Subtotal(cart: seq<CartItem>): int {
    if cart == [] then 0 else Subtotal(cart[..|cart| - 1]) + LineTotal(cart[|cart| - 1])
  }

  /** The subtotal of two carts put together is the sum of their subtotals. */
  lemma {:induction false} SubtotalAppend(a: seq<CartItem>, b: seq<CartItem>)
    ensures Subtotal(a + b) == Subtotal(a) + Subtotal(b)
    decreases |b|
  {
    if b == [] {
      assert a + b == a;
    } else {
      assert (a + b)[..|a + b| - 1] == a + b[..|b| - 1];
      SubtotalAppend(a, b[..|b| - 1]);
    }
  }

  /** Replacing one line changes the subtotal by the difference of the two line totals. */
  lemma {:induction false} SubtotalUpdate(cart: seq<CartItem>, i: nat, x: CartItem)
    requires i < |cart|
    ensures Subtotal(cart[i := x]) == Subtotal(cart) - LineTotal(cart[i]) + LineTotal(x)
    decreases |cart|
  {
    var n := |cart|;
    if i < n - 1 {
      assert cart[i := x][..n - 1] == cart[..n - 1][i := x];
      SubtotalUpdate(cart[..n - 1], i, x);
    } else {
      assert cart[i := x][..n - 1] == cart[..n - 1];
    }
  }

  /** `cart.reduce((sum, item) => sum + item.quantity, 0)`: the number of units in the cart. */
  function TotalItems(cart: seq<CartItem>): int {
    if cart == [] then 0 else TotalItems(cart[..|cart| - 1]) + cart[|cart| - 1].quantity
  }

  /** Appending a line adds its quantity to the count. */
  lemma TotalItemsPush(cart: seq<CartItem>, x: CartItem)
    ensures TotalItems(cart + [x]) == TotalItems(cart) + x.quantity
  {
    assert (cart + [x])[..|cart|] == cart;
  }

  /** Replacing one line changes the count by the difference of the two quantities. */
  lemma {:induction false} TotalItemsUpdate(cart: seq<CartItem>, i: nat, x: CartItem)
    requires i < |cart|
    ensures TotalItems(cart[i := x]) == TotalItems(cart) - cart[i].quantity + x.quantity
    decreases |cart|
  {
    var n := |cart|;
    if i < n - 1 {
      assert cart[i := x][..n - 1] == cart[..n - 1][i := x];
      TotalItemsUpdate(cart[..n - 1], i, x);
    } else {
      assert cart[i := x][..n - 1] == cart[..n - 1];
    }
  }
}
