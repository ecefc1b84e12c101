/**
 * The product page: the quantity counter bounded by the product's stock, adding the chosen quantity to
 * the stored cart (merged into an existing line without a stock check, or pushed as a new line), the
 * cart badge count, and the image shown for a product.
 */
module ProductDetails {
  import opened Wrappers
  import opened Cart

  /** The bundled product pictures. */
  datatype ProductImage = MassageOil | BodyScrub | FaceCream | BathSalts | MudMask

  /** The file name each bundled picture is stored under. */
  function ImageFileName(image: ProductImage): string {
    match image
    case MassageOil => "product-massage-oil.jpg"
    case BodyScrub => "product-body-scrub.jpg"
    case FaceCream => "product-face-cream.jpg"
    case BathSalts => "product-bath-salts.jpg"
    case MudMask => "product-mud-mask.jpg"
  }

  /** `getProductImage`: the bundled picture named by `imageUrl`, or the massage-oil picture for anything else. */
  function GetProductImage(imageUrl: string): (image: ProductImage)
    ensures image == MassageOil || imageUrl == ImageFileName(image)
    ensures (forall known: ProductImage :: imageUrl != ImageFileName(known)) ==> image == MassageOil
  {
    if imageUrl == "product-body-scrub.jpg" then BodyScrub
    else if imageUrl == "product-face-cream.jpg" then FaceCream
    else if imageUrl == "product-bath-salts.jpg" then BathSalts
    else if imageUrl == "product-mud-mask.jpg" then MudMask
    else MassageOil
  }

  /** Every bundled picture is found again from its own file name. */
  lemma ImageRoundTrip(image: ProductImage)
    ensures GetProductImage(ImageFileName(image)) == image
  {
    match image
    case MassageOil =>
      var name := ImageFileName(image);
      assert name[8] == 'm' && "product-body-scrub.jpg"[8] == 'b' && "product-face-cream.jpg"[8] == 'f';
      assert "product-bath-salts.jpg"[8] == 'b' && "product-mud-mask.jpg"[8] == 'm';
      assert |name| != |"product-mud-mask.jpg"|;
    case BodyScrub =>
    case FaceCream =>
      assert "product-face-cream.jpg"[8] != "product-body-scrub.jpg"[8];
    case BathSalts =>
      assert "product-bath-salts.jpg"[9] != "product-body-scrub.jpg"[9];
      assert "product-bath-salts.jpg"[8] != "product-face-cream.jpg"[8];
    case MudMask =>
      assert |"product-mud-mask.jpg"| != |"product-body-scrub.jpg"|;
      assert |"product-mud-mask.jpg"| != |"product-face-cream.jpg"|;
      assert |"product-mud-mask.jpg"| != |"product-bath-salts.jpg"|;
  }

  class ProductPage {
    /** The product shown, or `None` while it is missing. */
    var product: Option<Product>
    /** The stored cart. */
    var cart: seq<CartItem>
    /** The badge: units in the stored cart. */
    var cartCount: int
    /** The quantity counter. */
    var quantity: int

    /** The counter is at least 1, and at most the stock whenever the stock is positive. */
    predicate QuantityInRange()
      reads this
    {
      quantity >= 1 && (product.Some? && product.value.stock >= 1 ==> quantity <= product.value.stock)
    }

    constructor(product: Option<Product>, storedCart: seq<CartItem>)
      ensures QuantityInRange() && quantity == 1
      ensures this.product == product && cart == storedCart && cartCount == TotalItems(storedCart)
    {
      this.product := product;
      cart := storedCart;
      quantity := 1;
      cartCount := TotalItems(storedCart);
    }

    /** `updateCartCount`: the badge shows the number of units in the stored cart. */
    method UpdateCartCount()
      modifies this`cartCount
      ensures cartCount == TotalItems(cart)
    {
      cartCount := TotalItems(cart);
    }

    /**
     * `handleAddToCart`: without a product nothing happens. Otherwise the first line for the product, if
     * any, gains the counter's quantity in place (no stock cap); if there is none, a new line is pushed.
     * The badge then grows by the counter's quantity.
     */
    method HandleAddToCart()
      modifies this`cart, this`cartCount
      ensures product.None? ==> cart == old(cart) && cartCount == old(cartCount)
      ensures product.Some? && Find(old(cart), product.value.id).Some? ==>
        var i := Find(old(cart), product.value.id).value;
        cart == old(cart)[i := old(cart)[i].(quantity := old(cart)[i].quantity + quantity)]
      ensures product.Some? && Find(old(cart), product.value.id).None? ==>
        cart == old(cart) + [ItemOf(product.value, quantity)]
      ensures product.Some? ==> cartCount == TotalItems(cart) == TotalItems(old(cart)) + quantity
    {
      if product.None? {
        return;
      }
      var p := product.value;
      var existing := Find(cart, p.id);
      if existing.Some? {
        var i := existing.value;
        TotalItemsUpdate(cart, i, cart[i].(quantity := cart[i].quantity + quantity));
        cart := cart[i := cart[i].(quantity := cart[i].quantity + quantity)];
      } else {
        TotalItemsPush(cart, ItemOf(p, quantity));
        cart := cart + [ItemOf(p, quantity)];
      }
      UpdateCartCount();
    }

    /** `decreaseQuantity`: one less, but never below 1. */
    method DecreaseQuantity()
      requires QuantityInRange()
      modifies this`quantity
      ensures QuantityInRange()
      ensures quantity == if old(quantity) > 1 then old(quantity) - 1 else old(quantity)
    {
      if quantity > 1 {
        quantity := quantity - 1;
      }
    }

    /** `increaseQuantity`: one more, only while there is a product and the counter is below its stock. */
    method IncreaseQuantity()
      requires QuantityInRange()
      modifies this`quantity
      ensures QuantityInRange()
      ensures quantity == if product.Some? && old(quantity) < product.value.stock then old(quantity) + 1 else old(quantity)
    {
      if product.Some? && quantity < product.value.stock {
        quantity := quantity + 1;
      }
    }
  }
}
