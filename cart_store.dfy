/**
 * The storefront page's cart state: the product list, the cart, and the
 * last notice shown to the user, changed only through the five cart
 * handlers. Each handler is one atomic step; its new state is the pure
 * expression from module Cart, and `Valid()` (the conservation invariant
 * against the catalog as it was loaded) holds after every step.
 */
module CartStore {
  import opened Wrappers
  import opened Cart

  /** The notice shown when a product has no units left. */
  const NoStockNotice: string := "❌ No hay stock disponible"

  /** The notice shown when trying to buy with an empty cart. */
  const EmptyCartNotice: string := "❌ El carrito está vacío"

  /** The notice shown after one unit of the named product was added. */
  function AddedNotice(name: string): string
  {
    "✅ " + name + " agregado al carrito"
  }

  class Store {
    /** The products as shown, with their current stock. */
    var products: seq<Product>
    /** The cart lines, in insertion order. */
    var cart: seq<CartItem>
    /** The last notice shown (its timed dismissal is not modelled). */
    var notice: Option<string>
    /** The products as the catalog delivered them. */
    ghost const catalog: seq<Product>

    ghost predicate Valid()
      reads this
    {
      Consistent(catalog, products, cart)
    }

    /** The page once the catalog has loaded: its products, an empty cart, no notice. */
    constructor (loaded: seq<Product>)
      requires UniqueProductIds(loaded)
      ensures Valid()
      ensures catalog == loaded && products == loaded && cart == [] && notice == None
    {
      catalog := loaded;
      products := loaded;
      cart := [];
      notice := None;
    }

    /**
     * `addToCart(p)`, called with a product as shown. Out of stock: only the
     * notice changes. Otherwise one more unit of `p` in the cart and one less
     * in `p`'s stock.
     */
    method AddToCart(p: Product)
      requires Valid() && p in products
      modifies this
      ensures Valid()
      ensures p.stock <= 0 ==>
        cart == old(cart) && products == old(products) && notice == Some(NoStockNotice)
      ensures p.stock > 0 ==>
        && cart == AddLine(old(cart), p)
        && products == AdjustStock(old(products), p.id, -1)
        && notice == Some(AddedNotice(p.name))
      ensures p.stock > 0 ==> Count(cart) == Count(old(cart)) + 1 && Total(cart) == Total(old(cart)) + p.price
    {
      if p.stock <= 0 {
        notice := Some(NoStockNotice);
        return;
      }
      AddKeepsConsistent(catalog, products, cart, p);
      CountAndTotalAfterAdd(cart, p);
      cart := AddLine(cart, p);
      products := AdjustStock(products, p.id, -1);
      notice := Some(AddedNotice(p.name));
    }

    /**
     * `increment(id)`, called from an existing cart line. Without a product
     * of that id in stock only the notice changes; otherwise the line gains
     * a unit and the product loses one.
     */
    method Increment(id: int)
      requires Valid() && InCart(cart, id)
      modifies this
      ensures Valid()
      ensures !Available(old(products), id) ==>
        cart == old(cart) && products == old(products) && notice == Some(NoStockNotice)
      ensures Available(old(products), id) ==>
        && cart == Bump(old(cart), id, 1)
        && products == AdjustStock(old(products), id, -1)
        && notice == Some(AddedNotice(FindProduct(old(products), id).value.name))
      ensures Available(old(products), id) ==>
        && Count(cart) == Count(old(cart)) + 1
        && Total(cart) == Total(old(cart)) + FindProduct(old(products), id).value.price
    {
      var product := FindProduct(products, id);
      if product.None? || product.value.stock <= 0 {
        notice := Some(NoStockNotice);
        return;
      }
      IncrementKeepsConsistent(catalog, products, cart, id);
      CountAndTotalAfterAdd(cart, product.value);
      assert AddLine(cart, product.value) == Bump(cart, id, 1);
      cart := Bump(cart, id, 1);
      products := AdjustStock(products, id, -1);
      notice := Some(AddedNotice(product.value.name));
    }

    /**
     * `decrement(id)`: one unit less on the line, dropped when it reaches
     * zero, and one unit back in stock only if the line existed.
     */
    method Decrement(id: int)
      requires Valid()
      modifies this
      ensures Valid()
      ensures cart == DecrementLine(old(cart), id)
      ensures products == if InCart(old(cart), id) then AdjustStock(old(products), id, 1) else old(products)
      ensures !InCart(old(cart), id) ==> cart == old(cart)
      ensures notice == old(notice)
    {
      DecrementKeepsConsistent(catalog, products, cart, id);
      var cartItem := FindLine(cart, id);
      cart := DecrementLine(cart, id);
      if cartItem.Some? {
        products := AdjustStock(products, id, 1);
      }
    }

    /**
     * `removeFromCart(id)`: the line's whole quantity back in stock and the
     * line dropped; an id without a line changes nothing.
     */
    method RemoveFromCart(id: int)
      requires Valid()
      modifies this
      ensures Valid()
      ensures cart == RemoveLine(old(cart), id)
      ensures products == if InCart(old(cart), id)
                          then AdjustStock(old(products), id, LineQuantity(old(cart), id))
                          else old(products)
      ensures !InCart(old(cart), id) ==> cart == old(cart)
      ensures notice == old(notice)
    {
      RemoveKeepsConsistent(catalog, products, cart, id);
      var cartItem := FindLine(cart, id);
      if cartItem.Some? {
        products := AdjustStock(products, id, cartItem.value.quantity);
      }
      cart := RemoveLine(cart, id);
    }

    /** `clearCart`: every line's quantity back in stock, which is the catalog again, and an empty cart. */
    method ClearCart()
      requires Valid()
      modifies this
      ensures Valid()
      ensures products == RestoreAll(old(products), old(cart))
      ensures products == catalog && cart == []
      ensures notice == old(notice)
    {
      ClearRestoresCatalog(catalog, products, cart);
      products := RestoreAll(products, cart);
      cart := [];
    }

    /**
     * The "Comprar" button: an empty cart only shows a notice; otherwise the
     * cart is handed to the checkout page, and nothing changes here.
     */
    method ProceedToCheckout() returns (handoff: Option<seq<CartItem>>)
      requires Valid()
      modifies this
      ensures Valid() && cart == old(cart) && products == old(products)
      ensures cart == [] ==> handoff == None && notice == Some(EmptyCartNotice)
      ensures cart != [] ==> handoff == Some(cart) && notice == old(notice)
    {
      if |cart| == 0 {
        notice := Some(EmptyCartNotice);
        return None;
      }
      return Some(cart);
    }
  }
}
