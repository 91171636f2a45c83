/**
 * The values of the storefront's cart and catalog, and the pure
 * `find`/`map`/`filter`/`reduce` expressions that each cart handler
 * applies to them.
 *
 * A product's `stock` counts the units that are not reserved by the cart;
 * a cart line reserves `quantity` units of the product with the same id.
 * The consistency predicate `Consistent` states the conservation law
 * (stock plus reserved units equals the stock the catalog was loaded with),
 * and the `...KeepsConsistent` lemmas show that every handler keeps it.
 * Prices are whole numbers (cents), so totals are exact.
 */
module Cart {
  import opened Wrappers

  /** A catalog product; `stock` is the number of units still available. */
  datatype Product = Product(id: int, name: string, description: string, price: int, stock: int)

  /**
   * A cart line: a copy of the product taken when the line was created
   * (its `stock` field is that snapshot and is never read again) plus the
   * number of units the line reserves.
   */
  datatype CartItem = CartItem(id: int, name: string, description: string, price: int, stock: int, quantity: int)

  /** The line `{...p, quantity: 1}` that adding a new product appends. */
  function NewLine(p: Product): CartItem
  {
    CartItem(p.id, p.name, p.description, p.price, p.stock, 1)
  }

  // ---------------------------------------------------------------------
  // Lookups (`find`)
  // ---------------------------------------------------------------------

  /** `products.find(p => p.id === id)`: the first product with this id. */
  function FindProduct(products: seq<Product>, id: int): (r: Option<Product>)
    ensures r.Some? ==> r.value.id == id
    ensures r.Some? ==>
      exists k | 0 <= k < |products| :: products[k] == r.value && forall j | 0 <= j < k :: products[j].id != id
    ensures r.None? ==> forall p | p in products :: p.id != id
  {
    if products == [] then None
    else if products[0].id == id then Some(products[0])
    else
      var r := FindProduct(products[1..], id);
      assert r.Some? ==>
        exists k | 0 <= k < |products| :: products[k] == r.value && forall j | 0 <= j < k :: products[j].id != id
      by {
        if r.Some? {
          var tail := products[1..];
          var k :| 0 <= k < |tail| && tail[k] == r.value && forall j | 0 <= j < k :: tail[j].id != id;
          assert products[k + 1] == r.value;
          assert forall j | 0 <= j < k + 1 :: products[j].id != id by {
            forall j | 0 <= j < k + 1 ensures products[j].id != id {
              if j > 0 { assert tail[j - 1] == products[j]; }
            }
          }
        }
      }
      r
  }

  /** `cart.find(item => item.id === id)`: the first line with this id. */
  function FindLine(cart: seq<CartItem>, id: int): (r: Option<CartItem>)
    ensures r.Some? ==> r.value.id == id
    ensures r.Some? ==>
      exists k | 0 <= k < |cart| :: cart[k] == r.value && forall j | 0 <= j < k :: cart[j].id != id
    ensures r.None? ==> forall l | l in cart :: l.id != id
  {
    if cart == [] then None
    else if cart[0].id == id then Some(cart[0])
    else
      var r := FindLine(cart[1..], id);
      assert r.Some? ==>
        exists k | 0 <= k < |cart| :: cart[k] == r.value && forall j | 0 <= j < k :: cart[j].id != id
      by {
        if r.Some? {
          var tail := cart[1..];
          var k :| 0 <= k < |tail| && tail[k] == r.value && forall j | 0 <= j < k :: tail[j].id != id;
          assert cart[k + 1] == r.value;
          assert forall j | 0 <= j < k + 1 :: cart[j].id != id by {
            forall j | 0 <= j < k + 1 ensures cart[j].id != id {
              if j > 0 { assert tail[j - 1] == cart[j]; }
            }
          }
        }
      }
      r
  }

  /** Whether the cart has a line for this product id. */
  predicate InCart(cart: seq<CartItem>, id: int)
  {
    FindLine(cart, id).Some?
  }

  /** The quantity of the line for `id`, or 0 when there is none. */
  function LineQuantity(cart: seq<CartItem>, id: int): int
  {
    match FindLine(cart, id)
    case Some(l) => l.quantity
    case None => 0
  }

  /** Whether `id` names a product whose stock is positive (the gate of `increment`). */
  predicate Available(products: seq<Product>, id: int)
  {
    FindProduct(products, id).Some? && FindProduct(products, id).value.stock > 0
  }

  /** Catalog ids are keys: no two products share one. */
  predicate UniqueProductIds(products: seq<Product>)
  {
    forall i, j | 0 <= i < j < |products| :: products[i].id != products[j].id
  }

  /** The cart is keyed by product id: no two lines share one. */
  predicate UniqueLineIds(cart: seq<CartItem>)
  {
    forall i, j | 0 <= i < j < |cart| :: cart[i].id != cart[j].id
  }

  /** Every line reserves at least one unit. */
  predicate PositiveLines(cart: seq<CartItem>)
  {
    forall l | l in cart :: l.quantity >= 1
  }

  // ---------------------------------------------------------------------
  // Updates (`map` and `filter`)
  // ---------------------------------------------------------------------

  /**
   * `cart.map(item => item.id === id ? {...item, quantity: item.quantity + delta} : item)`:
   * the same lines in the same order, where only the quantity of the lines
   * keyed by `id` moves, by `delta`.
   */
  function Bump(cart: seq<CartItem>, id: int, delta: int): (r: seq<CartItem>)
    ensures |r| == |cart|
    ensures forall i | 0 <= i < |cart| :: r[i] == cart[i].(quantity := r[i].quantity)
    ensures forall i | 0 <= i < |cart| && cart[i].id != id :: r[i] == cart[i]
    ensures forall i | 0 <= i < |cart| && cart[i].id == id :: r[i].quantity == cart[i].quantity + delta
  {
    seq(|cart|, i requires 0 <= i < |cart| =>
      if cart[i].id == id then cart[i].(quantity := cart[i].quantity + delta) else cart[i])
  }

  /**
   * `products.map(item => item.id === id ? {...item, stock: item.stock + delta} : item)`:
   * the same products in the same order, where only the stock of the
   * products keyed by `id` moves, by `delta`.
   */
  function AdjustStock(products: seq<Product>, id: int, delta: int): (r: seq<Product>)
    ensures |r| == |products|
    ensures forall i | 0 <= i < |products| :: r[i] == products[i].(stock := r[i].stock)
    ensures forall i | 0 <= i < |products| && products[i].id != id :: r[i] == products[i]
    ensures forall i | 0 <= i < |products| && products[i].id == id :: r[i].stock == products[i].stock + delta
  {
    seq(|products|, i requires 0 <= i < |products| =>
      if products[i].id == id then products[i].(stock := products[i].stock + delta) else products[i])
  }

  /**
   * The new cart of `addToCart(p)`: a line already keyed by `p.id` gains one
   * unit and keeps its place; otherwise `{...p, quantity: 1}` is appended.
   */
  function AddLine(cart: seq<CartItem>, p: Product): (r: seq<CartItem>)
    ensures InCart(cart, p.id) ==>
      |r| == |cart| &&
      forall i | 0 <= i < |cart| ::
        r[i] == if cart[i].id == p.id then cart[i].(quantity := cart[i].quantity + 1) else cart[i]
    ensures !InCart(cart, p.id) ==> |r| == |cart| + 1 && r[..|cart|] == cart && r[|cart|] == NewLine(p)
  {
    if InCart(cart, p.id) then Bump(cart, p.id, 1) else cart + [NewLine(p)]
  }

  /**
   * `.filter(item => item.quantity > 0)`: the lines that still reserve
   * units, in order; it never adds a line (`KeepPositiveKeeps` shows it
   * keeps every positive one).
   */
  function KeepPositive(cart: seq<CartItem>): (r: seq<CartItem>)
    ensures forall l | l in r :: l in cart && l.quantity > 0
    ensures |r| <= |cart|
  {
    if cart == [] then []
    else (if cart[0].quantity > 0 then [cart[0]] else []) + KeepPositive(cart[1..])
  }

  /** The `quantity > 0` filter keeps every line that reserves a unit. */
  lemma {:induction false} KeepPositiveKeeps(cart: seq<CartItem>)
    ensures forall l | l in cart && l.quantity > 0 :: l in KeepPositive(cart)
  {
    if cart != [] {
      KeepPositiveKeeps(cart[1..]);
      assert forall l | l in cart :: l == cart[0] || l in cart[1..];
    }
  }

  /** The removal filter keeps every line of another product. */
  lemma {:induction false} RemoveLineKeeps(cart: seq<CartItem>, id: int)
    ensures forall l | l in cart && l.id != id :: l in RemoveLine(cart, id)
  {
    if cart != [] {
      RemoveLineKeeps(cart[1..], id);
      assert forall l | l in cart :: l == cart[0] || l in cart[1..];
    }
  }

  /**
   * The new cart of `decrement(id)`: one unit less on the line, and empty
   * lines dropped. Every line left reserves a unit, every other positive
   * line is kept as it was, and no line of another id appears.
   */
  function DecrementLine(cart: seq<CartItem>, id: int): (r: seq<CartItem>)
    ensures PositiveLines(r)
    ensures forall l | l in cart && l.id != id && l.quantity > 0 :: l in r
    ensures forall l | l in r && l.id != id :: l in cart
    ensures |r| <= |cart|
  {
    var b := Bump(cart, id, -1);
    assert forall l | l in cart && l.id != id :: l in b by {
      forall l | l in cart && l.id != id ensures l in b {
        var i :| 0 <= i < |cart| && cart[i] == l;
        assert b[i] == l;
      }
    }
    assert forall l | l in b && l.id != id :: l in cart by {
      forall l | l in b && l.id != id ensures l in cart {
        var i :| 0 <= i < |b| && b[i] == l;
        assert cart[i] == l;
      }
    }
    KeepPositiveKeeps(b);
    KeepPositive(b)
  }

  /**
   * `cart.filter(item => item.id !== id)`: the new cart of
   * `removeFromCart(id)`; it never adds a line and drops every line of `id`
   * (`RemoveLineKeeps` shows it keeps every other one).
   */
  function RemoveLine(cart: seq<CartItem>, id: int): (r: seq<CartItem>)
    ensures forall l | l in r :: l in cart && l.id != id
    ensures |r| <= |cart|
  {
    if cart == [] then []
    else (if cart[0].id != id then [cart[0]] else []) + RemoveLine(cart[1..], id)
  }

  /**
   * The new products of `clearCart`: the same products in the same order,
   * each given back the quantity of its line (none for a product without
   * one), so with positive lines no stock goes down.
   */
  function RestoreAll(products: seq<Product>, cart: seq<CartItem>): (r: seq<Product>)
    ensures |r| == |products|
    ensures forall i | 0 <= i < |products| ::
      r[i] == products[i].(stock := products[i].stock + LineQuantity(cart, products[i].id))
    ensures PositiveLines(cart) ==> forall i | 0 <= i < |products| :: r[i].stock >= products[i].stock
  {
    seq(|products|, i requires 0 <= i < |products| =>
      match FindLine(cart, products[i].id)
      case Some(l) => products[i].(stock := products[i].stock + l.quantity)
      case None => products[i])
  }

  // ---------------------------------------------------------------------
  // Sums (`reduce`)
  // ---------------------------------------------------------------------

  /** The units reserved for product `id`: the sum of the quantities of its lines. */
  function QtyOf(cart: seq<CartItem>, id: int): int
  {
    if cart == [] then 0
    else (if cart[0].id == id then cart[0].quantity else 0) + QtyOf(cart[1..], id)
  }

  /**
   * `cart.reduce((sum, item) => sum + item.quantity, 0)`: the cart badge
   * count. With positive lines it is at least the number of lines, so it is
   * 0 exactly for the empty cart.
   */
  function Count(cart: seq<CartItem>): (r: int)
    ensures PositiveLines(cart) ==> r >= |cart|
    ensures PositiveLines(cart) ==> (r == 0 <==> cart == [])
  {
    if cart == [] then 0 else cart[0].quantity + Count(cart[1..])
  }

  /**
   * `cart.reduce((a, b) => a + b.price * b.quantity, 0)`: the cart total,
   * never negative when no price or quantity is.
   */
  function Total(cart: seq<CartItem>): (r: int)
    ensures (forall l | l in cart :: l.price >= 0 && l.quantity >= 0) ==> r >= 0
  {
    if cart == [] then 0 else cart[0].price * cart[0].quantity + Total(cart[1..])
  }

  // ---------------------------------------------------------------------
  // The conservation invariant
  // ---------------------------------------------------------------------

  /**
   * The consistency of the two collections against the catalog as loaded:
   * products keep their catalog order and every field but `stock`; for each
   * product, stock plus the units its line reserves is the loaded stock;
   * lines are keyed by id, reserve at least one unit and carry the price
   * of their product; and a product loaded with a non-negative stock never
   * goes below zero.
   */
  ghost predicate Consistent(catalog: seq<Product>, products: seq<Product>, cart: seq<CartItem>)
  {
    && |products| == |catalog|
    && UniqueProductIds(catalog)
    && UniqueLineIds(cart)
    && PositiveLines(cart)
    && (forall i | 0 <= i < |products| :: products[i] == catalog[i].(stock := products[i].stock))
    && (forall i | 0 <= i < |products| :: products[i].stock + QtyOf(cart, products[i].id) == catalog[i].stock)
    && (forall i | 0 <= i < |products| :: catalog[i].stock >= 0 ==> products[i].stock >= 0)
    && LinesPriced(products, cart)
  }

  /** Every line carries the price of the product with its id. */
  predicate LinesPriced(products: seq<Product>, cart: seq<CartItem>)
  {
    forall l, i | l in cart && 0 <= i < |products| && products[i].id == l.id :: l.price == products[i].price
  }

  // ---------------------------------------------------------------------
  // Lemmas about the reserved quantities
  // ---------------------------------------------------------------------

  lemma {:induction false} QtyOfAppend(a: seq<CartItem>, b: seq<CartItem>, x: int)
    ensures QtyOf(a + b, x) == QtyOf(a, x) + QtyOf(b, x)
  {
    if a == [] {
      assert a + b == b;
    } else {
      assert (a + b)[1..] == a[1..] + b;
      QtyOfAppend(a[1..], b, x);
    }
  }

  /** With lines keyed by id, the units reserved for `x` are the quantity of its line. */
  lemma {:induction false} QtyOfIsLineQuantity(cart: seq<CartItem>, x: int)
    requires UniqueLineIds(cart)
    ensures QtyOf(cart, x) == LineQuantity(cart, x)
  {
    if cart != [] {
      QtyOfIsLineQuantity(cart[1..], x);
      if cart[0].id == x {
        QtyOfAbsent(cart[1..], x);
      }
    }
  }

  /** A product with no line has nothing reserved. */
  lemma {:induction false} QtyOfAbsent(cart: seq<CartItem>, x: int)
    requires forall l | l in cart :: l.id != x
    ensures QtyOf(cart, x) == 0
  {
    if cart != [] {
      assert cart[0] in cart;
      QtyOfAbsent(cart[1..], x);
    }
  }

  lemma {:induction false} QtyOfBump(cart: seq<CartItem>, id: int, delta: int, x: int)
    requires UniqueLineIds(cart)
    ensures QtyOf(Bump(cart, id, delta), x) == QtyOf(cart, x) + (if x == id && InCart(cart, id) then delta else 0)
  {
    if cart != [] {
      var b := Bump(cart, id, delta);
      assert b[1..] == Bump(cart[1..], id, delta);
      QtyOfBump(cart[1..], id, delta, x);
      if cart[0].id == id {
        assert forall l | l in cart[1..] :: l.id != id by {
          forall l | l in cart[1..] ensures l.id != id {
            var k :| 0 <= k < |cart[1..]| && cart[1..][k] == l;
            assert cart[k + 1] == l;
          }
        }
      }
    }
  }

  /** Dropping lines that reserve nothing leaves every reservation as it was. */
  lemma {:induction false} QtyOfKeepPositive(cart: seq<CartItem>, x: int)
    requires forall l | l in cart :: l.quantity >= 0
    ensures QtyOf(KeepPositive(cart), x) == QtyOf(cart, x)
  {
    if cart != [] {
      assert cart[0] in cart;
      var head := if cart[0].quantity > 0 then [cart[0]] else [];
      QtyOfAppend(head, KeepPositive(cart[1..]), x);
      QtyOfKeepPositive(cart[1..], x);
    }
  }

  lemma {:induction false} QtyOfRemoveLine(cart: seq<CartItem>, id: int, x: int)
    ensures QtyOf(RemoveLine(cart, id), x) == if x == id then 0 else QtyOf(cart, x)
  {
    if cart != [] {
      var head := if cart[0].id != id then [cart[0]] else [];
      QtyOfAppend(head, RemoveLine(cart[1..], id), x);
      QtyOfRemoveLine(cart[1..], id, x);
    }
  }

  /** Adding product `p` reserves exactly one more unit of `p` and nothing else. */
  lemma QtyOfAddLine(cart: seq<CartItem>, p: Product, x: int)
    requires UniqueLineIds(cart)
    ensures QtyOf(AddLine(cart, p), x) == QtyOf(cart, x) + (if x == p.id then 1 else 0)
  {
    if InCart(cart, p.id) {
      QtyOfBump(cart, p.id, 1, x);
    } else {
      QtyOfAppend(cart, [NewLine(p)], x);
      assert QtyOf([NewLine(p)], x) == if x == p.id then 1 else 0;
    }
  }

  // ---------------------------------------------------------------------
  // Keying and positivity of the lines
  // ---------------------------------------------------------------------

  lemma UniqueCons(h: CartItem, rest: seq<CartItem>)
    requires UniqueLineIds(rest)
    requires forall l | l in rest :: l.id != h.id
    ensures UniqueLineIds([h] + rest)
  {
    var s := [h] + rest;
    forall i, j | 0 <= i < j < |s| ensures s[i].id != s[j].id {
      assert s[j] == rest[j - 1];
      if i > 0 {
        assert s[i] == rest[i - 1];
      } else {
        assert rest[j - 1] in rest;
      }
    }
  }

  lemma {:induction false} UniqueKeepPositive(cart: seq<CartItem>)
    requires UniqueLineIds(cart)
    ensures UniqueLineIds(KeepPositive(cart))
  {
    if cart != [] {
      var rest := KeepPositive(cart[1..]);
      UniqueKeepPositive(cart[1..]);
      if cart[0].quantity > 0 {
        forall l | l in rest ensures l.id != cart[0].id {
          var k :| 0 <= k < |cart[1..]| && cart[1..][k] == l;
          assert cart[k + 1] == l;
        }
        UniqueCons(cart[0], rest);
      } else {
        assert KeepPositive(cart) == rest;
      }
    }
  }

  lemma {:induction false} UniqueRemoveLine(cart: seq<CartItem>, id: int)
    requires UniqueLineIds(cart)
    ensures UniqueLineIds(RemoveLine(cart, id))
  {
    if cart != [] {
      var rest := RemoveLine(cart[1..], id);
      UniqueRemoveLine(cart[1..], id);
      if cart[0].id != id {
        forall l | l in rest ensures l.id != cart[0].id {
          var k :| 0 <= k < |cart[1..]| && cart[1..][k] == l;
          assert cart[k + 1] == l;
        }
        UniqueCons(cart[0], rest);
      } else {
        assert RemoveLine(cart, id) == rest;
      }
    }
  }

  /** When every line is positive, the filter of `decrement` keeps them all. */
  lemma {:induction false} KeepPositiveKeepsAll(cart: seq<CartItem>)
    requires PositiveLines(cart)
    ensures KeepPositive(cart) == cart
  {
    if cart != [] {
      assert cart[0] in cart;
      KeepPositiveKeepsAll(cart[1..]);
      assert [cart[0]] + cart[1..] == cart;
    }
  }

  /** Adding keeps the lines keyed by id and positive. */
  lemma AddLineKeepsLines(cart: seq<CartItem>, p: Product)
    requires UniqueLineIds(cart) && PositiveLines(cart)
    ensures UniqueLineIds(AddLine(cart, p)) && PositiveLines(AddLine(cart, p))
  {
    var r := AddLine(cart, p);
    if InCart(cart, p.id) {
      forall l | l in r ensures l.quantity >= 1 {
        var k :| 0 <= k < |r| && r[k] == l;
        assert cart[k] in cart;
      }
    } else {
      forall i, j | 0 <= i < j < |r| ensures r[i].id != r[j].id {
        assert r[i] == cart[i];
        if j < |cart| {
          assert r[j] == cart[j];
        } else {
          assert cart[i] in cart;
        }
      }
      forall l | l in r ensures l.quantity >= 1 {
        var k :| 0 <= k < |r| && r[k] == l;
        if k < |cart| {
          assert cart[k] in cart;
        }
      }
    }
  }

  /** With lines keyed by id, the line for `p.id` (if any) is `p`'s only line. */
  lemma LineOfProduct(products: seq<Product>, catalog: seq<Product>, p: Product, i: int)
    requires |products| == |catalog| && UniqueProductIds(catalog)
    requires forall k | 0 <= k < |products| :: products[k].id == catalog[k].id
    requires p in products && 0 <= i < |products| && products[i].id == p.id
    ensures products[i] == p
  {
    var k :| 0 <= k < |products| && products[k] == p;
    assert catalog[k].id == catalog[i].id;
  }

  // ---------------------------------------------------------------------
  // Every handler keeps the invariant
  // ---------------------------------------------------------------------

  /**
   * A successful `addToCart(p)`: one more unit of `p` in the cart and one
   * unit less in `p`'s stock keeps the collections consistent.
   */
  lemma AddKeepsConsistent(catalog: seq<Product>, products: seq<Product>, cart: seq<CartItem>, p: Product)
    requires Consistent(catalog, products, cart)
    requires p in products && p.stock > 0
    ensures Consistent(catalog, AdjustStock(products, p.id, -1), AddLine(cart, p))
  {
    var ps := AdjustStock(products, p.id, -1);
    var c := AddLine(cart, p);
    AddLineKeepsLines(cart, p);
    AddKeepsPrices(catalog, products, cart, p);
    forall i | 0 <= i < |ps|
      ensures ps[i].stock + QtyOf(c, ps[i].id) == catalog[i].stock
      ensures catalog[i].stock >= 0 ==> ps[i].stock >= 0
    {
      QtyOfAddLine(cart, p, products[i].id);
      if products[i].id == p.id {
        LineOfProduct(products, catalog, p, i);
      }
    }
  }

  /** A successful `increment(id)` on an existing line keeps the collections consistent. */
  lemma IncrementKeepsConsistent(catalog: seq<Product>, products: seq<Product>, cart: seq<CartItem>, id: int)
    requires Consistent(catalog, products, cart)
    requires InCart(cart, id) && Available(products, id)
    ensures Consistent(catalog, AdjustStock(products, id, -1), Bump(cart, id, 1))
  {
    var p := FindProduct(products, id).value;
    assert AddLine(cart, p) == Bump(cart, id, 1);
    AddKeepsConsistent(catalog, products, cart, p);
  }

  /** Decrementing keeps the cart keyed by id. */
  lemma UniqueDecrementLine(cart: seq<CartItem>, id: int)
    requires UniqueLineIds(cart)
    ensures UniqueLineIds(DecrementLine(cart, id))
  {
    var b := Bump(cart, id, -1);
    assert UniqueLineIds(b) by {
      forall i, j | 0 <= i < j < |b| ensures b[i].id != b[j].id {
        assert b[i].id == cart[i].id && b[j].id == cart[j].id;
      }
    }
    UniqueKeepPositive(b);
  }

  /** Moving stock and dropping or lowering lines keeps every line priced as its product. */
  lemma DecrementKeepsPrices(products: seq<Product>, cart: seq<CartItem>, id: int, delta: int)
    requires LinesPriced(products, cart)
    ensures LinesPriced(AdjustStock(products, id, delta), DecrementLine(cart, id))
  {
    var ps, b, c := AdjustStock(products, id, delta), Bump(cart, id, -1), DecrementLine(cart, id);
    forall l, i | l in c && 0 <= i < |ps| && ps[i].id == l.id ensures l.price == ps[i].price {
      var k :| 0 <= k < |b| && b[k] == l;
      assert cart[k] in cart;
    }
  }

  /** Adding a unit of a product as shown, and taking it from stock, keeps every line priced as its product. */
  lemma AddKeepsPrices(catalog: seq<Product>, products: seq<Product>, cart: seq<CartItem>, p: Product)
    requires |products| == |catalog| && UniqueProductIds(catalog)
    requires forall k | 0 <= k < |products| :: products[k].id == catalog[k].id
    requires LinesPriced(products, cart) && p in products
    ensures LinesPriced(AdjustStock(products, p.id, -1), AddLine(cart, p))
  {
    var ps, c := AdjustStock(products, p.id, -1), AddLine(cart, p);
    forall l, i | l in c && 0 <= i < |ps| && ps[i].id == l.id ensures l.price == ps[i].price {
      var k :| 0 <= k < |c| && c[k] == l;
      if k < |cart| {
        assert cart[k] in cart;
      } else {
        LineOfProduct(products, catalog, p, i);
      }
    }
  }

  /** Removing a line and moving stock keeps every line priced as its product. */
  lemma RemoveKeepsPrices(products: seq<Product>, cart: seq<CartItem>, id: int, delta: int)
    requires LinesPriced(products, cart)
    ensures LinesPriced(AdjustStock(products, id, delta), RemoveLine(cart, id))
  {
  }

  /**
   * `decrement(id)`: one unit less on the line (dropping it at zero) and, if
   * the line existed, one unit more in stock keeps the collections consistent;
   * on an id without a line nothing changes at all.
   */
  lemma DecrementKeepsConsistent(catalog: seq<Product>, products: seq<Product>, cart: seq<CartItem>, id: int)
    requires Consistent(catalog, products, cart)
    ensures !InCart(cart, id) ==> DecrementLine(cart, id) == cart
    ensures Consistent(catalog, if InCart(cart, id) then AdjustStock(products, id, 1) else products,
                       DecrementLine(cart, id))
  {
    var b := Bump(cart, id, -1);
    var c := DecrementLine(cart, id);
    assert forall l | l in b :: l.quantity >= 0 by {
      forall l | l in b ensures l.quantity >= 0 {
        var k :| 0 <= k < |b| && b[k] == l;
        assert cart[k] in cart;
      }
    }
    UniqueDecrementLine(cart, id);
    if !InCart(cart, id) {
      assert b == cart;
      KeepPositiveKeepsAll(cart);
    } else {
      DecrementKeepsPrices(products, cart, id, 1);
      var ps := AdjustStock(products, id, 1);
      forall i | 0 <= i < |ps|
        ensures ps[i].stock + QtyOf(c, ps[i].id) == catalog[i].stock
      {
        QtyOfKeepPositive(b, products[i].id);
        QtyOfBump(cart, id, -1, products[i].id);
      }
    }
  }

  /**
   * `removeFromCart(id)`: the line's whole quantity back into stock and the
   * line dropped keeps the collections consistent; an id without a line
   * changes nothing.
   */
  lemma RemoveKeepsConsistent(catalog: seq<Product>, products: seq<Product>, cart: seq<CartItem>, id: int)
    requires Consistent(catalog, products, cart)
    ensures !InCart(cart, id) ==> RemoveLine(cart, id) == cart
    ensures Consistent(catalog, if InCart(cart, id) then AdjustStock(products, id, LineQuantity(cart, id)) else products,
                       RemoveLine(cart, id))
  {
    var c := RemoveLine(cart, id);
    UniqueRemoveLine(cart, id);
    if !InCart(cart, id) {
      RemoveAbsent(cart, id);
    } else {
      var ps := AdjustStock(products, id, LineQuantity(cart, id));
      var l := FindLine(cart, id).value;
      forall i | 0 <= i < |ps|
        ensures ps[i].stock + QtyOf(c, ps[i].id) == catalog[i].stock
        ensures catalog[i].stock >= 0 ==> ps[i].stock >= 0
      {
        QtyOfRemoveLine(cart, id, products[i].id);
        QtyOfIsLineQuantity(cart, products[i].id);
      }
    }
  }

  lemma {:induction false} RemoveAbsent(cart: seq<CartItem>, id: int)
    requires forall l | l in cart :: l.id != id
    ensures RemoveLine(cart, id) == cart
  {
    if cart != [] {
      assert cart[0] in cart;
      RemoveAbsent(cart[1..], id);
      assert [cart[0]] + cart[1..] == cart;
    }
  }

  lemma {:induction false} RemoveLineAppend(a: seq<CartItem>, b: seq<CartItem>, id: int)
    ensures RemoveLine(a + b, id) == RemoveLine(a, id) + RemoveLine(b, id)
  {
    if a == [] {
      assert a + b == b;
    } else {
      assert (a + b)[1..] == a[1..] + b;
      RemoveLineAppend(a[1..], b, id);
    }
  }

  /** Removing an id that occurs on one line only, between lines of other ids, leaves those lines in order. */
  lemma RemoveLineSplit(front: seq<CartItem>, x: CartItem, back: seq<CartItem>, id: int)
    requires forall l | l in front :: l.id != id
    requires forall l | l in back :: l.id != id
    requires x.id == id
    ensures RemoveLine(front + [x] + back, id) == front + back
  {
    var mid := [x];
    assert RemoveLine(mid, id) == [] by {
      assert mid[1..] == [];
    }
    RemoveAbsent(front, id);
    RemoveAbsent(back, id);
    RemoveLineAppend(front, mid, id);
    RemoveLineAppend(front + mid, back, id);
    assert RemoveLine(front + mid, id) == front;
  }

  /** With lines keyed by id, removing the line at `k` drops exactly that line and keeps the others in order. */
  lemma RemoveLineAt(cart: seq<CartItem>, id: int, k: int)
    requires UniqueLineIds(cart) && 0 <= k < |cart| && cart[k].id == id
    ensures RemoveLine(cart, id) == cart[..k] + cart[k + 1..]
  {
    var front, back := cart[..k], cart[k + 1..];
    forall l | l in front ensures l.id != id {
      var j :| 0 <= j < k && front[j] == l;
      assert cart[j] == l;
    }
    forall l | l in back ensures l.id != id {
      var j :| 0 <= j < |back| && back[j] == l;
      assert cart[k + 1 + j] == l;
    }
    assert cart == front + [cart[k]] + back;
    RemoveLineSplit(front, cart[k], back, id);
  }

  lemma {:induction false} KeepPositiveAppend(a: seq<CartItem>, b: seq<CartItem>)
    ensures KeepPositive(a + b) == KeepPositive(a) + KeepPositive(b)
  {
    if a == [] {
      assert a + b == b;
    } else {
      assert (a + b)[1..] == a[1..] + b;
      KeepPositiveAppend(a[1..], b);
    }
  }

  /** With lines keyed by id, `Bump` changes the one line of that id and no other. */
  lemma BumpAt(cart: seq<CartItem>, id: int, delta: int, k: int)
    requires UniqueLineIds(cart) && 0 <= k < |cart| && cart[k].id == id
    ensures Bump(cart, id, delta) == cart[k := cart[k].(quantity := cart[k].quantity + delta)]
  {
  }

  /** Dropping the lines without units, when only one line between positive ones has none. */
  lemma KeepPositiveSplit(front: seq<CartItem>, x: CartItem, back: seq<CartItem>)
    requires PositiveLines(front) && PositiveLines(back) && x.quantity <= 0
    ensures KeepPositive(front + [x] + back) == front + back
  {
    var mid := [x];
    assert KeepPositive(mid) == [] by {
      assert mid[1..] == [];
    }
    KeepPositiveKeepsAll(front);
    KeepPositiveKeepsAll(back);
    KeepPositiveAppend(front, mid);
    KeepPositiveAppend(front + mid, back);
    assert KeepPositive(front + mid) == front;
  }

  /**
   * With lines keyed by id and positive, `decrement` on the line at `k`
   * lowers that line by one in place, or drops exactly that line when it
   * held a single unit; the other lines keep their order.
   */
  lemma DecrementAt(cart: seq<CartItem>, id: int, k: int)
    requires UniqueLineIds(cart) && PositiveLines(cart)
    requires 0 <= k < |cart| && cart[k].id == id
    ensures cart[k].quantity > 1 ==>
      DecrementLine(cart, id) == cart[k := cart[k].(quantity := cart[k].quantity - 1)]
    ensures cart[k].quantity == 1 ==> DecrementLine(cart, id) == cart[..k] + cart[k + 1..]
  {
    var b := Bump(cart, id, -1);
    BumpAt(cart, id, -1, k);
    if cart[k].quantity > 1 {
      assert PositiveLines(b) by {
        forall l | l in b ensures l.quantity >= 1 {
          var j :| 0 <= j < |b| && b[j] == l;
          assert cart[j] in cart;
        }
      }
      KeepPositiveKeepsAll(b);
    } else if cart[k].quantity == 1 {
      var front, back := cart[..k], cart[k + 1..];
      assert PositiveLines(front) by {
        forall l | l in front ensures l in cart { }
      }
      assert PositiveLines(back) by {
        forall l | l in back ensures l in cart { }
      }
      assert b == front + [b[k]] + back;
      KeepPositiveSplit(front, b[k], back);
    }
  }

  /**
   * `clearCart`: giving every product back the quantity of its line restores
   * the catalog exactly, and the empty cart is consistent with it.
   */
  lemma ClearRestoresCatalog(catalog: seq<Product>, products: seq<Product>, cart: seq<CartItem>)
    requires Consistent(catalog, products, cart)
    ensures RestoreAll(products, cart) == catalog
    ensures Consistent(catalog, catalog, [])
  {
    var r := RestoreAll(products, cart);
    forall i | 0 <= i < |r| ensures r[i] == catalog[i] {
      QtyOfIsLineQuantity(cart, products[i].id);
    }
  }

  // ---------------------------------------------------------------------
  // Round trip and the derived values
  // ---------------------------------------------------------------------

  /** `increment(id)` followed by `decrement(id)` restores both collections. */
  lemma DecrementUndoesIncrement(products: seq<Product>, cart: seq<CartItem>, id: int)
    requires PositiveLines(cart) && InCart(cart, id)
    ensures DecrementLine(Bump(cart, id, 1), id) == cart
    ensures AdjustStock(AdjustStock(products, id, -1), id, 1) == products
  {
    var up := Bump(cart, id, 1);
    assert Bump(up, id, -1) == cart;
    KeepPositiveKeepsAll(cart);
    var ps := AdjustStock(AdjustStock(products, id, -1), id, 1);
    assert forall i | 0 <= i < |ps| :: ps[i] == products[i];
  }

  lemma {:induction false} CountAppend(a: seq<CartItem>, b: seq<CartItem>)
    ensures Count(a + b) == Count(a) + Count(b)
    ensures Total(a + b) == Total(a) + Total(b)
  {
    if a == [] {
      assert a + b == b;
    } else {
      assert (a + b)[1..] == a[1..] + b;
      CountAppend(a[1..], b);
    }
  }

  lemma {:induction false} CountBump(cart: seq<CartItem>, p: Product)
    requires UniqueLineIds(cart) && InCart(cart, p.id)
    requires forall l | l in cart && l.id == p.id :: l.price == p.price
    ensures Count(Bump(cart, p.id, 1)) == Count(cart) + 1
    ensures Total(Bump(cart, p.id, 1)) == Total(cart) + p.price
  {
    var b := Bump(cart, p.id, 1);
    assert b[1..] == Bump(cart[1..], p.id, 1);
    assert cart[0] in cart;
    if cart[0].id == p.id {
      assert forall l | l in cart[1..] :: l.id != p.id by {
        forall l | l in cart[1..] ensures l.id != p.id {
          var k :| 0 <= k < |cart[1..]| && cart[1..][k] == l;
          assert cart[k + 1] == l;
        }
      }
      BumpAbsent(cart[1..], p.id);
      assert b[0].price * b[0].quantity == cart[0].price * cart[0].quantity + p.price;
    } else {
      var l := FindLine(cart, p.id).value;
      assert l in cart[1..];
      assert FindLine(cart[1..], p.id).Some?;
      CountBump(cart[1..], p);
    }
  }

  lemma BumpAbsent(cart: seq<CartItem>, id: int)
    requires forall l | l in cart :: l.id != id
    ensures Bump(cart, id, 1) == cart
  {
    forall i | 0 <= i < |cart| ensures Bump(cart, id, 1)[i] == cart[i] {
      assert cart[i] in cart;
    }
  }

  /**
   * Adding one unit of `p` raises the badge count by one and the total by
   * `p`'s price (lines of `p` carry `p`'s price, as lines copy the product).
   */
  lemma CountAndTotalAfterAdd(cart: seq<CartItem>, p: Product)
    requires UniqueLineIds(cart)
    requires forall l | l in cart && l.id == p.id :: l.price == p.price
    ensures Count(AddLine(cart, p)) == Count(cart) + 1
    ensures Total(AddLine(cart, p)) == Total(cart) + p.price
  {
    if InCart(cart, p.id) {
      CountBump(cart, p);
    } else {
      CountAppend(cart, [NewLine(p)]);
    }
  }
}
