/**
 * The stored cart and last order, and the operations that change them.
 * Each operation reads the whole stored cart, changes the copy and writes
 * it back; every write also refreshes the header's item counter.
 */
module Store {
  import opened Options
  import opened Catalog
  import opened Cart
  import opened Pricing
  import opened Format
  import opened Checkout

  class CartStore {
    /** The product list the page is built with. */
    const catalog: seq<Product>
    /** The value stored under the cart key (empty when nothing is stored). */
    var cart: seq<LineItem>
    /** The value stored under the last-order key. */
    var lastOrder: Option<Order>
    /** The item count the page header shows. */
    var headerCount: int

    /** The page is loaded over what storage holds; loading fills in the header counter. */
    constructor (stored: seq<LineItem>, last: Option<Order>)
      ensures catalog == Products
      ensures cart == stored && lastOrder == last && headerCount == Count(stored)
    {
      catalog := Products;
      cart := stored;
      lastOrder := last;
      headerCount := Count(stored);
    }

    /** The header shows the current item count. */
    predicate CounterFresh()
      reads this
    {
      headerCount == Count(cart)
    }

    /** `updateCartCount()`. */
    method UpdateCartCount()
      modifies this
      ensures cart == old(cart) && lastOrder == old(lastOrder) && CounterFresh()
    {
      headerCount := Count(cart);
    }

    /** `writeCart(c)`: replace the stored cart, then refresh the counter. */
    method WriteCart(c: seq<LineItem>)
      modifies this
      ensures cart == c && lastOrder == old(lastOrder) && CounterFresh()
    {
      cart := c;
      UpdateCartCount();
    }

    /** `addToCart(productId, qty)`. */
    method AddToCart(id: int, qty: int)
      modifies this
      ensures cart == Add(catalog, old(cart), id, qty) && lastOrder == old(lastOrder)
      ensures FindIn(catalog, id).Some? ==> CounterFresh()
      ensures FindIn(catalog, id).None? ==> headerCount == old(headerCount)
      ensures WellFormed(old(cart)) && qty >= 1 ==> WellFormed(cart)
      ensures FromCatalog(catalog, old(cart)) ==> FromCatalog(catalog, cart)
    {
      AddKeepsInvariants(catalog, cart, id, qty);
      var prod := FindIn(catalog, id);
      if prod.None? {
        return;
      }
      var p := prod.value;
      assert Add(catalog, cart, id, qty) == AddProduct(cart, p, qty);
      var c := cart;
      var found := IndexOf(c, p.id);
      if found.Some? {
        var k := found.value;
        c := c[k := WithQty(c[k], c[k].qty + qty)];
        assert c == AddProduct(cart, p, qty);
      } else {
        c := c + [NewLine(p, qty)];
        assert c == AddProduct(cart, p, qty);
      }
      WriteCart(c);
    }

    /** `removeFromCart(productId)`: always writes, even when nothing matched. */
    method RemoveFromCart(id: int)
      modifies this
      ensures cart == Remove(old(cart), id) && !Contains(cart, id)
      ensures lastOrder == old(lastOrder) && CounterFresh()
      ensures WellFormed(old(cart)) ==> WellFormed(cart)
      ensures FromCatalog(catalog, old(cart)) ==> FromCatalog(catalog, cart)
    {
      RemoveKeepsInvariants(cart, id);
      if FromCatalog(catalog, cart) {
        RemoveKeepsCatalog(catalog, cart, id);
      }
      var c := Remove(cart, id);
      WriteCart(c);
    }

    /** `changeQty(productId, newQty)`: writes only when a line matched. */
    method ChangeQty(id: int, newQty: int)
      modifies this
      ensures cart == SetQty(old(cart), id, newQty) && lastOrder == old(lastOrder)
      ensures Contains(old(cart), id) ==> CounterFresh()
      ensures !Contains(old(cart), id) ==> headerCount == old(headerCount)
      ensures WellFormed(old(cart)) ==> WellFormed(cart)
      ensures FromCatalog(catalog, old(cart)) ==> FromCatalog(catalog, cart)
    {
      SetQtyKeepsInvariants(cart, id, newQty);
      if FromCatalog(catalog, cart) {
        SetQtyKeepsCatalog(catalog, cart, id, newQty);
      }
      var c := cart;
      var found := IndexOf(c, id);
      if found.None? {
        return;
      }
      var k := found.value;
      c := c[k := WithQty(c[k], Max(1, newQty))];
      WriteCart(c);
    }

    /** `clearCart()`: drop the stored cart and refresh the counter. */
    method ClearCart()
      modifies this
      ensures cart == [] && lastOrder == old(lastOrder) && headerCount == 0
    {
      cart := [];
      UpdateCartCount();
    }

    /** The "Add to Cart" button: add one, then refresh the counter. */
    method ClickAdd(id: int)
      modifies this
      ensures cart == Add(catalog, old(cart), id, 1) && lastOrder == old(lastOrder) && CounterFresh()
      ensures WellFormed(old(cart)) ==> WellFormed(cart)
      ensures FromCatalog(catalog, old(cart)) ==> FromCatalog(catalog, cart)
    {
      AddToCart(id, 1);
      UpdateCartCount();
    }

    /** The "Buy Now" button: empty the cart, add one of the product, refresh the counter. */
    method ClickBuy(id: int)
      modifies this
      ensures cart == BuyNow(catalog, id) && lastOrder == old(lastOrder) && CounterFresh()
      ensures WellFormed(cart) && FromCatalog(catalog, cart)
      ensures FindIn(catalog, id).Some? ==> |cart| == 1 && cart[0].id == id && cart[0].qty == 1
    {
      WriteCart([]);
      AddToCart(id, 1);
      UpdateCartCount();
      BuyNowSpec(catalog, id);
    }

    /** The "+" button; the source fails at run time when the line is missing. */
    method ClickInc(id: int)
      requires Contains(cart, id)
      modifies this
      ensures cart == Increment(old(cart), id) && lastOrder == old(lastOrder) && CounterFresh()
      ensures WellFormed(old(cart)) ==> WellFormed(cart) && Count(cart) == Count(old(cart)) + 1
      ensures FromCatalog(catalog, old(cart)) ==> FromCatalog(catalog, cart)
    {
      ghost var before := cart;
      ChangeQty(id, QtyOf(cart, id) + 1);
      assert cart == Increment(before, id);
      if WellFormed(before) {
        IncrementSpec(before, id);
        StepCounts(before, id);
      }
    }

    /** The "-" button: remove a line of quantity one or less, otherwise lower it by one. */
    method ClickDec(id: int)
      modifies this
      ensures cart == Decrement(old(cart), id) && lastOrder == old(lastOrder)
      ensures Contains(old(cart), id) ==> CounterFresh()
      ensures !Contains(old(cart), id) ==> headerCount == old(headerCount)
      ensures WellFormed(old(cart)) ==> WellFormed(cart)
      ensures WellFormed(old(cart)) && Contains(old(cart), id) ==> Count(cart) == Count(old(cart)) - 1
      ensures FromCatalog(catalog, old(cart)) ==> FromCatalog(catalog, cart)
    {
      var c := cart;
      var found := IndexOf(c, id);
      if found.None? {
        return;
      }
      var k := found.value;
      if WellFormed(c) {
        DecrementSpec(c, id);
        StepCounts(c, id);
      }
      if c[k].qty <= 1 {
        RemoveFromCart(id);
      } else {
        ChangeQty(id, c[k].qty - 1);
      }
    }

    /** The "Remove" button. */
    method ClickRemove(id: int)
      modifies this
      ensures cart == Remove(old(cart), id) && !Contains(cart, id)
      ensures lastOrder == old(lastOrder) && CounterFresh()
      ensures WellFormed(old(cart)) ==> WellFormed(cart)
      ensures FromCatalog(catalog, old(cart)) ==> FromCatalog(catalog, cart)
    {
      RemoveFromCart(id);
    }

    /** The "Clear cart" button: clears only when the user confirms the prompt. */
    method ClickClear(confirmed: bool)
      modifies this
      ensures cart == (if confirmed then [] else old(cart)) && lastOrder == old(lastOrder)
      ensures headerCount == (if confirmed then 0 else old(headerCount))
    {
      if confirmed {
        ClearCart();
      }
    }

    /**
     * `handleCheckoutSubmit`: with a blank field nothing changes and there
     * is no redirect; otherwise the order is stored as the last order, the
     * cart is cleared, the counter shows zero and the redirect carries the
     * new order id. The clock reading and the random draw are parameters.
     */
    method SubmitCheckout(f: Form, t: LocalTime, u: real, createdAt: string) returns (redirect: Option<string>)
      requires ValidTime(t) && 0.0 <= u < 1.0
      modifies this
      ensures var placed := PlaceOrder(old(cart), f, GenerateOrderId(t, u), createdAt);
        if placed.None? then
          redirect.None? && cart == old(cart) && lastOrder == old(lastOrder) && headerCount == old(headerCount)
        else
          redirect == Some(placed.value.id) && lastOrder == placed && cart == [] && headerCount == 0
      ensures HasBlankField(f) <==> redirect.None?
    {
      var placed := PlaceOrder(cart, f, GenerateOrderId(t, u), createdAt);
      if placed.None? {
        redirect := None;
        return;
      }
      lastOrder := placed;
      cart := [];
      UpdateCartCount();
      redirect := Some(placed.value.id);
    }
  }
}
