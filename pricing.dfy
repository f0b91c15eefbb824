/**
 * Pricing of a cart: item count and subtotal are left folds over the
 * lines, shipping is a flat 200 whenever the subtotal is positive, and
 * the total adds the two.
 */
module Pricing {
  import opened Options
  import opened Catalog
  import opened Cart

  /** The flat shipping fee, in the same unit as prices. */
  const FlatShipping: int := 200

  /** `getCartCount`: sum of the quantities, accumulated left to right. */
  function Count(c: seq<LineItem>): int
  {
    if c == [] then 0 else Count(c[..|c| - 1]) + c[|c| - 1].qty
  }

  /** `getCartSubtotal`: sum of price times quantity, accumulated left to right. */
  function Subtotal(c: seq<LineItem>): int
  {
    if c == [] then 0 else Subtotal(c[..|c| - 1]) + c[|c| - 1].price * c[|c| - 1].qty
  }

  function Shipping(subtotal: int): int
  {
    if subtotal > 0 then FlatShipping else 0
  }

  function Total(c: seq<LineItem>): int
  {
    Subtotal(c) + Shipping(Subtotal(c))
  }

  lemma {:induction false} SumsOfAppend(a: seq<LineItem>, b: seq<LineItem>)
    ensures Count(a + b) == Count(a) + Count(b)
    ensures Subtotal(a + b) == Subtotal(a) + Subtotal(b)
  {
    if b != [] {
      assert (a + b)[..|a + b| - 1] == a + b[..|b| - 1];
      SumsOfAppend(a, b[..|b| - 1]);
    } else {
      assert a + b == a;
    }
  }

  /** Replacing one line changes the sums by the difference of that line alone. */
  lemma {:induction false} SumsOfUpdate(c: seq<LineItem>, k: nat, item: LineItem)
    requires k < |c|
    ensures Count(c[k := item]) == Count(c) - c[k].qty + item.qty
    ensures Subtotal(c[k := item]) == Subtotal(c) - c[k].price * c[k].qty + item.price * item.qty
  {
    assert c == c[..k] + [c[k]] + c[k + 1..];
    assert c[k := item] == c[..k] + [item] + c[k + 1..];
    SumsOfAppend(c[..k] + [c[k]], c[k + 1..]);
    SumsOfAppend(c[..k] + [item], c[k + 1..]);
    SumsOfAppend(c[..k], [c[k]]);
    SumsOfAppend(c[..k], [item]);
  }

  /** A cart of well-formed catalog lines counts at least one per line, and its subtotal is positive unless empty. */
  lemma {:induction false} SumsOfValidCart(ps: seq<Product>, c: seq<LineItem>)
    requires PositivePrices(ps) && WellFormed(c) && FromCatalog(ps, c)
    ensures Count(c) >= |c|
    ensures Subtotal(c) >= 0
    ensures Subtotal(c) > 0 <==> c != []
  {
    if c != [] {
      var last := c[|c| - 1];
      assert FindIn(ps, last.id).Some?;
      assert last.price > 0 && last.qty >= 1;
      assert last.price * last.qty > 0;
      SumsOfValidCart(ps, c[..|c| - 1]);
    }
  }

  /** Shipping is charged exactly when the cart holds something; the total adds it to the subtotal. */
  lemma {:induction false} ShippingChargedIffNonEmpty(ps: seq<Product>, c: seq<LineItem>)
    requires PositivePrices(ps) && WellFormed(c) && FromCatalog(ps, c)
    ensures Shipping(Subtotal(c)) == (if c == [] then 0 else FlatShipping)
    ensures Total(c) == 0 <==> c == []
    ensures c != [] ==> Total(c) == Subtotal(c) + FlatShipping
  {
    SumsOfValidCart(ps, c);
  }

  /** Adding `qty` of a known product raises the count by `qty` and the subtotal by price times `qty`. */
  lemma {:induction false} AddSums(ps: seq<Product>, c: seq<LineItem>, id: int, qty: int)
    requires FromCatalog(ps, c)
    ensures FindIn(ps, id).None? ==> Count(Add(ps, c, id, qty)) == Count(c)
    ensures FindIn(ps, id).Some? ==>
      Count(Add(ps, c, id, qty)) == Count(c) + qty &&
      Subtotal(Add(ps, c, id, qty)) == Subtotal(c) + FindIn(ps, id).value.price * qty
  {
    var found := FindIn(ps, id);
    if found.Some? {
      var p := found.value;
      if Contains(c, id) {
        var k := IndexOf(c, id).value;
        assert c[k].price == p.price;
      }
      AddProductSums(c, p, qty);
    }
  }

  lemma {:induction false} AddProductSums(c: seq<LineItem>, p: Product, qty: int)
    requires Contains(c, p.id) ==> c[IndexOf(c, p.id).value].price == p.price
    ensures Count(AddProduct(c, p, qty)) == Count(c) + qty
    ensures Subtotal(AddProduct(c, p, qty)) == Subtotal(c) + p.price * qty
  {
    if Contains(c, p.id) {
      var k := IndexOf(c, p.id).value;
      AddMerges(c, p, qty, k);
      MergeSums(c, k, qty);
    } else {
      AddAppends(c, p, qty);
      SumsOfAppend(c, [NewLine(p, qty)]);
      assert Count([NewLine(p, qty)]) == qty;
    }
  }

  lemma {:induction false} MergeSums(c: seq<LineItem>, k: nat, qty: int)
    requires k < |c|
    ensures Count(c[k := WithQty(c[k], c[k].qty + qty)]) == Count(c) + qty
    ensures Subtotal(c[k := WithQty(c[k], c[k].qty + qty)]) == Subtotal(c) + c[k].price * qty
  {
    SumsOfUpdate(c, k, WithQty(c[k], c[k].qty + qty));
    Distribute(c[k].price, c[k].qty, qty);
  }

  lemma {:induction false} Distribute(a: int, b: int, d: int)
    ensures a * (b + d) == a * b + a * d
  {
  }

  /** Removing a present line lowers the count and the subtotal by that line's share. */
  lemma {:induction false} RemoveSums(c: seq<LineItem>, id: int, k: nat)
    requires UniqueIds(c) && k < |c| && c[k].id == id
    ensures Count(Remove(c, id)) == Count(c) - c[k].qty
    ensures Subtotal(Remove(c, id)) == Subtotal(c) - c[k].price * c[k].qty
  {
    RemoveAt(c, id, k);
    assert c == c[..k] + [c[k]] + c[k + 1..];
    SumsOfAppend(c[..k] + [c[k]], c[k + 1..]);
    SumsOfAppend(c[..k], [c[k]]);
    SumsOfAppend(c[..k], c[k + 1..]);
  }

  /** Each press of "+" or "-" moves the item count by exactly one. */
  lemma {:induction false} StepCounts(c: seq<LineItem>, id: int)
    requires WellFormed(c) && Contains(c, id)
    ensures Count(Increment(c, id)) == Count(c) + 1
    ensures Count(Decrement(c, id)) == Count(c) - 1
  {
    var k := IndexOf(c, id).value;
    IncrementSpec(c, id);
    SumsOfUpdate(c, k, WithQty(c[k], c[k].qty + 1));
    DecrementSpec(c, id);
    if c[k].qty <= 1 {
      RemoveSums(c, id, k);
    } else {
      SumsOfUpdate(c, k, WithQty(c[k], c[k].qty - 1));
    }
  }
}
