/**
 * The cart as a value: an ordered sequence of line items and the changes
 * the storefront makes to it. Each function here is the whole-value
 * effect of one operation (read the stored cart, change it, write it
 * back); the class in module Store performs them on the stored cart.
 */
module Cart {
  import opened Options
  import opened Catalog

  /** One cart line; title, price and image are copied from the product when it is added. */
  datatype LineItem = LineItem(id: int, title: string, price: int, img: string, qty: int)

  function NewLine(p: Product, qty: int): LineItem
  {
    LineItem(p.id, p.title, p.price, p.img, qty)
  }

  /** The same line with quantity `q`. */
  function WithQty(item: LineItem, q: int): (r: LineItem)
  {
    item.(qty := q)
  }

  predicate Contains(c: seq<LineItem>, id: int)
  {
    exists i :: 0 <= i < |c| && c[i].id == id
  }

  /** At most one line per product id. */
  predicate UniqueIds(c: seq<LineItem>)
  {
    forall i, j :: 0 <= i < j < |c| ==> c[i].id != c[j].id
  }

  /** Every line has a quantity of at least one. */
  predicate PositiveQty(c: seq<LineItem>)
  {
    forall i :: 0 <= i < |c| ==> c[i].qty >= 1
  }

  predicate WellFormed(c: seq<LineItem>)
  {
    UniqueIds(c) && PositiveQty(c)
  }

  /** Line `item` carries the catalog data of product `p`. */
  predicate Describes(p: Product, item: LineItem)
  {
    item.id == p.id && item.title == p.title && item.price == p.price && item.img == p.img
  }

  /** Every line is for a product of `ps` and copies its title, price and image. */
  predicate FromCatalog(ps: seq<Product>, c: seq<LineItem>)
  {
    forall i :: 0 <= i < |c| ==> FindIn(ps, c[i].id).Some? && Describes(FindIn(ps, c[i].id).value, c[i])
  }

  /** Position of the first line with the given id (`cart.find`). */
  function IndexOf(c: seq<LineItem>, id: int): (r: Option<nat>)
    ensures r.None? <==> !Contains(c, id)
    ensures r.Some? ==> r.value < |c| && c[r.value].id == id
    ensures r.Some? ==> forall j :: 0 <= j < r.value ==> c[j].id != id
  {
    if c == [] then None
    else if c[0].id == id then Some(0)
    else match IndexOf(c[1..], id)
      case None =>
        assert forall j :: 1 <= j < |c| ==> c[j] == c[1..][j - 1];
        None
      case Some(k) => Some(k + 1)
  }

  /** In a cart with unique ids, the line found is the only line with that id. */
  lemma {:induction false} IndexOfUnique(c: seq<LineItem>, id: int, k: nat)
    requires UniqueIds(c) && k < |c| && c[k].id == id
    ensures IndexOf(c, id) == Some(k)
  {
  }

  /** A line with the id at `k` and none before it is the one `IndexOf` finds. */
  lemma {:induction false} IndexOfFirst(c: seq<LineItem>, id: int, k: nat)
    requires k < |c| && c[k].id == id
    requires forall j :: 0 <= j < k ==> c[j].id != id
    ensures IndexOf(c, id) == Some(k)
  {
    if k > 0 {
      IndexOfFirst(c[1..], id, k - 1);
    }
  }

  /** Merges `qty` of product `p` into its line, or appends a new line at the end. */
  function AddProduct(c: seq<LineItem>, p: Product, qty: int): seq<LineItem>
  {
    match IndexOf(c, p.id)
    case Some(k) => c[k := WithQty(c[k], c[k].qty + qty)]
    case None => c + [NewLine(p, qty)]
  }

  /** `addToCart(productId, qty)`: unknown products are ignored; a known one is merged or appended. */
  function Add(ps: seq<Product>, c: seq<LineItem>, id: int, qty: int): seq<LineItem>
  {
    match FindIn(ps, id)
    case None => c
    case Some(p) => AddProduct(c, p, qty)
  }

  /**
   * An unknown id leaves the cart as it was; a known id already in the cart
   * raises that line's quantity by `qty`, keeping the length and every
   * other line; a known id not yet in the cart appends one new line at the end.
   */
  lemma {:induction false} AddSpec(ps: seq<Product>, c: seq<LineItem>, id: int, qty: int)
    ensures var r := Add(ps, c, id, qty);
      (FindIn(ps, id).None? ==> r == c) &&
      (FindIn(ps, id).Some? && Contains(c, id) ==>
        var k := IndexOf(c, id).value;
        |r| == |c| && r[k] == WithQty(c[k], c[k].qty + qty) &&
        forall i :: 0 <= i < |c| && i != k ==> r[i] == c[i]) &&
      (FindIn(ps, id).Some? && !Contains(c, id) ==> r == c + [NewLine(FindIn(ps, id).value, qty)])
  {
    var found := FindIn(ps, id);
    if found.Some? {
      var p := found.value;
      assert p.id == id;
      assert Add(ps, c, id, qty) == AddProduct(c, p, qty);
      if Contains(c, id) {
        AddMerges(c, p, qty, IndexOf(c, id).value);
      } else {
        AddAppends(c, p, qty);
      }
    }
  }

  lemma {:induction false} AddMerges(c: seq<LineItem>, p: Product, qty: int, k: nat)
    requires IndexOf(c, p.id) == Some(k)
    ensures AddProduct(c, p, qty) == c[k := WithQty(c[k], c[k].qty + qty)]
  {
  }

  lemma {:induction false} AddAppends(c: seq<LineItem>, p: Product, qty: int)
    requires !Contains(c, p.id)
    ensures AddProduct(c, p, qty) == c + [NewLine(p, qty)]
  {
  }

  /** `removeFromCart(productId)`: keeps exactly the lines with another id. */
  function Remove(c: seq<LineItem>, id: int): (r: seq<LineItem>)
    ensures |r| <= |c|
  {
    if c == [] then []
    else (if c[0].id != id then [c[0]] else []) + Remove(c[1..], id)
  }

  function Max(a: int, b: int): int { if a >= b then a else b }

  /** `changeQty(productId, newQty)`: the first matching line gets `max(1, newQty)`. */
  function SetQty(c: seq<LineItem>, id: int, newQty: int): (r: seq<LineItem>)
    ensures !Contains(c, id) ==> r == c
    ensures Contains(c, id) ==>
      var k := IndexOf(c, id).value;
      |r| == |c| && r[k] == WithQty(c[k], Max(1, newQty)) &&
      forall i :: 0 <= i < |c| && i != k ==> r[i] == c[i]
  {
    match IndexOf(c, id)
    case None => c
    case Some(k) => c[k := WithQty(c[k], Max(1, newQty))]
  }

  /** Quantity of the first line with the given id. */
  function QtyOf(c: seq<LineItem>, id: int): int
    requires Contains(c, id)
  {
    c[IndexOf(c, id).value].qty
  }

  /** The "+" button: `changeQty(id, qty + 1)`; the line must exist. */
  function Increment(c: seq<LineItem>, id: int): seq<LineItem>
    requires Contains(c, id)
  {
    SetQty(c, id, QtyOf(c, id) + 1)
  }

  /** The "-" button: a line of quantity 1 or less is removed, otherwise lowered by one. */
  function Decrement(c: seq<LineItem>, id: int): seq<LineItem>
  {
    match IndexOf(c, id)
    case None => c
    case Some(k) => if c[k].qty <= 1 then Remove(c, id) else SetQty(c, id, c[k].qty - 1)
  }

  /** The "Buy now" button: empty the cart, then add one of the product. */
  function BuyNow(ps: seq<Product>, id: int): seq<LineItem>
  {
    Add(ps, [], id, 1)
  }

  // ----- Properties of the operations -----

  /** Filtering keeps exactly the lines whose id differs. */
  lemma {:induction false} RemoveMembers(c: seq<LineItem>, id: int)
    ensures forall x :: x in Remove(c, id) <==> x in c && x.id != id
  {
    if c != [] {
      RemoveMembers(c[1..], id);
      assert c == [c[0]] + c[1..];
    }
  }

  /** Filtering decides line by line and keeps the order of the lines it keeps, whatever the cart holds. */
  lemma {:induction false} RemoveAppend(a: seq<LineItem>, b: seq<LineItem>, id: int)
    ensures Remove(a + b, id) == Remove(a, id) + Remove(b, id)
  {
    if a == [] {
      assert a + b == b;
    } else {
      assert (a + b)[1..] == a[1..] + b;
      RemoveAppend(a[1..], b, id);
    }
  }

  /** Removing a line that is present drops just that line and keeps the rest in order. */
  lemma {:induction false} RemoveAt(c: seq<LineItem>, id: int, k: nat)
    requires UniqueIds(c) && k < |c| && c[k].id == id
    ensures Remove(c, id) == c[..k] + c[k + 1..]
  {
    assert UniqueIds(c[1..]);
    if k == 0 {
      assert !Contains(c[1..], id) by {
        assert forall j :: 0 <= j < |c| - 1 ==> c[1..][j] == c[j + 1];
      }
      RemoveAbsent(c[1..], id);
    } else {
      assert c[0].id != id;
      RemoveAt(c[1..], id, k - 1);
      assert c[..k] == [c[0]] + c[1..][..k - 1];
      assert c[k + 1..] == c[1..][k..];
    }
  }

  /** Removing an id that is absent changes nothing. */
  lemma {:induction false} RemoveAbsent(c: seq<LineItem>, id: int)
    requires !Contains(c, id)
    ensures Remove(c, id) == c
  {
    if c != [] {
      assert !Contains(c[1..], id) by {
        assert forall j :: 0 <= j < |c| - 1 ==> c[1..][j] == c[j + 1];
      }
      RemoveAbsent(c[1..], id);
    }
  }

  /** Filtering keeps unique ids and positive quantities, and leaves no line with the id. */
  lemma {:induction false} RemoveKeepsInvariants(c: seq<LineItem>, id: int)
    ensures WellFormed(c) ==> WellFormed(Remove(c, id))
    ensures !Contains(Remove(c, id), id)
  {
    var r := Remove(c, id);
    RemoveMembers(c, id);
    assert forall i :: 0 <= i < |r| ==> r[i] in r;
    if WellFormed(c) {
      RemoveUnique(c, id);
    }
  }

  /** Filtering keeps every line's catalog data. */
  lemma {:induction false} RemoveKeepsCatalog(ps: seq<Product>, c: seq<LineItem>, id: int)
    requires FromCatalog(ps, c)
    ensures FromCatalog(ps, Remove(c, id))
  {
    var r := Remove(c, id);
    RemoveMembers(c, id);
    assert forall i :: 0 <= i < |r| ==> r[i] in r;
  }

  lemma {:induction false} RemoveUnique(c: seq<LineItem>, id: int)
    requires UniqueIds(c)
    ensures UniqueIds(Remove(c, id))
  {
    if c != [] {
      assert UniqueIds(c[1..]);
      RemoveUnique(c[1..], id);
      RemoveMembers(c[1..], id);
      var rest := Remove(c[1..], id);
      if c[0].id != id {
        assert forall x :: x in rest ==> x.id != c[0].id by {
          forall x | x in rest ensures x.id != c[0].id {
            var m :| 0 <= m < |c[1..]| && c[1..][m] == x;
            assert c[m + 1] == x;
          }
        }
        assert forall j :: 0 <= j < |rest| ==> rest[j] in rest;
      }
    }
  }

  /** Adding keeps one line per id; with a positive quantity it keeps every quantity positive. */
  lemma {:induction false} AddKeepsInvariants(ps: seq<Product>, c: seq<LineItem>, id: int, qty: int)
    ensures UniqueIds(c) ==> UniqueIds(Add(ps, c, id, qty))
    ensures PositiveQty(c) && qty >= 1 ==> PositiveQty(Add(ps, c, id, qty))
    ensures FromCatalog(ps, c) ==> FromCatalog(ps, Add(ps, c, id, qty))
  {
    var r := Add(ps, c, id, qty);
    if FindIn(ps, id).Some? && !Contains(c, id) {
      assert r[|c|].id == id;
    }
  }

  /** Changing a quantity keeps the invariants: the new quantity is at least one. */
  lemma {:induction false} SetQtyKeepsInvariants(c: seq<LineItem>, id: int, newQty: int)
    ensures WellFormed(c) ==> WellFormed(SetQty(c, id, newQty))
    ensures PositiveQty(c) ==> PositiveQty(SetQty(c, id, newQty))
  {
  }

  /** Changing a quantity keeps every line's catalog data. */
  lemma {:induction false} SetQtyKeepsCatalog(ps: seq<Product>, c: seq<LineItem>, id: int, newQty: int)
    requires FromCatalog(ps, c)
    ensures FromCatalog(ps, SetQty(c, id, newQty))
  {
  }

  /** "+" replaces the line by the same line with one more, touches nothing else and keeps the cart well-formed. */
  lemma {:induction false} IncrementSpec(c: seq<LineItem>, id: int)
    requires WellFormed(c) && Contains(c, id)
    ensures var k := IndexOf(c, id).value;
      Increment(c, id) == c[k := WithQty(c[k], c[k].qty + 1)] && WellFormed(Increment(c, id))
  {
    var k := IndexOf(c, id).value;
    assert c[k].qty >= 1;
    UpdateKeepsWellFormed(c, k, c[k].qty + 1);
  }

  /** Giving one line a new positive quantity keeps the cart well-formed. */
  lemma {:induction false} UpdateKeepsWellFormed(c: seq<LineItem>, k: nat, q: int)
    requires WellFormed(c) && k < |c| && q >= 1
    ensures WellFormed(c[k := WithQty(c[k], q)])
  {
  }

  /**
   * "-" removes the line when its quantity is at most one and otherwise
   * lowers it by exactly one; the invariants survive either way.
   */
  lemma {:induction false} DecrementSpec(c: seq<LineItem>, id: int)
    requires WellFormed(c) && Contains(c, id)
    ensures var r := Decrement(c, id); var k := IndexOf(c, id).value;
      (c[k].qty <= 1 ==> r == c[..k] + c[k + 1..] && !Contains(r, id)) &&
      (c[k].qty > 1 ==> r == c[k := WithQty(c[k], c[k].qty - 1)]) &&
      WellFormed(r)
  {
    var k := IndexOf(c, id).value;
    if c[k].qty <= 1 {
      RemoveAt(c, id, k);
      RemoveKeepsInvariants(c, id);
    } else {
      UpdateKeepsWellFormed(c, k, c[k].qty - 1);
    }
  }

  /** Adding `a` and then `b` of a product is the same as adding `a + b` at once: lines merge, never duplicate. */
  lemma {:induction false} AddAccumulates(ps: seq<Product>, c: seq<LineItem>, id: int, a: int, b: int)
    ensures Add(ps, Add(ps, c, id, a), id, b) == Add(ps, c, id, a + b)
  {
    if FindIn(ps, id).Some? {
      var p := FindIn(ps, id).value;
      assert p.id == id;
      if Contains(c, id) {
        MergeTwice(c, p, a, b, IndexOf(c, id).value);
      } else {
        AppendThenMerge(c, p, a, b);
      }
    }
  }

  lemma {:induction false} MergeTwice(c: seq<LineItem>, p: Product, a: int, b: int, k: nat)
    requires IndexOf(c, p.id) == Some(k)
    ensures AddProduct(AddProduct(c, p, a), p, b) == AddProduct(c, p, a + b)
  {
    var once := c[k := WithQty(c[k], c[k].qty + a)];
    AddMerges(c, p, a, k);
    IndexOfFirst(once, p.id, k);
    AddMerges(once, p, b, k);
    AddMerges(c, p, a + b, k);
  }

  lemma {:induction false} AppendThenMerge(c: seq<LineItem>, p: Product, a: int, b: int)
    requires !Contains(c, p.id)
    ensures AddProduct(AddProduct(c, p, a), p, b) == AddProduct(c, p, a + b)
  {
    var once := c + [NewLine(p, a)];
    AddAppends(c, p, a);
    IndexOfFirst(once, p.id, |c|);
    AddMerges(once, p, b, |c|);
    AddAppends(c, p, a + b);
  }

  /** "Buy now" leaves exactly one line, for that product with quantity 1, or nothing if unknown. */
  lemma {:induction false} BuyNowSpec(ps: seq<Product>, id: int)
    ensures FindIn(ps, id).Some? ==> BuyNow(ps, id) == [NewLine(FindIn(ps, id).value, 1)]
    ensures FindIn(ps, id).None? ==> BuyNow(ps, id) == []
    ensures WellFormed(BuyNow(ps, id)) && FromCatalog(ps, BuyNow(ps, id))
  {
    AddKeepsInvariants(ps, [], id, 1);
  }
}
