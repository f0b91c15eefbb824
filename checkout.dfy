/**
 * Checkout: the six required form fields are trimmed and must all be
 * non-empty; the order records the trimmed fields, the cart as it was and
 * its prices. Also the confirmation page's choice of which order id to show.
 */
module Checkout {
  import opened Options
  import opened Strings
  import opened Catalog
  import opened Cart
  import opened Pricing
  import opened Format

  /** The raw values of the checkout form's required fields. */
  datatype Form = Form(fullName: string, phone: string, email: string, address: string, city: string, state: string)

  /** The order record stored as the last order. */
  datatype Order = Order(
    id: string, name: string, phone: string, email: string, address: string, city: string, state: string,
    items: seq<LineItem>, subtotal: int, shipping: int, total: int, createdAt: string)

  /** Some required field holds nothing but whitespace. */
  predicate HasBlankField(f: Form)
  {
    AllWhitespace(f.fullName) || AllWhitespace(f.phone) || AllWhitespace(f.email) ||
    AllWhitespace(f.address) || AllWhitespace(f.city) || AllWhitespace(f.state)
  }

  /**
   * `handleCheckoutSubmit` without its effects: the order it would record,
   * or None when a trimmed field is empty. There is no empty-cart check.
   */
  function PlaceOrder(cart: seq<LineItem>, f: Form, id: string, createdAt: string): (r: Option<Order>)
    ensures r.None? <==> HasBlankField(f)
    ensures r.Some? ==>
      var o := r.value;
      o.id == id && o.createdAt == createdAt && o.items == cart &&
      o.name == Trim(f.fullName) && o.phone == Trim(f.phone) && o.email == Trim(f.email) &&
      o.address == Trim(f.address) && o.city == Trim(f.city) && o.state == Trim(f.state) &&
      o.name != [] && o.phone != [] && o.email != [] && o.address != [] && o.city != [] && o.state != [] &&
      o.subtotal == Subtotal(cart) &&
      (o.shipping == FlatShipping <==> o.subtotal > 0) && (o.shipping == 0 <==> o.subtotal <= 0) &&
      o.total == o.subtotal + o.shipping
  {
    TrimEmptyIffBlank(f.fullName);
    TrimEmptyIffBlank(f.phone);
    TrimEmptyIffBlank(f.email);
    TrimEmptyIffBlank(f.address);
    TrimEmptyIffBlank(f.city);
    TrimEmptyIffBlank(f.state);
    var fullname, phone, email := Trim(f.fullName), Trim(f.phone), Trim(f.email);
    var address, city, state := Trim(f.address), Trim(f.city), Trim(f.state);
    if fullname == [] || phone == [] || email == [] || address == [] || city == [] || state == [] then
      None
    else
      var subtotal := Subtotal(cart);
      Some(Order(id, fullname, phone, email, address, city, state, cart,
                 subtotal, Shipping(subtotal), subtotal + Shipping(subtotal), createdAt))
  }

  /** For a cart of catalog lines, an order is charged shipping exactly when it holds items. */
  lemma {:induction false} OrderShipping(ps: seq<Product>, cart: seq<LineItem>, f: Form, id: string, createdAt: string)
    requires PositivePrices(ps) && WellFormed(cart) && FromCatalog(ps, cart)
    requires !HasBlankField(f)
    ensures var o := PlaceOrder(cart, f, id, createdAt).value;
      o.shipping == (if cart == [] then 0 else FlatShipping) && o.total == Total(cart)
  {
    ShippingChargedIffNonEmpty(ps, cart);
  }

  /** With no items and every field filled in, an order is still placed, for nothing: there is no empty-cart check. */
  lemma {:induction false} EmptyCartOrder(f: Form, id: string, createdAt: string)
    requires !HasBlankField(f)
    ensures var r := PlaceOrder([], f, id, createdAt);
      r.Some? && r.value.items == [] && r.value.subtotal == 0 && r.value.shipping == 0 && r.value.total == 0
  {
  }

  /**
   * The order id the confirmation page shows: the non-empty query
   * parameter, else the non-empty id of the last stored order, else a dash.
   */
  function ConfirmationId(query: Option<string>, last: Option<Order>): (r: string)
    ensures query.Some? && query.value != "" ==> r == query.value
    ensures (query.None? || query.value == "") && last.Some? && last.value.id != "" ==> r == last.value.id
    ensures (query.None? || query.value == "") && (last.None? || last.value.id == "") ==> r == "\U{2014}"
  {
    var fromQuery := if query.Some? && query.value != "" then query.value else "";
    var orderId := if fromQuery != "" then fromQuery
                   else if last.Some? && last.value.id != "" then last.value.id
                   else "";
    if orderId != "" then orderId else "\U{2014}"
  }

  /** An order whose id carries the `VAG-` prefix is what the confirmation page shows, whichever way it is found. */
  lemma {:induction false} ConfirmationShowsOrder(o: Order)
    requires |o.id| > 4 && o.id[..4] == "VAG-"
    ensures ConfirmationId(Some(o.id), None) == o.id && ConfirmationId(None, Some(o)) == o.id
    ensures o.id != "\U{2014}"
  {
    assert o.id[0] == 'V';
  }

  /** After a checkout the confirmation page shows the new order's id, with or without the query. */
  lemma {:induction false} ConfirmationShowsNewOrder(cart: seq<LineItem>, f: Form, t: LocalTime, u: real, createdAt: string)
    requires ValidTime(t) && 0.0 <= u < 1.0 && !HasBlankField(f)
    ensures var o := PlaceOrder(cart, f, GenerateOrderId(t, u), createdAt).value;
      ConfirmationId(Some(o.id), None) == o.id && ConfirmationId(None, Some(o)) == o.id &&
      o.id != "\U{2014}"
  {
    ConfirmationShowsOrder(PlaceOrder(cart, f, GenerateOrderId(t, u), createdAt).value);
  }
}
