/**
 * The static product catalog and the catalog page's filter: a product is
 * shown when it is in the chosen category (or the category is "all") and
 * its lower-cased title contains the lower-cased search text.
 */
module Catalog {
  import opened Options
  import opened Strings

  datatype Product = Product(id: int, title: string, price: int, category: string, img: string)

  /** The six products of the gallery, in display order (prices in rupees). */
  const Products: seq<Product> := [
    Product(1, "Ancient Roman Coin \U{2014} 500 BC Edition", 12000, "coins", "https://via.placeholder.com/600x420?text=Roman+Coin"),
    Product(2, "Carved Stone Vessel \U{2014} Mughal Replica", 8500, "vessels", "https://via.placeholder.com/600x420?text=Stone+Vessel"),
    Product(3, "Bronze Temple Figure", 17500, "figures", "https://via.placeholder.com/600x420?text=Bronze+Figure"),
    Product(4, "Miniature Monument Replica", 2400, "decor", "https://via.placeholder.com/600x420?text=Mini+Monument"),
    Product(5, "Vintage Oil Lamp", 1800, "decor", "https://via.placeholder.com/600x420?text=Oil+Lamp"),
    Product(6, "Colonial Wooden Chest (Restored)", 9200, "furniture", "https://via.placeholder.com/600x420?text=Wooden+Chest")
  ]

  /** First product of `ps` with the given id, as `Array.prototype.find` returns it. */
  function FindIn(ps: seq<Product>, id: int): (r: Option<Product>)
    ensures r.None? <==> forall i :: 0 <= i < |ps| ==> ps[i].id != id
    ensures r.Some? ==> r.value in ps && r.value.id == id
  {
    if ps == [] then None
    else if ps[0].id == id then Some(ps[0])
    else FindIn(ps[1..], id)
  }

  /** `PRODUCTS.find(p => p.id === id)`: the catalog lookup by id. */
  function FindProduct(id: int): Option<Product>
  {
    FindIn(Products, id)
  }

  /** Every product has a positive price. */
  predicate PositivePrices(ps: seq<Product>)
  {
    forall i :: 0 <= i < |ps| ==> ps[i].price > 0
  }

  /** Product `i` of the catalog has id `i + 1`, so the ids are 1 to 6, each once. */
  lemma {:induction false} CatalogIds()
    ensures |Products| == 6
    ensures forall i :: 0 <= i < |Products| ==> Products[i].id == i + 1
  {
  }

  /** The catalog lookup succeeds exactly for ids 1 to 6 and then returns the product at position `id - 1`. */
  lemma {:induction false} FindProductSpec(id: int)
    ensures FindProduct(id).Some? <==> 1 <= id <= 6
    ensures FindProduct(id).Some? ==> FindProduct(id).value == Products[id - 1]
  {
    CatalogIds();
    if 1 <= id <= 6 {
      assert Products[id - 1].id == id;
    }
  }

  /** Every catalog price is positive. */
  lemma {:induction false} CatalogPrices()
    ensures PositivePrices(Products)
  {
  }

  /** The search text actually used: the field's value lower-cased, or nothing. */
  function SearchTerm(value: string): string
  {
    if value == "" then "" else ToLower(value)
  }

  /** The category actually used: the field's value, or "all" when empty. */
  function CategoryTerm(value: string): string
  {
    if value == "" then "all" else value
  }

  /** The filter predicate of the products page, on the effective search and category. */
  predicate Shown(p: Product, search: string, cat: string)
  {
    !(cat != "all" && p.category != cat) && !(search != "" && !Includes(ToLower(p.title), search))
  }

  /** `PRODUCTS.filter(...)` for the given field values: order is kept, membership is exact. */
  function FilterProducts(ps: seq<Product>, searchValue: string, catValue: string): (r: seq<Product>)
    ensures |r| <= |ps|
    ensures forall p :: p in r <==> p in ps && Shown(p, SearchTerm(searchValue), CategoryTerm(catValue))
  {
    if ps == [] then []
    else
      var rest := FilterProducts(ps[1..], searchValue, catValue);
      if Shown(ps[0], SearchTerm(searchValue), CategoryTerm(catValue)) then [ps[0]] + rest else rest
  }

  /** Filtering works product by product and keeps catalog order: filtering a concatenation concatenates the filtered parts. */
  lemma {:induction false} FilterAppend(a: seq<Product>, b: seq<Product>, searchValue: string, catValue: string)
    ensures FilterProducts(a + b, searchValue, catValue) ==
            FilterProducts(a, searchValue, catValue) + FilterProducts(b, searchValue, catValue)
  {
    if a == [] {
      assert a + b == b;
    } else {
      assert (a + b)[1..] == a[1..] + b;
      FilterAppend(a[1..], b, searchValue, catValue);
    }
  }

  /** With both fields empty, every product is listed, in catalog order. */
  lemma {:induction false} UnfilteredListsAll(ps: seq<Product>, catValue: string)
    requires catValue == "" || catValue == "all"
    ensures FilterProducts(ps, "", catValue) == ps
  {
    if ps != [] {
      UnfilteredListsAll(ps[1..], catValue);
    }
  }

  /** The search is case-insensitive: upper- and lower-case text select the same products. */
  lemma {:induction false} SearchIgnoresCase(ps: seq<Product>, searchValue: string, catValue: string)
    ensures FilterProducts(ps, ToLower(searchValue), catValue) == FilterProducts(ps, searchValue, catValue)
  {
    ToLowerIdempotent(searchValue);
    assert SearchTerm(ToLower(searchValue)) == SearchTerm(searchValue);
    if ps != [] {
      SearchIgnoresCase(ps[1..], searchValue, catValue);
    }
  }

}
