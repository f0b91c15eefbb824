# Vishnu's Antiq Gallary storefront: cart and checkout model

This project is a Dafny model of the cart and checkout logic of the
gallery's storefront script, `main.js`. Each part of the script becomes
one module:

- **Catalog** (`catalog.dfy`) holds the six products of the gallery and the
  lookup by id. It also holds the products page's filter: a product is shown
  when its category matches the chosen one (or the choice is "all"), and its
  lower-cased title contains the lower-cased search text.
- **Cart** (`cart.dfy`) treats the cart as a value: an ordered sequence of
  line items `{id, title, price, img, qty}`. Each function is the
  whole-cart effect of one operation:
  - add (merge into the existing line, or append);
  - remove (filter out);
  - set quantity (floored at 1);
  - the "+", "-" and "Buy now" buttons.

  The lemmas prove two invariants, *one line per product id* and *every
  quantity at least one*, and prove that lines keep the catalog's title,
  price and image.
- **Pricing** (`pricing.dfy`):
  - the item count and the subtotal are left folds, as `reduce` computes them;
  - shipping is a flat 200 exactly when the subtotal is positive;
  - the total is the subtotal plus shipping.

  Lemmas relate each cart operation to how it moves the count and the
  subtotal.
- **Format** (`format.dfy`) covers three formats:
  - the order identifier `VAG-YYYYMMDD-HHMMSS-XXXX`, built from the date and
    time fields and a random draw;
  - thousands grouping of amounts;
  - HTML entity escaping.
- **Checkout** (`checkout.dfy`) has two parts:
  - the submission's validation and the order it records: six trimmed
    required fields, a snapshot of the cart and its prices;
  - the confirmation page's choice of which order id to show.
- **Store** (`store.dfy`) has the class `CartStore`. Its fields are what the
  page keeps: the stored cart, the stored last order, and the item count
  shown in the header. Its methods mirror the script's functions and
  click-handler branches. Each method reads the whole cart, changes it and
  writes it back; every write refreshes the header count. Each method is
  specified by the pure function from module Cart, so that
  `cart == Add(catalog, old(cart), id, qty)`, and it keeps the invariants.
- **Strings** (`strings.dfy`) and **Options** (`options.dfy`) are support
  modules for the JavaScript built-ins the script relies on:
  - `String(n)`;
  - `padStart(2, '0')`;
  - `trim` with the ECMAScript whitespace set;
  - `toLowerCase`;
  - `includes`.

Date and time fields, the `Math.random()` draw, the ISO time stamp and the
answer to the "Clear entire cart?" prompt are parameters. Product ids are
integers, and prices and quantities are unbounded integers.

## Model

| member | source | states |
|---|---|---|
| Catalog.FindIn | main.js:40 | the lookup finds nothing exactly when no product has the id; what it finds is a product of the list with that id |
| Catalog.FindProduct | main.js:40 | `PRODUCTS.find` by id: the first catalog product with the id, or nothing; its behaviour on the six products is stated by Catalog.FindProductSpec |
| Catalog.CatalogIds | main.js:14-21 | the catalog has six products and product `i` has id `i + 1`, so ids are unique |
| Catalog.FindProductSpec | main.js:14-21 | the lookup succeeds exactly for ids 1 to 6 and returns the product in position `id - 1` |
| Catalog.CatalogPrices | main.js:14-21 | every catalog price is positive |
| Catalog.SearchTerm | main.js:100 | the search text used: the field's value lower-cased, or empty when the field is empty |
| Catalog.CategoryTerm | main.js:101 | the category used: the field's value, or "all" when the field is empty |
| Catalog.Shown | main.js:103-106 | a product passes unless a category other than "all" is chosen and differs from its own, or a non-empty search text does not occur in its lower-cased title |
| Catalog.FilterProducts | main.js:100-107 | a product is listed exactly when it is in the catalog and passes the category test and the case-insensitive title search; never more products than the catalog |
| Catalog.FilterAppend | main.js:103-107 | filtering decides product by product and keeps catalog order: the filter of a concatenation is the concatenation of the filters |
| Catalog.UnfilteredListsAll | main.js:100-107 | with an empty search and category empty or "all", every product is listed in catalog order |
| Catalog.SearchIgnoresCase | main.js:100-105 | lower-casing the search text first does not change the result |
| Strings.NatToString | main.js:333 | the decimal rendering is non-empty, all digits, has no leading zero, and is one character exactly for values below 10 |
| Strings.NatToStringRoundTrip | main.js:333 | reading the rendered digits gives back the number |
| Strings.NatToStringWidth | main.js:334 | a number between 10^(k-1) and 10^k is rendered with exactly k digits |
| Strings.IntToString | main.js:334 | `String(getFullYear())`: the decimal rendering of the year, with a minus sign in front when negative |
| Strings.Pad2 | main.js:333 | padding yields at least two digits; for values below 100, exactly two digits that read back as the value |
| Strings.TrimStart | main.js:186-191 | the result is a suffix of the input, the dropped prefix is all whitespace, and the result does not start with whitespace |
| Strings.TrimEnd | main.js:186-191 | the result is a prefix of the input, the dropped suffix is all whitespace, and the result does not end with whitespace |
| Strings.Trim | main.js:186-191 | `trim`: leading whitespace dropped (Strings.TrimStart), then trailing whitespace (Strings.TrimEnd); its emptiness test and ends are stated by Strings.TrimEmptyIffBlank and Strings.TrimEnds |
| Strings.TrimEmptyIffBlank | main.js:186-193 | a trimmed field is empty exactly when the raw field is all whitespace |
| Strings.TrimEnds | main.js:186-191 | a non-empty trimmed field neither starts nor ends with whitespace |
| Strings.ToLowerIdempotent | main.js:100 | lower-casing twice is lower-casing once |
| Strings.ToLower | main.js:100 | `toLowerCase`: same length, each character mapped on its own, `A`-`Z` to `a`-`z` and every other character kept |
| Strings.Includes | main.js:105 | the substring test is true exactly when the text occurs at some position |
| Cart.IndexOf | main.js:43 | the first line with the id is found when one exists, and no earlier line has the id; nothing is found exactly when no line has it |
| Cart.IndexOfUnique | main.js:43 | in a cart with one line per id, the line with the id is the one found |
| Cart.IndexOfFirst | main.js:43 | a line with the id preceded by none is the one found |
| Cart.NewLine | main.js:47 | the new line copies the product's id, title, price and image, with the quantity added |
| Cart.AddProduct | main.js:43-47 | raise the found line's quantity by `qty`, or append a new line; its behaviour is stated by Cart.AddSpec |
| Cart.Add | main.js:39-49 | `addToCart`: an unknown id leaves the cart alone, a known product is merged or appended; stated by Cart.AddSpec, Cart.AddKeepsInvariants and Cart.AddAccumulates |
| Cart.AddSpec | main.js:39-49 | an unknown product leaves the cart unchanged; a product already in the cart gains `qty` on its line, with the length and every other line kept; a new product is appended as one line at the end |
| Cart.AddKeepsInvariants | main.js:39-49 | adding keeps one line per id, keeps quantities positive when `qty` is positive, and keeps lines faithful to the catalog |
| Cart.AddAccumulates | main.js:39-49 | adding `a` and then `b` of a product equals adding `a + b` once: lines merge and are never duplicated |
| Cart.MergeTwice | main.js:43-45 | two merges into an existing line equal one merge of the sum |
| Cart.AppendThenMerge | main.js:43-47 | an append followed by a merge equals one append of the sum |
| Cart.Remove | main.js:54-57 | `cart.filter(i => i.id !== id)`: removing never lengthens the cart; which lines stay and in what order is stated by Cart.RemoveMembers and Cart.RemoveAppend |
| Cart.RemoveAppend | main.js:56 | for any cart, duplicates included, filtering decides line by line and keeps the relative order of the kept lines: removal from a concatenation is the concatenation of the removals |
| Cart.RemoveMembers | main.js:56 | the result holds exactly the lines of the cart whose id differs |
| Cart.RemoveAt | main.js:54-57 | in a cart with one line per id, removing a present id drops exactly that line and keeps the rest in order |
| Cart.RemoveAbsent | main.js:56 | removing an absent id changes nothing |
| Cart.RemoveKeepsInvariants | main.js:54-57 | after removal no line has the id, and a well-formed cart stays well-formed |
| Cart.RemoveKeepsCatalog | main.js:56 | removal keeps lines faithful to the catalog |
| Cart.RemoveUnique | main.js:56 | removal keeps one line per id |
| Cart.SetQty | main.js:61-66 | an absent id leaves the cart unchanged; otherwise the found line gets quantity `max(1, newQty)`, with the length and every other line kept |
| Cart.SetQtyKeepsInvariants | main.js:61-66 | setting a quantity keeps one line per id and positive quantities |
| Cart.SetQtyKeepsCatalog | main.js:63-65 | setting a quantity keeps lines faithful to the catalog |
| Cart.UpdateKeepsWellFormed | main.js:65 | giving one line a positive quantity keeps the cart well-formed |
| Cart.QtyOf | main.js:263 | the quantity of the first line with the id, which must exist |
| Cart.Increment | main.js:262-263 | the "+" branch: `changeQty(id, qty + 1)` on a present line; stated by Cart.IncrementSpec |
| Cart.Decrement | main.js:265-274 | the "-" branch: nothing for an absent id, removal at quantity one or less, otherwise `changeQty(id, qty - 1)`; stated by Cart.DecrementSpec |
| Cart.BuyNow | main.js:256-259 | the "buy" branch: empty the cart, then add one of the product; stated by Cart.BuyNowSpec |
| Cart.IncrementSpec | main.js:262-263 | "+" replaces the line by the same line with one more and keeps the cart well-formed |
| Cart.DecrementSpec | main.js:265-274 | "-" removes the line (keeping the others in order) when its quantity is at most one, otherwise lowers it by exactly one; the cart stays well-formed |
| Cart.BuyNowSpec | main.js:256-259 | "Buy now" leaves exactly one line, for the product with quantity 1, or an empty cart for an unknown id; either way well-formed and faithful to the catalog |
| Pricing.Count | main.js:77-79 | `getCartCount`: the quantities summed left to right from 0; additive over concatenation (Pricing.SumsOfAppend) |
| Pricing.Subtotal | main.js:80-82 | `getCartSubtotal`: price times quantity summed left to right from 0; additive over concatenation (Pricing.SumsOfAppend) |
| Pricing.Shipping | main.js:174 | 200 when the subtotal is positive, otherwise 0 |
| Pricing.Total | main.js:175 | the subtotal plus its shipping; zero exactly for an empty catalog cart (Pricing.ShippingChargedIffNonEmpty) |
| Pricing.SumsOfAppend | main.js:77-82 | count and subtotal of a concatenation are the sums of the parts |
| Pricing.SumsOfUpdate | main.js:77-82 | replacing one line moves count and subtotal by that line's difference alone |
| Pricing.SumsOfValidCart | main.js:80-82 | for a well-formed catalog cart, the count is at least the number of lines, and the subtotal is non-negative and positive exactly when the cart is non-empty |
| Pricing.ShippingChargedIffNonEmpty | main.js:173-175 | for a well-formed catalog cart, shipping is 200 exactly when the cart is non-empty, and the total is zero exactly when the cart is empty |
| Pricing.AddSums | main.js:39-49 | adding an unknown product keeps the count; adding `qty` of a known product raises the count by `qty` and the subtotal by price times `qty` |
| Pricing.AddProductSums | main.js:43-47 | merging or appending `qty` of a product moves count and subtotal by `qty` and price times `qty` |
| Pricing.MergeSums | main.js:45 | raising one line's quantity moves count and subtotal by that line's share |
| Pricing.RemoveSums | main.js:54-57 | removing a present line lowers count and subtotal by that line's share |
| Pricing.StepCounts | main.js:262-274 | each "+" press raises the item count by one and each "-" press lowers it by one |
| Format.RandomSuffix | main.js:335 | the random suffix lies between 1000 and 9999 |
| Format.GenerateOrderId | main.js:330-337 | the identifier starts with `VAG-` |
| Format.DatePart | main.js:334 | the year followed by the 1-based month and the day, each padded to two digits |
| Format.ClockPart | main.js:334 | hours, minutes and seconds, each padded to two digits |
| Format.TimeStamp | main.js:334 | the date part, a dash, the clock part |
| Format.OrderIdFormat | main.js:330-337 | for a four-digit year the identifier is `VAG-`, 8 digits, `-`, 6 digits, `-`, 4 digits; the fields read back as year, 1-based month, day, hours, minutes, seconds and the suffix |
| Format.DateFields | main.js:334 | the date part is 8 digits reading as year, 1-based month and day |
| Format.ClockFields | main.js:334 | the clock part is 6 digits reading as hours, minutes and seconds |
| Format.SuffixField | main.js:335-336 | the suffix is written with exactly four digits that read back as its value |
| Format.Group | main.js:339 | a comma before every complete group of three digits counted from the right, none at the front; stated by Format.GroupShape and Format.GroupKeepsDigits |
| Format.NumberWithCommas | main.js:338-340 | `numberWithCommas`: the decimal digits of the amount grouped by three, a minus sign kept in front; stated by Format.NumberWithCommasRoundTrip |
| Format.GroupKeepsDigits | main.js:338-340 | grouping only inserts commas: removing them gives back the digits |
| Format.GroupShape | main.js:338-340 | in a grouped run of digits a comma stands exactly where a positive multiple of four characters remain, so every group after the first has three digits and the first has one to three |
| Format.NumberWithCommasRoundTrip | main.js:338-340 | a non-negative amount is rendered grouped, and with the commas removed it reads back as the amount |
| Format.ReplaceAllAppend | main.js:344-348 | a global single-character replacement distributes over concatenation |
| Format.ReplaceAllAbsent | main.js:344-348 | replacing an absent character changes nothing |
| Format.ReplaceAll | main.js:344-348 | `replace(/c/g, rep)`: every occurrence of the character, left to right, replaced by `rep`; stated by Format.ReplaceAllAppend and Format.ReplaceAllAbsent |
| Format.EscapeHtml | main.js:341-349 | `escapeHtml`: empty input gives empty output, otherwise the five replacements with `&` first; stated by Format.EscapeHtmlIsPerChar and Format.EscapeSafeAndReversible |
| Format.ChainAppend | main.js:343-348 | the five chained replacements distribute over concatenation |
| Format.ChainChar | main.js:343-348 | the chain turns each single character into its own entity (`&` first, so no double escaping) |
| Format.EscapeHtmlIsPerChar | main.js:341-349 | escaping equals escaping each character on its own (the reference definition) |
| Format.EscapeSafeAndReversible | main.js:341-349 | escaped text contains no `<`, `>`, `"` or `'`, and decoding the five entities gives back the input |
| Format.EscapeEachSafe | main.js:343-348 | per-character escaping leaves none of the four unsafe characters |
| Format.EscapeEachReversible | main.js:343-348 | decoding per-character escaping gives back the input |
| Format.UnescapeChar | main.js:343-348 | decoding one escaped character followed by any text gives the character followed by the decoded text |
| Checkout.HasBlankField | main.js:186-193 | some required field is all whitespace, so its trimmed value is empty (Strings.TrimEmptyIffBlank) |
| Checkout.PlaceOrder | main.js:182-208 | no order exactly when some required field is blank after trimming; otherwise the order has the given id and time stamp, the trimmed (non-empty) fields, the cart's items, its subtotal, shipping 200 exactly when the subtotal is positive, and total = subtotal + shipping |
| Checkout.OrderShipping | main.js:204-206 | for a well-formed catalog cart, the order charges shipping exactly when the cart is non-empty, and its total is the cart's total |
| Checkout.EmptyCartOrder | main.js:193-208 | an empty cart with all fields filled in still produces an order with no items and zero subtotal, shipping and total |
| Checkout.ConfirmationId | main.js:222-240 | the page shows the non-empty query id, else the non-empty last-order id, else a dash |
| Checkout.ConfirmationShowsOrder | main.js:225-239 | an id with the `VAG-` prefix is shown whether it comes from the query or from the last order |
| Checkout.ConfirmationShowsNewOrder | main.js:218-239 | after a checkout, the confirmation page shows the new order's id with or without the query parameter |
| Store.CartStore.constructor | main.js:26-32 | the page starts over the stored cart and last order with the header showing the stored item count; the catalog is the six products |
| Store.CartStore.UpdateCartCount | main.js:85-90 | the header shows the current item count; nothing else changes |
| Store.CartStore.WriteCart | main.js:33-36 | the stored cart is replaced and the header shows its count |
| Store.CartStore.AddToCart | main.js:39-51 | the stored cart becomes `Add(catalog, old cart, id, qty)`; the header is refreshed unless the product is unknown; the invariants and catalog faithfulness are kept |
| Store.CartStore.RemoveFromCart | main.js:54-58 | the stored cart becomes `Remove(old cart, id)` with no line for the id, always written; the invariants are kept |
| Store.CartStore.ChangeQty | main.js:61-67 | the stored cart becomes `SetQty(old cart, id, newQty)`; nothing is written when the id is absent; the invariants are kept |
| Store.CartStore.ClearCart | main.js:70-74 | the stored cart is empty and the header shows 0 |
| Store.CartStore.ClickAdd | main.js:251-255 | the cart gains one of the product and the header is fresh |
| Store.CartStore.ClickBuy | main.js:256-261 | the cart is exactly `BuyNow(catalog, id)`: one line with quantity 1 for a known product; well-formed and faithful to the catalog |
| Store.CartStore.ClickInc | main.js:262-264 | the cart becomes `Increment(old cart, id)`; a well-formed cart stays well-formed with its count up by one |
| Store.CartStore.ClickDec | main.js:265-275 | the cart becomes `Decrement(old cart, id)`; for a present line in a well-formed cart the count drops by one; an absent id changes nothing |
| Store.CartStore.ClickRemove | main.js:276-278 | the cart becomes `Remove(old cart, id)` with no line for the id and the header fresh; the invariants and catalog faithfulness are kept |
| Store.CartStore.ClickClear | main.js:283-290 | the cart is emptied only when the prompt is confirmed |
| Store.CartStore.SubmitCheckout | main.js:182-219 | with a blank field nothing changes and there is no redirect; otherwise the order is stored as the last order, the cart is emptied, the header shows 0 and the redirect carries the new order's id |

## Left out

- `localStorage`, `JSON.parse` and `JSON.stringify` (main.js:26-36) are not modelled as such. The stored cart and last order are fields of `CartStore`. The "malformed data reads as an empty cart" path depends on the parser and is not modelled.
- `Number(productId)`: the click handler passes the `data-id` string, and the script converts it with `Number`. The model takes ids as integers, so a non-numeric id is not modelled.
- Prices, quantities and amounts are unbounded integers. JavaScript's floating-point numbers, `NaN`, and the `i.qty || 0` fallback for a missing quantity are not modelled.
- Cart.Remove: its own contract is only the length bound; which lines are kept, and in what order, is stated by Cart.RemoveMembers and Cart.RemoveAppend rather than in the function's `ensures`.
- Strings.ToLower lower-cases only `A`–`Z`; the rest of Unicode case mapping is not modelled.
- Strings.Trim removes the ECMAScript whitespace and line-terminator characters listed in Strings.IsWhitespace, which include the whole Unicode `Zs` category of current Unicode versions; space separators added by a later Unicode version are not followed.
- DOM rendering (`renderProductsPage`, `renderCart`, the `innerHTML` templates) is not modelled. Neither are `alert`, `confirm`, `window.location` redirects, `URLSearchParams` or the event-listener wiring. Instead:
  - the header counter is the field `headerCount`;
  - the confirmation prompt is a boolean parameter;
  - the redirect is the return value of `SubmitCheckout`;
  - the query parameter is an `Option` argument.
- `new Date()`, `Math.random()` and `toISOString()` are parameters: a `LocalTime` of date and time fields, a real in [0, 1), and a time-stamp string.
- Format.OrderIdFormat states the 24-character layout only for four-digit years. For other years the identifier still starts with `VAG-` (Format.GenerateOrderId), but the date field is wider or narrower.
- Format.NumberWithCommas models the regex's effect on the decimal text of an integer. Fractional numbers and the regex engine are not modelled. Negative amounts keep their sign in front.
- Format.EscapeHtml takes a string. The `String(str)` conversion of other values, and `null` or `undefined` input, are not modelled. The empty string yields the empty string, as in the script.
- Store.CartStore.ClickInc requires the line to be present. The script fails at run time when it is absent (main.js:263).
- The script places an order even when the cart is empty (Checkout.EmptyCartOrder) and records no payment mode; the model does the same.
