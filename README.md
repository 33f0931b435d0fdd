# Stationery shop: catalog, coupons, checkout and carts

This project models the core of a small e-commerce system. The system has two
backends and a browser front end, and the model covers:

- **The FastAPI backend** (`backend/`):
  - the product catalog: listing with search, sort and paging, plus create,
    update and delete;
  - coupon validation;
  - `POST /orders/confirm`. It checks every line of an order against the stock,
    prices the lines, applies a coupon discount and writes the order, its items
    and the stock decrements.
- **The browser cart** (`frontend/scripts.js`):
  - the cart in local storage and the item-count badge;
  - the coupon the user applies;
  - the order payload sent at confirmation.
- **The Flask backend** (`ecommerce_project/backend/ecommerce_api/`):
  - a user's cart is an order in status `pending`;
  - checkout marks that order `completed`.

Modules:

| file | module | what it holds |
|---|---|---|
| `money.dfy` | `Wrappers`, `Money` | `Option`/`Result`; amounts in cents; ROUND_HALF_UP and the default half-even quantize; the two-decimal text form of `serialize_decimal` and its parser |
| `text.dfy` | `Text` | SQLite's ASCII `lower()`, its `LIKE` matcher with unescaped `%`/`_`, BINARY text order, JavaScript `trim()` |
| `models.dfy` | `Models` | the four tables (`products`, `coupons`, `orders`, `order_items`), their keys, UNIQUE columns and foreign keys |
| `schemas.dfy` | `Schemas` | the request validators: `UserCreate`, `ProductCreate`, `ProductUpdate`, `OrderCreate` |
| `coupons.dfy` | `Coupons` | the case-insensitive coupon lookup; `validate_coupon`; the coupon step and the discount of checkout |
| `checkout.dfy` | `Checkout` | the per-line checks of `confirm_order`, the subtotal/discount/total, the stock decrements |
| `catalog.dfy` | `Catalog` | `list_products`: query defaults, search filter, ordering, paging, serialization |
| `store.dfy` | `Store` | the FastAPI backend as a class over its tables: create/update/delete/list products and confirm an order |
| `browser_cart.dfy` | `BrowserCart` | `cartManager`, the badge, `couponManager`, the `orderManager.confirmOrder` payload, as a class over the cart lines and the applied coupon |
| `flask_orders.dfy` | `FlaskOrders` | the Flask `Order`/`OrderItem` records, their lookups, `to_dict` and the price-times-quantity totals |
| `cart_routes.dfy` | `CartRoutes` | the Flask cart and order routes, as a class over the order and item tables |

Modelling choices:

- **Money.** Money is a whole number of cents (`DECIMAL(10,2)`). A submitted
  Decimal is `Dec(coeff, scale)`, the number `coeff / 10^scale`.
- **Flask prices.** The Flask backend stores prices as floats; here they are
  integers. Its totals are exact sums of price times quantity.
- **Tables as sequences.** A table is a sequence in insertion order. Ids come
  from counters kept in the class and always lie above every stored id. A query's
  `.first()` returns the first matching row in table order.
- **Clock and authentication.** The clock (`datetime.utcnow()`) is a `now`
  parameter. In the Flask routes, the user that the token identifies is a
  `userId` parameter.

Behaviours of the code worth knowing:

- **Out of stock at confirmation.** `confirm_order` has an "out of stock" branch
  for a product with stock 0 (backend/app.py:333). The "insufficient stock" check
  runs before it, and the schema demands quantity ≥ 1. So "out of stock" is never
  returned for a validated request (`Checkout.NeverOutOfStock`).
- **Coupon messages.** `validate_coupon` has one reply for a code that is not
  found or inactive (backend/app.py:286-292) and another for an expired coupon.
- **Rounding of submitted prices.** The `ProductCreate` and `ProductUpdate`
  validators call `quantize(Decimal('0.01'))` in the default Decimal context
  (backend/schemas.py:39), which rounds half-even (`Money.QuantizeHalfEven`).
  Half-up is used only for order totals and in `serialize_decimal`.
- **Coupon expiry.** Validation treats a coupon as expired when
  `valid_until < now`. Checkout applies it only when `valid_until > now`. A coupon
  checked at its exact expiry instant is therefore valid at the endpoint and
  ignored at checkout (`Coupons.ValidatedCodeAtCheckout`).
- **Duplicate lines.** Stock is meant never to go negative. Yet each line is
  checked against the stock read before any decrement, so two lines for one
  product can overdraw it (`Checkout.DuplicateLinesOverdraw`).

## Model

| member | source | states |
|---|---|---|
| Money.RoundHalfUp | backend/app.py:357-361 | the result `r` is the nearest integer quotient of `n/d`, within half a unit; on a tie it rounds away from zero; the sign of the input is kept |
| Money.RoundHalfEven | backend/schemas.py:35-39 | nearest integer quotient of `n/d`, ties go to the even neighbour; a value of at least one unit rounds to at least 1 |
| Money.QuantizeHalfEven | backend/schemas.py:39 | the cents value lies within half a cent of the decimal; ties go to even; a value with two decimals or fewer is kept exactly; a value of at least 0.01 gives at least 1 cent |
| Money.Format | backend/app.py:49-51 | the text has a sign exactly for negative amounts, whole units of digits without leading zeros, a `.` third from the end and two digits after it |
| Money.Parse | backend/app.py:49-51 | a successful parse only reads text in the `d….dd` form |
| Money.FormatParseRoundTrip | backend/app.py:49-51 | parsing the two-decimal text of any amount of cents gives the same amount back |
| Text.Lower | backend/app.py:103-104 | `A`–`Z` become `a`–`z` and every other character is unchanged (SQLite's ASCII `lower`) |
| Text.LowerStr | backend/app.py:103-104 | same length, and every character is lowered |
| Text.Like | backend/app.py:103-104 | SQLite's LIKE with `%` and `_` unescaped and ASCII case ignored; its meaning is stated by LikeAnything, LikeLiteralPrefix, LikeAnyStart, LikeIsContains and UnderscoreMatchesAnyChar |
| Text.LikeAnything | backend/app.py:103-104 | the pattern `%` matches every name |
| Text.LikeLiteralPrefix | backend/app.py:103-104 | for a wildcard-free `q`, `q%` matches exactly the names that start with `q`, ignoring case |
| Text.LikeAnyStart | backend/app.py:103-104 | `%r` matches `s` exactly when `r` matches some suffix of `s` |
| Text.LikeIsContains | backend/app.py:102-104 | for a wildcard-free search term, `%q%` matches exactly the names that contain `q` ignoring ASCII case, in both directions |
| Text.UnderscoreMatchesAnyChar | backend/app.py:102-104 | an unescaped `_` in the search term matches any character: `abc` is listed for the search `a_c` but does not contain it |
| Text.LexLe | backend/app.py:116-119 | BINARY collation order on names, code point by code point; LexLeTotal and LexLeTrans prove it a total preorder |
| Text.LexLeTotal | backend/app.py:115-119 | any two names are ordered one way or the other |
| Text.LexLeTrans | backend/app.py:115-119 | the name order is transitive |
| Text.JsSpace | frontend/scripts.js:314 | the white-space set of `String.prototype.trim`; TrimStart, TrimEnd and Trim state what the trim removes |
| Text.TrimStart | frontend/scripts.js:314 | the result is a suffix of the input; every dropped character is white space; the result does not start with white space |
| Text.TrimEnd | frontend/scripts.js:314 | the result is a prefix of the input; every dropped character is white space; the result does not end with white space |
| Text.Trim | frontend/scripts.js:314 | the trimmed text is empty exactly when the input is all white space; otherwise it starts and ends with a non-space; it is a contiguous slice of the input and everything dropped before and after it is white space |
| Models.ProductIndex | backend/models.py:16-19 | the first row whose id matches, and none exactly when no row has that id |
| Models.ProductIndexUnique | backend/models.py:19 | with unique ids, the lookup finds the one row that carries the id |
| Models.AppendProductKeepsConstraints | backend/models.py:19-25 | a new row with a new id and an unused SKU keeps the ids and SKUs unique and every item reference valid, and adds exactly its id |
| Models.ReplaceProductKeepsConstraints | backend/models.py:19-25 | a row replaced under the same id, with a SKU no other row has, keeps the ids unique, the SKUs unique and every reference valid |
| Models.RemoveProductIds | backend/app.py:275 | with unique ids, removing a row removes exactly its id from the set of ids |
| Models.RemoveProductKeepsConstraints | backend/models.py:55-62 | removing a row that no item references removes exactly its id and keeps every constraint |
| Schemas.ValidateUserCreate | backend/schemas.py:7-10 | accepted exactly when the name has 3–60 characters and the password at least 6; each failing field is reported, and no other field is |
| Schemas.ValidatePrice | backend/schemas.py:35-38 | the validator refuses exactly the prices that are zero or negative |
| Schemas.PriceField | backend/schemas.py:29-39 | a price is accepted exactly when it is at least 0.01; it is then stored as its half-even quantization, which is at least 1 cent |
| Schemas.PositiveNotNonPositive | backend/schemas.py:29-39 | a price that passes the field bound also passes the validator, so the validator's own error never fires after the bound |
| Schemas.ProductCreateErrors | backend/schemas.py:26-39 | no errors exactly when every field passes; each of the name, price, stock, SKU and image URL errors is listed exactly when that field fails |
| Schemas.ValidateProductCreate | backend/schemas.py:26-39 | accepted exactly when the name length, the price (≥ 0.01), the stock (≥ 0) and the SKU/URL lengths pass; fields are copied; each failing field (name, price, stock, SKU, image URL) is reported, and only those |
| Schemas.ValidateUpdatePrice | backend/schemas.py:50-54 | the update validator refuses exactly the non-positive prices |
| Schemas.UpdatePriceField | backend/schemas.py:44-54 | an absent price stays absent; a supplied one is accepted exactly when ≥ 0.01 and is then quantized like a new price |
| Schemas.ValidateProductUpdate | backend/schemas.py:41-54 | accepted exactly when every supplied field passes its bound; absent fields stay absent, supplied ones are copied or quantized |
| Schemas.LineErrors | backend/schemas.py:84-86 | the per-line errors in line order; LineErrorsReport and LineErrorsAreLineErrors state what they report |
| Schemas.LineErrorsReport | backend/schemas.py:84-86 | no errors exactly when every line has product id > 0 and quantity ≥ 1; each failing line's error names its index |
| Schemas.LineErrorsAreLineErrors | backend/schemas.py:84-86 | the line checks report nothing but per-line errors |
| Schemas.ValidateOrderCreate | backend/schemas.py:84-90 | accepted exactly when there is at least one item and every item passes; an empty list is reported as such; every item with a product id ≤ 0 and every item with a quantity < 1 is reported by its index |
| Coupons.Matches | backend/app.py:281-284 | an active coupon whose code equals the asked code up to ASCII case; FindCoupon and CaseVariantsShareLookup state the lookup built on it |
| Coupons.FindCoupon | backend/app.py:281-284 | the first active coupon whose code equals the asked code ignoring ASCII case, and none exactly when there is no such coupon |
| Coupons.SameMatchesSameCoupon | backend/app.py:281-284 | two codes that match the same coupons find the same coupon |
| Coupons.FoundCodeFindsSameCoupon | backend/app.py:303-308 | the stored code returned by validation finds the same coupon again |
| Coupons.CaseVariantsShareLookup | backend/models.py:37 | the UNIQUE code column allows `A` and `a` side by side, and then both look-ups find the first of them |
| Coupons.Expired | backend/app.py:295 | validation's expiry test, `valid_until < now`; ValidateCoupon and ValidatedCodeAtCheckout state its use |
| Coupons.ValidateCoupon | backend/app.py:279-308 | valid exactly when an active matching coupon is not expired; it then returns the coupon's percentage and stored code; otherwise it returns percentage 0, the code as asked, and the "not found" or "expired" message |
| Coupons.UsableAtCheckout | backend/app.py:357 | checkout's test, no expiry or `valid_until > now`; CheckoutCoupon and ValidatedCodeAtCheckout state its use |
| Coupons.CheckoutCoupon | backend/app.py:350-358 | a coupon applies exactly when a non-empty code is given, an active coupon matches it, and that coupon has no expiry or expires after now |
| Coupons.Discount | backend/app.py:350-358 | zero when no coupon applies; otherwise `subtotal × percent / 100` rounded half-up to the cent |
| Coupons.ValidatedCodeAtCheckout | backend/app.py:295-301 | the code returned by validation is applied at checkout exactly when the coupon is usable then; a coupon checked at its very expiry instant validates but gets no discount |
| Coupons.DiscountBounded | backend/app.py:350-358 | with percentages in 0–100, the discount lies between 0 and the subtotal |
| Checkout.Status | backend/app.py:320-337 | an unknown product gives 404; stock failures give 409 |
| Checkout.CheckLine | backend/app.py:319-347 | an unknown product is refused (404) exactly when its id is absent; a known product with stock < quantity is refused with insufficient stock (409) exactly then; a line is accepted exactly when its product exists with quantity ≤ stock and stock ≠ 0, and is then priced at the product's price; a stock refusal carries the product's name, the available stock and the requested quantity (409), or only the name when the stock is zero |
| Checkout.CheckLines | backend/app.py:318-347 | every line checked against the stock read before the order, in request order; see CheckLinesAccepts and CheckLinesFirstRefusal |
| Checkout.CheckLinesAccepts | backend/app.py:318-347 | the lines are accepted exactly when every line passes its check, and the accepted lines match the per-line check one for one, in order |
| Checkout.CheckLinesFirstRefusal | backend/app.py:318-337 | a refused request carries the error of a failing line whose earlier lines all pass, so the first failing line decides |
| Checkout.OutOfStockNeedsNonPositiveQuantity | backend/app.py:327-337 | the "out of stock" error needs a quantity of zero or less |
| Checkout.NeverOutOfStock | backend/app.py:327-337 | for a request that passes the schema, confirmation never fails with "out of stock" |
| Checkout.Subtotal | backend/app.py:339-340 | the sum of non-negative line totals is non-negative |
| Checkout.RequestValue | backend/app.py:339-340 | the independent reference sum of catalog price × quantity over the request; RequestValueSnoc and SubtotalIsRequestValue tie the subtotal to it |
| Checkout.RequestValueSnoc | backend/app.py:339-340 | the value of a request grows by price × quantity per added line |
| Checkout.SubtotalIsRequestValue | backend/app.py:339-340 | the subtotal of the checked lines is the sum of catalog price × requested quantity |
| Checkout.OrderTotals | backend/app.py:339-372 | the order's subtotal is the sum of the line totals, its discount is the coupon discount, and total + discount = subtotal |
| Checkout.TotalBounded | backend/app.py:361 | the final total lies between 0 and the subtotal |
| Checkout.Decrement | backend/app.py:387-388 | the product with that id loses the quantity; every other row is unchanged |
| Checkout.Decremented | backend/app.py:387-389 | the stock after the decrement loop, one decrement per line; see DecrementedClosedForm and DecrementedKeepsIds |
| Checkout.DecrementedClosedForm | backend/app.py:377-391 | after all decrements, each product's stock is its old stock minus the sum of the quantities of the lines naming it |
| Checkout.DecrementedKeepsIds | backend/app.py:377-391 | decrements change stock only: ids are kept |
| Checkout.DuplicateLinesOverdraw | backend/app.py:318-391 | one unit in stock and two one-unit lines for it: both pass, and the stock ends at -1 |
| Checkout.SeedOrder | backend/seed.py:41-64 | the seeded notebook at 15.90 ×2 with ALUNO10 gives subtotal 31.80, discount 3.18, total 28.62, and stock goes from 50 to 48 |
| Catalog.ParseListQuery | backend/app.py:89-97 | accepted exactly when sort is `price` or `name`, order is `asc` or `desc`, page ≥ 1 and 1 ≤ page size ≤ 100; the defaults are name, asc, 1 and 12; the search is passed through |
| Catalog.Filtered | backend/app.py:101-104 | no search (or an empty one) keeps the table as it is; a search keeps at most as many products |
| Catalog.FilteredMembers | backend/app.py:101-104 | a product is listed exactly when it is in the table and either there is no search or its lowered name matches `%search%` |
| Catalog.FilteredAppend | backend/app.py:101-107 | the search is an order-preserving selection: it distributes over concatenation, so `total` counts each match once and the matches keep table order |
| Catalog.FilteredSingle | backend/app.py:101-104 | one product alone is kept exactly when there is no search or its name matches |
| Catalog.PageOfSorted | backend/app.py:122-123 | a page holds only elements of the list it cuts, and a cut of a sorted list stays sorted |
| Catalog.ContainsFoldLower | backend/app.py:103-104 | lowering the term and the name does not change whether one contains the other ignoring case |
| Catalog.SearchIsSubstring | backend/app.py:101-104 | for a wildcard-free search, a product is listed exactly when its name contains the term ignoring case |
| Catalog.InOrderTotal | backend/app.py:109-119 | any two products are ordered one way or the other under each key and direction |
| Catalog.InOrderTransitive | backend/app.py:109-119 | each ordering is transitive |
| Catalog.Insert | backend/app.py:109-119 | inserting into a sorted list keeps it sorted and adds exactly that product |
| Catalog.Sorted | backend/app.py:109-119 | the result is sorted under the key and direction and is a permutation of the input |
| Catalog.SortedPairwise | backend/app.py:109-119 | in a sorted list every earlier product is ordered before every later one |
| Catalog.Offset | backend/app.py:122 | the offset of a page is never negative |
| Catalog.Page | backend/app.py:122-123 | the page is the slice at the offset, of at most page-size products, empty past the end |
| Catalog.View | backend/app.py:126-140 | each column is copied, and the price text parses back to the stored cents |
| Catalog.Listing | backend/app.py:101-123 | filter, sort, then the page slice; see ListingSelectedAndOrdered |
| Catalog.ListingSelectedAndOrdered | backend/app.py:101-123 | a listing holds at most page-size products, each one matches the search, and they are in the requested order |
| Store.CrudStatus | backend/app.py:186-188 | product errors map to 404, 409 or 500, and 500 exactly for the server error |
| Store.Patched | backend/app.py:240-242 | the row after an update, each supplied field replaced and the rest kept; FieldByFieldIsPatch and SetattrLoopIsPatch tie the setattr loop to it |
| Store.FieldByFieldIsPatch | backend/app.py:240-243 | setting each supplied column in turn gives the patched product |
| Store.SetattrLoopIsPatch | backend/app.py:241-243 | applying the supplied fields in order, one `setattr` each, gives the product with exactly the supplied columns replaced |
| Store.SetSupplied | backend/app.py:241-243 | the loop's result is the fields applied in order |
| Store.ItemsFor | backend/app.py:375-385 | one item row per accepted line, with consecutive fresh ids, the order's id, the line's product, quantity, unit price and line total |
| Store.DecrementedKeepsKeys | backend/app.py:387-391 | stock decrements keep product ids and SKUs, and so keep them unique |
| Store.FirstRefusalDecides | backend/app.py:318-337 | the first refused line decides the error of the whole request |
| Store.CheckOneLine | backend/app.py:320-347 | the look-up and the three checks of one line give exactly the per-line outcome, and an accepted line's row carries its product id |
| Store.PriceLines | backend/app.py:318-347 | the loop's outcome is the check of all lines; on success the subtotal is their sum, and each row index points at the product of its line |
| Store.WriteItems | backend/app.py:375-391 | the loop's stock is the decremented catalog, and its item rows are the existing ones plus one per line |
| Store.Serialize | backend/app.py:126-140 | one serialized entry per listed row, in order |
| Store.AppendKeepsTable | backend/app.py:191-202 | appending a product with the next id and a free SKU keeps the product table's constraints and the new id was not in use |
| Store.ReplaceKeepsTable | backend/app.py:241-246 | replacing a product under its own id with a SKU no other row holds keeps the product table's constraints |
| Store.RemoveKeepsTable | backend/app.py:275-276 | removing a product no item names keeps the product table's constraints, and its id is gone |
| Store.ConfirmKeepsConstraints | backend/app.py:364-391 | the new order, its items and the decremented stock keep every key, UNIQUE and reference constraint |
| Store.UniqueConstraintOnlyCatchesEmptySku | backend/app.py:232-238 | after the app-level SKU check, the UNIQUE column can still refuse only an empty SKU, which the check skips |
| Store.Store.constructor | backend/models.py:16-69 | an empty shop with its coupons loaded satisfies every table constraint |
| Store.Store.CreateProduct | backend/app.py:176-215 | 409 exactly when a non-empty SKU is taken; 500 exactly when an empty SKU is taken; otherwise the row is appended with a fresh id and the fields given; nothing else changes |
| Store.Store.UpdateProduct | backend/app.py:217-260 | 404 exactly for an unknown id; 409 when a new non-empty SKU is taken; otherwise the row is replaced by its patch with `updated_at = now`; for a known id, a 500 happens exactly when an empty SKU is sent while another row already holds the empty SKU |
| Store.Store.DeleteProduct | backend/app.py:262-276 | 404 exactly for an unknown id; 500 exactly when an item references the product; otherwise exactly that row is removed |
| Store.Store.ListProducts | backend/app.py:89-152 | the total counts the filtered products; the data is the serialized listing; the query is echoed |
| Store.Store.ConfirmOrder | backend/app.py:311-437 | a refused line returns its error and changes nothing; otherwise the order row holds the totals, one item row per line is added, and the stock drops by the lines' quantities; constraints are kept |
| Store.Store.AddOrder | backend/app.py:364-391 | the order row is appended, one item row per line follows with consecutive ids, the stock is the decremented catalog, and every constraint is kept |
| BrowserCart.FindLine | frontend/scripts.js:133 | the first line for the product, and none exactly when the cart has no such line |
| BrowserCart.FoundLineIsOnly | frontend/scripts.js:133 | in a cart with one line per product, the found line is the only one |
| BrowserCart.Added | frontend/scripts.js:131-152 | the cart after `addItem`; AddedMergedLine, AddedMergesOrAppends and BadgeAfterAdd state the merge, the append and the badge change |
| BrowserCart.AddedMergedLine | frontend/scripts.js:133-141 | a product already in the cart has its line's quantity set to min(old + added, stock) |
| BrowserCart.AddedMergesOrAppends | frontend/scripts.js:131-152 | an existing line stays at the same place, ends at or below the stock, and the cart keeps its length; a new product is appended with min(quantity, stock); other lines are unchanged; one line per product is kept |
| BrowserCart.Without | frontend/scripts.js:175-180 | the product's lines are gone and every other line is kept |
| BrowserCart.WithoutAppend | frontend/scripts.js:177 | the filter distributes over concatenation |
| BrowserCart.WithoutAbsent | frontend/scripts.js:177 | removing an absent product changes nothing |
| BrowserCart.WithoutKeepsUnique | frontend/scripts.js:177 | removal keeps one line per product |
| BrowserCart.QuantitySet | frontend/scripts.js:154-173 | an absent product leaves the cart unchanged; a quantity ≤ 0 removes the line; otherwise the line's quantity becomes min(quantity, stock) and nothing else changes |
| BrowserCart.QuantitySetKeepsUnique | frontend/scripts.js:154-173 | updating a quantity keeps one line per product |
| BrowserCart.Badge | frontend/scripts.js:234 | the badge's `reduce` sum of quantities; BadgeAppend, BadgeReplace and BadgeWithout state how it moves |
| BrowserCart.BadgeAppend | frontend/scripts.js:234 | the badge count adds up over concatenated carts |
| BrowserCart.BadgeReplace | frontend/scripts.js:234 | replacing a line changes the badge by the difference of quantities |
| BrowserCart.BadgeWithout | frontend/scripts.js:175-180 | removing a product lowers the badge by its line's quantity |
| BrowserCart.BadgeAfterAdd | frontend/scripts.js:131-152 | adding raises the badge by min(quantity, stock) for a new product, and by the clamped change for an existing one |
| BrowserCart.BadgeAfterMerge | frontend/scripts.js:135-141 | merging replaces the line's quantity with min(old + added, stock) in the badge |
| BrowserCart.BadgeAfterAppend | frontend/scripts.js:142-147 | appending raises the badge by min(quantity, stock) |
| BrowserCart.PayloadItems | frontend/scripts.js:503-506 | one `{product_id, quantity}` per cart line, in order |
| BrowserCart.Payload | frontend/scripts.js:502-508 | the items of the cart, and a coupon code exactly when one is applied: the code the validation returned |
| BrowserCart.PayloadValidates | frontend/scripts.js:502-508 | the server's `OrderCreate` schema accepts the payload exactly when the cart is not empty and every line has a positive product id and a quantity of at least 1 |
| BrowserCart.ZeroStockAddBlocksConfirmation | frontend/scripts.js:143-147 | adding a product with stock 0 appends a zero-quantity line, and the payload is then refused by the schema |
| BrowserCart.Cart.AddItem | frontend/scripts.js:131-152 | the lines become the merged-or-appended cart; the applied coupon is unchanged; one line per product is kept |
| BrowserCart.Cart.UpdateQuantity | frontend/scripts.js:154-173 | the lines become the quantity-set cart; the coupon is unchanged |
| BrowserCart.Cart.RemoveItem | frontend/scripts.js:175-180 | the lines lose the product; the coupon is unchanged |
| BrowserCart.Cart.Clear | frontend/scripts.js:182-185 | no lines and no applied coupon |
| BrowserCart.Cart.ApplyCoupon | frontend/scripts.js:313-333 | nothing is sent exactly when the code is empty or white space; otherwise the trimmed code is sent, and only a valid reply becomes the applied coupon |
| BrowserCart.Cart.RemoveCoupon | frontend/scripts.js:335-339 | the applied coupon is cleared and the lines are kept |
| BrowserCart.Cart.ConfirmOrder | frontend/scripts.js:488-531 | nothing is sent exactly when the cart is empty; otherwise the payload is sent; an accepted order clears cart and coupon, and a refused one leaves both |
| BrowserCart.AppliedCouponReachesCheckout | frontend/scripts.js:313-333 | a code the user applies is found again at checkout and applied exactly when the coupon is still usable then |
| FlaskOrders.NewOrder | ecommerce_project/backend/ecommerce_api/src/models/order.py:4-8 | a new order is pending and carries the given id and user |
| FlaskOrders.FindProduct | ecommerce_project/backend/ecommerce_api/src/routes/order.py:18 | the product with that id, and none exactly when no row has it |
| FlaskOrders.FindPending | ecommerce_project/backend/ecommerce_api/src/routes/order.py:21 | the first pending order of the user, and none exactly when the user has none |
| FlaskOrders.FindItem | ecommerce_project/backend/ecommerce_api/src/routes/order.py:28 | the item keyed by that order and product, and none exactly when there is none |
| FlaskOrders.ItemsOf | ecommerce_project/backend/ecommerce_api/src/models/order.py:14 | the `items` relationship of an order; see ItemsOfMembers and ItemsOfOnePerProduct |
| FlaskOrders.ItemsOfMembers | ecommerce_project/backend/ecommerce_api/src/models/order.py:14 | an order's items are exactly the item rows that name it |
| FlaskOrders.ItemsOfOnePerProduct | ecommerce_project/backend/ecommerce_api/src/models/order.py:29-30 | under the composite key an order holds at most one item per product |
| FlaskOrders.PendingIsOnly | ecommerce_project/backend/ecommerce_api/src/routes/order.py:21-25 | with one pending order per user, the lookup finds the only one |
| FlaskOrders.ItemToDict | ecommerce_project/backend/ecommerce_api/src/models/order.py:39-45 | the item's columns are copied; the product is included when it exists, and null exactly when it does not |
| FlaskOrders.ItemsToDict | ecommerce_project/backend/ecommerce_api/src/models/order.py:25 | one serialized entry per item, in order |
| FlaskOrders.OrderToDict | ecommerce_project/backend/ecommerce_api/src/models/order.py:19-26 | the order's columns and one serialized entry for each item the order owns |
| FlaskOrders.LinesTotal | ecommerce_project/backend/ecommerce_api/src/routes/order.py:51 | `sum(item.product.price * item.quantity ...)`, failing when a product is gone; see LinesTotalDefined, LinesTotalAppend and LinesTotalSingle |
| FlaskOrders.LinesTotalDefined | ecommerce_project/backend/ecommerce_api/src/routes/order.py:51 | the total exists exactly when every item's product still exists |
| FlaskOrders.LinesTotalAppend | ecommerce_project/backend/ecommerce_api/src/routes/order.py:51 | totals add up over consecutive runs of items |
| FlaskOrders.LinesTotalSingle | ecommerce_project/backend/ecommerce_api/src/routes/order.py:51 | one item's total is its price times its quantity |
| CartRoutes.HttpStatus | ecommerce_project/backend/ecommerce_api/src/routes/order.py:65-111 | an empty cart is 400; a missing product, cart, item or order is 404; the failed total is 500 |
| CartRoutes.ItemAdded | ecommerce_project/backend/ecommerce_api/src/routes/order.py:27-33 | the items after adding to a cart, merged or appended; see ItemAddedMerges, TotalAfterAdd and ItemAddedKeepsConstraints |
| CartRoutes.ItemAddedMerges | ecommerce_project/backend/ecommerce_api/src/routes/order.py:27-33 | an existing item's quantity grows by the amount added and no other item changes; otherwise one item is appended; the key stays unique |
| CartRoutes.ItemsOfAppend | ecommerce_project/backend/ecommerce_api/src/routes/order.py:32-33 | an appended item joins its own order's items and no other order's |
| CartRoutes.TotalAfterSet | ecommerce_project/backend/ecommerce_api/src/routes/order.py:73-76 | setting one item's quantity changes the order's total by price × (new − old) |
| CartRoutes.TotalAfterMerge | ecommerce_project/backend/ecommerce_api/src/routes/order.py:29-30 | merging into an existing item raises the cart total by price × added quantity |
| CartRoutes.TotalAfterAppend | ecommerce_project/backend/ecommerce_api/src/routes/order.py:31-33 | appending an item raises the cart total by price × quantity |
| CartRoutes.TotalAfterAdd | ecommerce_project/backend/ecommerce_api/src/routes/order.py:27-35 | after adding, the cart total is the old total plus price × quantity, whether the item was merged or appended |
| CartRoutes.ItemRemoved | ecommerce_project/backend/ecommerce_api/src/routes/order.py:73-74 | the items after a delete; see ItemRemovedExactly |
| CartRoutes.ItemRemovedExactly | ecommerce_project/backend/ecommerce_api/src/routes/order.py:73-74 | removal takes out exactly that one item, its key is gone and the key stays unique |
| CartRoutes.History | ecommerce_project/backend/ecommerce_api/src/routes/order.py:130 | the user's non-pending orders in table order; see HistoryMembers, HistoryAppend and HistorySingle |
| CartRoutes.HistoryMembers | ecommerce_project/backend/ecommerce_api/src/routes/order.py:130 | exactly the user's orders whose status is not pending |
| CartRoutes.HistoryAppend | ecommerce_project/backend/ecommerce_api/src/routes/order.py:130 | the history keeps table order: it distributes over concatenation |
| CartRoutes.HistorySingle | ecommerce_project/backend/ecommerce_api/src/routes/order.py:130 | one order alone is kept exactly when it is the user's and not pending |
| CartRoutes.FindOwned | ecommerce_project/backend/ecommerce_api/src/routes/order.py:144 | an order with that id owned by that user, and none exactly when there is none |
| CartRoutes.WithCart | ecommerce_project/backend/ecommerce_api/src/routes/order.py:20-25 | the user's pending order reused, or a new one appended; see OpenCartKeepsConstraints and PutInCart |
| CartRoutes.OrderTotal | ecommerce_project/backend/ecommerce_api/src/routes/order.py:51 | an order's total over its own items; its failure cases follow from LinesTotalDefined |
| CartRoutes.Summary | ecommerce_project/backend/ecommerce_api/src/routes/order.py:130-136 | an order's dict with its total, none when the total fails; GetCart, GetUserOrders and GetOrder state their replies with it |
| CartRoutes.OpenCartKeepsConstraints | ecommerce_project/backend/ecommerce_api/src/routes/order.py:21-25 | opening a cart for a user without one keeps ids unique and one pending order per user, and the lookup then finds it |
| CartRoutes.AddToCartKeepsConstraints | ecommerce_project/backend/ecommerce_api/src/routes/order.py:9-40 | adding to the cart keeps every table constraint, and the user's pending order is the one the items go to |
| CartRoutes.ItemAddedKeepsConstraints | ecommerce_project/backend/ecommerce_api/src/routes/order.py:27-33 | adding an item keeps the composite key unique and every item's order present |
| CartRoutes.ItemChangeKeepsConstraints | ecommerce_project/backend/ecommerce_api/src/routes/order.py:73-76 | setting a quantity or removing an item keeps the key unique and every item's order present |
| CartRoutes.CompletedAt | ecommerce_project/backend/ecommerce_api/src/routes/order.py:113-115 | the orders after checkout marks one completed; see CompletedKeepsConstraints and CheckoutClosesCart |
| CartRoutes.CompletedKeepsConstraints | ecommerce_project/backend/ecommerce_api/src/routes/order.py:113-115 | completing an order keeps every constraint |
| CartRoutes.CheckoutClosesCart | ecommerce_project/backend/ecommerce_api/src/routes/order.py:113-115 | after checkout the user has no pending order, and every other user's cart is unchanged |
| CartRoutes.PutInCart | ecommerce_project/backend/ecommerce_api/src/routes/order.py:20-35 | the tables become the user's cart opened or reused, with the item merged or appended; the counter advances only when a cart is opened |
| CartRoutes.OrderService.constructor | ecommerce_project/backend/ecommerce_api/src/models/order.py:4-30 | no orders or items, over the given products, with every constraint holding |
| CartRoutes.OrderService.AddToCart | ecommerce_project/backend/ecommerce_api/src/routes/order.py:9-40 | 404 exactly for an unknown product, with nothing changed; otherwise the quantity defaults to 1, the user's pending order is reused or created, the item is merged or appended, and the cart is returned |
| CartRoutes.OrderService.GetCart | ecommerce_project/backend/ecommerce_api/src/routes/order.py:42-56 | no pending order gives the empty cart; otherwise the cart with its total, or 500 exactly when an item's product is gone |
| CartRoutes.OrderService.UpdateCartItem | ecommerce_project/backend/ecommerce_api/src/routes/order.py:58-83 | 404 for no cart or no item, with nothing changed; a quantity ≤ 0 deletes the item; otherwise the quantity is set; orders never change |
| CartRoutes.OrderService.RemoveFromCart | ecommerce_project/backend/ecommerce_api/src/routes/order.py:85-103 | 404 for no cart or no item; otherwise exactly that item is deleted |
| CartRoutes.OrderService.Checkout | ecommerce_project/backend/ecommerce_api/src/routes/order.py:105-124 | 400 with nothing changed when there is no cart or it is empty; otherwise the order becomes completed, even when the total then fails with 500 |
| CartRoutes.OrderService.GetUserOrders | ecommerce_project/backend/ecommerce_api/src/routes/order.py:126-138 | one summary per completed order of the user, in table order, or 500 exactly when one of their totals fails |
| CartRoutes.OrderService.GetOrder | ecommerce_project/backend/ecommerce_api/src/routes/order.py:140-149 | 404 exactly when the user owns no order with that id; otherwise that order with its total, or 500 exactly when the total fails; no other refusal is returned |

## Left out

- Authentication is not modelled: registration, login, JWT handling and bcrypt
  (`backend/security.py`), the users table, the Flask `token_required`
  decorator and the Flask user routes. Callers pass the user id as a parameter.
- Application plumbing is not modelled: CORS, the session factory
  (`backend/database.py`), the Flask app factory and blueprint registration.
- `get_product` is not modelled. It is a lookup by id followed by the
  serialization that `Catalog.View` already models.
- The seed scripts are not modelled as operations. Their notebook and ALUNO10
  coupon appear only as example values in `Checkout.SeedOrder`.
- The Flask product routes, the Flask product model, `update_products.py` and
  the React front end (`ProductCard.jsx`, `Header.jsx`, `CartContext.jsx`,
  `Cart.jsx`, `Home.jsx`) are not part of this model.
- The floating-point totals of the browser (`getTotal`, `getTotalWithDiscount`)
  are left out. Floating point is outside the model. The server recomputes every
  amount in exact decimals.
- DOM updates, alerts, modals, currency formatting, spinners, product reloads
  and `localStorage` persistence are left out. The cart and the applied coupon
  are the fields of `BrowserCart.Cart`.
- `BrowserCart.Cart.ApplyCoupon`: the network call to the validation endpoint is
  the `reply` parameter. A failed call is `None`. The error alerts are left out.
- `BrowserCart.Cart.ConfirmOrder`: the server's answer is the `accepted`
  parameter. The button state and the response display are left out.
- Concurrency, row locking and transaction isolation are left out. Each
  operation is one atomic step on the tables.
- `Store.Store.ConfirmOrder` does not model the mid-request commit. The source
  commits the order row before writing its items, so a failure while writing the
  items could leave an order without items. In the model nothing can fail after
  the line checks.
- The product snapshot that `confirm_order` embeds in each response item is not
  modelled. The model returns the order row. Its items are in the `items` table.
- Email validation (`EmailStr`) is left out: `Schemas.ValidateUserCreate` takes
  the email as given.
- `Schemas.ValidateProductUpdate` does not model an explicit JSON `null`. Absent
  and `null` fields are both `None` here. In the source, `dict(exclude_unset=True)`
  keeps an explicit `null`, so it would be written to a required column, and it
  clears `description`, `sku` or `image_url`. In the model, such a field stays
  unchanged.
- Decimal precision limits and the `DECIMAL(10,2)` overflow are not modelled.
  Amounts are unbounded integers.
- Timestamps are integers. The `utcnow()` calls are the `now` parameter.
- FindCoupon (`Coupons.FindCoupon`) and the catalog search fold case for ASCII
  only, as SQLite's `lower()` does. The source lowers the asked coupon code
  (backend/app.py:282, 353) and the search term with Python's `.lower()`, which
  also folds non-ASCII letters. The stored side is lowered by SQLite, in ASCII
  only. So a stored code `CAFÉ` asked as `CAFÉ` is found by the model but not by
  the source, which compares `cafÉ` with `café`.
- Row order: SQL leaves unspecified the order of `.first()`, of equal sort keys
  and of an unordered relationship such as `order.items`. The model takes table
  order for lookups, and its sort may put products with equal keys in any order.
  `FlaskOrders.OrderToDict` lists an order's items in insertion order. Since
  `OrderItem` has the composite key `(order_id, product_id)`, SQLite may well
  return them in product-id order.
- Database ids are counters kept in each class, and a counter never hands out
  an id twice. The id columns are `INTEGER PRIMARY KEY` without AUTOINCREMENT
  (backend/models.py:19), so SQLite issues max(id) + 1. After the newest product
  is deleted, the source reuses its id. The model does not: it leaves a gap.
- `BrowserCart.Cart`: the product stored with each cart line keeps only its id,
  name and stock. Its other fields are used only for display.
- The Flask routes do not check the type of `quantity`. The model takes it as an
  integer.
- Flask prices are floats in the source. Here they are integers, so the model
  does not capture float rounding in the totals.
- The Flask `date` column is an integer set from `now`. Its ISO text form in
  `to_dict` is not modelled.
