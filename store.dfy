/**
 * The backend's database as one object whose tables the request handlers
 * update in place: product creation, partial update and deletion, the
 * catalog listing, and order confirmation.  Every handler keeps the
 * schema's constraints (`Valid`) and is proved against the functions of
 * the Checkout, Catalog and Schemas modules.
 */
module Store {
  import opened Wrappers
  import opened Money
  import opened Models
  import opened Schemas
  import opened Coupons
  import opened Checkout
  import opened Catalog

  /** Why a catalog write is refused: 404, 409, or a constraint the database rejects (500). */
  datatype CrudError = NotFound | SkuConflict | ServerError

  function CrudStatus(e: CrudError): (code: int)
    ensures code in {404, 409, 500}
    ensures e.ServerError? <==> code == 500
  {
    match e
    case NotFound => 404
    case SkuConflict => 409
    case ServerError => 500
  }

  // ---------------------------------------------------------------------
  // Partial update, one supplied field at a time

  /** One supplied field of an update, as `update_data` holds it. */
  datatype FieldValue =
    | SetName(name: string)
    | SetDescription(description: string)
    | SetPrice(price: Cents)
    | SetStock(stock: int)
    | SetCategory(category: string)
    | SetSku(sku: string)
    | SetImageUrl(imageUrl: string)

  /** A field as `update_data` holds it: present only when the client supplied it. */
  function NameField(u: ProductUpdate): Option<FieldValue> {
    if u.name.Some? then Some(SetName(u.name.value)) else None
  }
  function DescriptionField(u: ProductUpdate): Option<FieldValue> {
    if u.description.Some? then Some(SetDescription(u.description.value)) else None
  }
  function PriceUpdateField(u: ProductUpdate): Option<FieldValue> {
    if u.price.Some? then Some(SetPrice(u.price.value)) else None
  }
  function StockField(u: ProductUpdate): Option<FieldValue> {
    if u.stock.Some? then Some(SetStock(u.stock.value)) else None
  }
  function CategoryField(u: ProductUpdate): Option<FieldValue> {
    if u.category.Some? then Some(SetCategory(u.category.value)) else None
  }
  function SkuField(u: ProductUpdate): Option<FieldValue> {
    if u.sku.Some? then Some(SetSku(u.sku.value)) else None
  }
  function ImageUrlField(u: ProductUpdate): Option<FieldValue> {
    if u.imageUrl.Some? then Some(SetImageUrl(u.imageUrl.value)) else None
  }

  function Listed(o: Option<FieldValue>): seq<FieldValue> {
    if o.Some? then [o.value] else []
  }

  /** The supplied fields of an update, in declaration order. */
  function SuppliedFields(u: ProductUpdate): seq<FieldValue> {
    Listed(NameField(u)) + Listed(DescriptionField(u)) + Listed(PriceUpdateField(u)) + Listed(StockField(u))
    + Listed(CategoryField(u)) + Listed(SkuField(u)) + Listed(ImageUrlField(u))
  }

  /** `setattr(product, field, value)`. */
  function SetField(p: Product, f: FieldValue): Product {
    match f
    case SetName(v) => p.(name := v)
    case SetDescription(v) => p.(description := Some(v))
    case SetPrice(v) => p.(price := v)
    case SetStock(v) => p.(stock := v)
    case SetCategory(v) => p.(category := v)
    case SetSku(v) => p.(sku := Some(v))
    case SetImageUrl(v) => p.(imageUrl := Some(v))
  }

  function ApplyFields(p: Product, fs: seq<FieldValue>): Product
    decreases |fs|
  {
    if fs == [] then p else SetField(ApplyFields(p, fs[..|fs| - 1]), fs[|fs| - 1])
  }

  /** The row after an update: each supplied field takes its new value, every other column keeps its old one. */
  function Patched(p: Product, u: ProductUpdate): Product {
    Product(p.id,
      if u.name.Some? then u.name.value else p.name,
      if u.description.Some? then u.description else p.description,
      if u.price.Some? then u.price.value else p.price,
      if u.stock.Some? then u.stock.value else p.stock,
      if u.category.Some? then u.category.value else p.category,
      if u.sku.Some? then u.sku else p.sku,
      if u.imageUrl.Some? then u.imageUrl else p.imageUrl,
      p.createdAt, p.updatedAt)
  }

  lemma {:induction false} ApplyFieldsAppend(p: Product, a: seq<FieldValue>, b: seq<FieldValue>)
    ensures ApplyFields(p, a + b) == ApplyFields(ApplyFields(p, a), b)
    decreases |b|
  {
    if b == [] {
      assert a + b == a;
    } else {
      assert (a + b)[..|a + b| - 1] == a + b[..|b| - 1];
      ApplyFieldsAppend(p, a, b[..|b| - 1]);
    }
  }

  function SetIfSupplied(q: Product, o: Option<FieldValue>): Product {
    if o.Some? then SetField(q, o.value) else q
  }

  lemma ApplyListed(q: Product, o: Option<FieldValue>)
    ensures ApplyFields(q, Listed(o)) == SetIfSupplied(q, o)
  {
    if o.Some? {
      assert Listed(o)[..0] == [];
    }
  }

  /** Applying the supplied fields one after another, field by field in declaration order. */
  function FieldByField(p: Product, u: ProductUpdate): Product {
    SetIfSupplied(SetIfSupplied(SetIfSupplied(SetIfSupplied(SetIfSupplied(SetIfSupplied(SetIfSupplied(p,
      NameField(u)), DescriptionField(u)), PriceUpdateField(u)), StockField(u)), CategoryField(u)), SkuField(u)), ImageUrlField(u))
  }

  lemma SetIfSuppliedColumn(q: Product, u: ProductUpdate)
    ensures SetIfSupplied(q, NameField(u)) == q.(name := if u.name.Some? then u.name.value else q.name)
    ensures SetIfSupplied(q, DescriptionField(u)) == q.(description := if u.description.Some? then u.description else q.description)
    ensures SetIfSupplied(q, PriceUpdateField(u)) == q.(price := if u.price.Some? then u.price.value else q.price)
    ensures SetIfSupplied(q, StockField(u)) == q.(stock := if u.stock.Some? then u.stock.value else q.stock)
    ensures SetIfSupplied(q, CategoryField(u)) == q.(category := if u.category.Some? then u.category.value else q.category)
    ensures SetIfSupplied(q, SkuField(u)) == q.(sku := if u.sku.Some? then u.sku else q.sku)
    ensures SetIfSupplied(q, ImageUrlField(u)) == q.(imageUrl := if u.imageUrl.Some? then u.imageUrl else q.imageUrl)
  {
  }

  lemma FieldByFieldIsPatch(p: Product, u: ProductUpdate)
    ensures FieldByField(p, u) == Patched(p, u)
  {
    var q1 := SetIfSupplied(p, NameField(u));
    var q2 := SetIfSupplied(q1, DescriptionField(u));
    var q3 := SetIfSupplied(q2, PriceUpdateField(u));
    var q4 := SetIfSupplied(q3, StockField(u));
    var q5 := SetIfSupplied(q4, CategoryField(u));
    var q6 := SetIfSupplied(q5, SkuField(u));
    SetIfSuppliedColumn(p, u);
    SetIfSuppliedColumn(q1, u);
    SetIfSuppliedColumn(q2, u);
    SetIfSuppliedColumn(q3, u);
    SetIfSuppliedColumn(q4, u);
    SetIfSuppliedColumn(q5, u);
    SetIfSuppliedColumn(q6, u);
  }

  /**
   * Setting the supplied fields one after another yields exactly the
   * field-wise update: only supplied columns change, and the id and
   * timestamps are untouched.
   */
  lemma SetattrLoopIsPatch(p: Product, u: ProductUpdate)
    ensures ApplyFields(p, SuppliedFields(u)) == Patched(p, u)
  {
    var f1 := Listed(NameField(u));
    var g2 := f1 + Listed(DescriptionField(u));
    var g3 := g2 + Listed(PriceUpdateField(u));
    var g4 := g3 + Listed(StockField(u));
    var g5 := g4 + Listed(CategoryField(u));
    var g6 := g5 + Listed(SkuField(u));
    assert SuppliedFields(u) == g6 + Listed(ImageUrlField(u));
    ApplyListed(p, NameField(u));
    ApplyFieldsAppend(p, f1, Listed(DescriptionField(u)));
    ApplyListed(ApplyFields(p, f1), DescriptionField(u));
    ApplyFieldsAppend(p, g2, Listed(PriceUpdateField(u)));
    ApplyListed(ApplyFields(p, g2), PriceUpdateField(u));
    ApplyFieldsAppend(p, g3, Listed(StockField(u)));
    ApplyListed(ApplyFields(p, g3), StockField(u));
    ApplyFieldsAppend(p, g4, Listed(CategoryField(u)));
    ApplyListed(ApplyFields(p, g4), CategoryField(u));
    ApplyFieldsAppend(p, g5, Listed(SkuField(u)));
    ApplyListed(ApplyFields(p, g5), SkuField(u));
    ApplyFieldsAppend(p, g6, Listed(ImageUrlField(u)));
    ApplyListed(ApplyFields(p, g6), ImageUrlField(u));
    FieldByFieldIsPatch(p, u);
  }

  // ---------------------------------------------------------------------
  // Order rows

  /** The item rows of a confirmed order, numbered from `firstId`, one per accepted line in request order. */
  function ItemsFor(orderId: int, firstId: int, ps: seq<PricedLine>): (r: seq<OrderItem>)
    ensures |r| == |ps|
    ensures forall k :: 0 <= k < |ps| ==>
      r[k] == OrderItem(firstId + k, orderId, ps[k].productId, ps[k].quantity, ps[k].unitPrice, ps[k].lineTotal)
  {
    seq(|ps|, k requires 0 <= k < |ps| =>
      OrderItem(firstId + k, orderId, ps[k].productId, ps[k].quantity, ps[k].unitPrice, ps[k].lineTotal))
  }

  /** The listing reply: one serialized row per listed product and the count before paging. */
  datatype ProductsPage = ProductsPage(data: seq<ProductView>, total: int, query: ListQuery)

  /** The decrements change only stock, so the row keys survive them. */
  lemma DecrementedKeepsKeys(products: seq<Product>, ps: seq<PricedLine>)
    ensures forall i :: 0 <= i < |products| ==>
      Decremented(products, ps)[i].id == products[i].id && Decremented(products, ps)[i].sku == products[i].sku
    ensures ProductIds(Decremented(products, ps)) == ProductIds(products)
    ensures UniqueProductIds(products) ==> UniqueProductIds(Decremented(products, ps))
    ensures UniqueSkus(products) ==> UniqueSkus(Decremented(products, ps))
  {
    DecrementedClosedForm(products, ps);
    DecrementedKeepsIds(products, ps);
  }

  /** Removing a row keeps every remaining id below the next one to be issued. */
  lemma RemoveKeepsIdsBelow(products: seq<Product>, i: nat, bound: int)
    requires i < |products| && forall k :: 0 <= k < |products| ==> products[k].id < bound
    ensures forall p :: p in products[..i] + products[i + 1..] ==> p.id < bound
  {
    var rest := products[..i] + products[i + 1..];
    assert forall k :: 0 <= k < |rest| ==> rest[k] == if k < i then products[k] else products[k + 1];
  }

  /** With unique ids, decrementing the row found by id is decrementing that id. */
  lemma DecrementAtRow(products: seq<Product>, i: nat, qty: int)
    requires UniqueProductIds(products) && i < |products|
    ensures products[i := products[i].(stock := products[i].stock - qty)] == Decrement(products, products[i].id, qty)
  {
  }

  /** With every earlier line accepted, the first refused line decides the outcome. */
  lemma FirstRefusalDecides(products: seq<Product>, lines: seq<LineInput>, i: nat)
    requires i < |lines|
    requires forall j :: 0 <= j < i ==> CheckLine(products, lines[j]).Ok?
    requires CheckLine(products, lines[i]).Err?
    ensures CheckLines(products, lines) == Err(CheckLine(products, lines[i]).error)
  {
    var r := CheckLines(products, lines);
    CheckLinesAccepts(products, lines);
    CheckLinesFirstRefusal(products, lines);
    assert r.Err?;
    var k :| 0 <= k < |lines| && CheckLine(products, lines[k]) == Err(r.error)
             && forall j :: 0 <= j < k ==> CheckLine(products, lines[j]).Ok?;
    assert k == i;
  }

  /** One more accepted line extends the accepted prefix and its subtotal. */
  lemma AcceptStep(products: seq<Product>, lines: seq<LineInput>, i: nat, priced: seq<PricedLine>, pl: PricedLine)
    requires i < |lines|
    requires CheckLines(products, lines[..i]) == Ok(priced)
    requires CheckLine(products, lines[i]) == Ok(pl)
    ensures CheckLines(products, lines[..i + 1]) == Ok(priced + [pl])
    ensures Subtotal(priced + [pl]) == Subtotal(priced) + pl.lineTotal
  {
    var l := lines[..i + 1];
    assert l[..|l| - 1] == lines[..i] && l[|l| - 1] == lines[i];
    SubtotalStep(priced, pl);
  }

  /** One more line adds its line total to the subtotal. */
  lemma SubtotalStep(priced: seq<PricedLine>, pl: PricedLine)
    ensures Subtotal(priced + [pl]) == Subtotal(priced) + pl.lineTotal
  {
    assert (priced + [pl])[..|priced|] == priced;
  }

  /** A refused line after an accepted prefix decides the whole request. */
  lemma RefuseStep(products: seq<Product>, lines: seq<LineInput>, i: nat)
    requires i < |lines|
    requires CheckLines(products, lines[..i]).Ok?
    requires CheckLine(products, lines[i]).Err?
    ensures CheckLines(products, lines) == Err(CheckLine(products, lines[i]).error)
  {
    CheckLinesAccepts(products, lines[..i]);
    assert forall j :: 0 <= j < i ==> lines[..i][j] == lines[j];
    FirstRefusalDecides(products, lines, i);
  }

  /** The item rows of one more line. */
  lemma ItemsForLast(orderId: int, firstId: int, ps: seq<PricedLine>)
    requires ps != []
    ensures var l := ps[|ps| - 1];
            ItemsFor(orderId, firstId, ps) == ItemsFor(orderId, firstId, ps[..|ps| - 1])
              + [OrderItem(firstId + |ps| - 1, orderId, l.productId, l.quantity, l.unitPrice, l.lineTotal)]
  {
  }

  /** One step of the writing loop lowers the stock of the row line `k` names. */
  lemma DecrementStep(catalog: seq<Product>, priced: seq<PricedLine>, row: nat, k: nat)
    requires UniqueProductIds(catalog) && k < |priced|
    requires row < |catalog| && catalog[row].id == priced[k].productId
    ensures var d := DecrementedUpTo(catalog, priced, k);
            DecrementedUpTo(catalog, priced, k + 1) == d[row := d[row].(stock := d[row].stock - priced[k].quantity)]
  {
    var d := DecrementedUpTo(catalog, priced, k);
    DecrementedUpToKeepsIds(catalog, priced, k);
    assert UniqueProductIds(d);
    DecrementAtRow(d, row, priced[k].quantity);
  }

  /** One step of the writing loop adds the item row of line `k`. */
  lemma ItemStep(firstId: int, orderId: int, priced: seq<PricedLine>, k: nat)
    requires k < |priced|
    ensures var l := priced[k];
            ItemsFor(orderId, firstId, priced[..k + 1])
            == ItemsFor(orderId, firstId, priced[..k]) + [OrderItem(firstId + k, orderId, l.productId, l.quantity, l.unitPrice, l.lineTotal)]
  {
    assert priced[..k + 1][..k] == priced[..k];
    ItemsForLast(orderId, firstId, priced[..k + 1]);
  }

  /**
   * One line of the checking loop: the product is looked up by id, then
   * the stock is compared with the quantity, then checked for zero; a line
   * that passes is priced at the product's current price.
   */
  method CheckOneLine(catalog: seq<Product>, line: LineInput) returns (r: Result<PricedLine, CheckoutError>, row: nat)
    ensures r == CheckLine(catalog, line)
    ensures r.Ok? ==> row < |catalog| && catalog[row].id == line.productId
  {
    var found := ProductIndex(catalog, line.productId);
    if found.None? {
      return Err(ProductNotFound(line.productId)), 0;
    }
    var p := catalog[found.value];
    if p.stock < line.quantity {
      return Err(InsufficientStock(p.name, p.stock, line.quantity)), 0;
    }
    if p.stock == 0 {
      return Err(OutOfStock(p.name)), 0;
    }
    return Ok(PricedLine(p.id, line.quantity, p.price, p.price * line.quantity)), found.value;
  }

  /**
   * The checking loop of order confirmation: each line is looked up and
   * checked against the stock as it is before the order, in request order,
   * and the first refusal ends it.  Accepted lines come back priced, with
   * the row each one names and the running subtotal.
   */
  method PriceLines(catalog: seq<Product>, lines: seq<LineInput>)
    returns (r: Result<seq<PricedLine>, CheckoutError>, rows: seq<nat>, subtotal: Cents)
    ensures r == CheckLines(catalog, lines)
    ensures r.Ok? ==> subtotal == Subtotal(r.value) && |rows| == |r.value|
    ensures r.Ok? ==> forall j :: 0 <= j < |rows| ==>
      rows[j] < |catalog| && catalog[rows[j]].id == r.value[j].productId
  {
    subtotal := 0;
    var priced: seq<PricedLine> := [];
    rows := [];
    for i := 0 to |lines|
      invariant CheckLines(catalog, lines[..i]) == Ok(priced)
      invariant subtotal == Subtotal(priced)
      invariant |rows| == |priced| == i
      invariant forall j :: 0 <= j < i ==> rows[j] < |catalog| && catalog[rows[j]].id == priced[j].productId
    {
      var checked, row := CheckOneLine(catalog, lines[i]);
      if checked.Err? {
        RefuseStep(catalog, lines, i);
        return Err(checked.error), rows, subtotal;
      }
      var pl := checked.value;
      AcceptStep(catalog, lines, i, priced, pl);
      subtotal := subtotal + pl.lineTotal;
      priced := priced + [pl];
      rows := rows + [row];
    }
    assert lines[..|lines|] == lines;
    r := Ok(priced);
  }

  /**
   * The writing loop of order confirmation: one item row per priced line,
   * numbered from `firstId`, and the stock of the row each line names
   * lowered by its quantity.
   */
  method WriteItems(catalog: seq<Product>, existing: seq<OrderItem>, firstId: int, orderId: int,
                    priced: seq<PricedLine>, rows: seq<nat>)
    returns (stock: seq<Product>, written: seq<OrderItem>)
    requires UniqueProductIds(catalog) && |rows| == |priced|
    requires forall j :: 0 <= j < |rows| ==> rows[j] < |catalog| && catalog[rows[j]].id == priced[j].productId
    ensures stock == Decremented(catalog, priced)
    ensures written == existing + ItemsFor(orderId, firstId, priced)
  {
    stock := catalog;
    var added: seq<OrderItem> := [];
    for k := 0 to |priced|
      invariant stock == DecrementedUpTo(catalog, priced, k)
      invariant added == ItemsFor(orderId, firstId, priced[..k])
    {
      var pl := priced[k];
      var row := rows[k];
      DecrementStep(catalog, priced, row, k);
      ItemStep(firstId, orderId, priced, k);
      added := added + [OrderItem(firstId + k, orderId, pl.productId, pl.quantity, pl.unitPrice, pl.lineTotal)];
      stock := stock[row := stock[row].(stock := stock[row].stock - pl.quantity)];
    }
    written := existing + added;
  }

  /**
   * Confirming an order keeps the schema's constraints: the new order has a
   * fresh id, the new items fresh ids and existing rows to point at, and the
   * decrements change no key.
   */
  lemma ConfirmKeepsConstraints(products: seq<Product>, orders: seq<Order>, items: seq<OrderItem>,
                                ps: seq<PricedLine>, o: Order, firstItemId: int, nextProductId: int)
    requires ProductTable(products, items, orders, nextProductId)
    requires OrderTables(orders, items, o.id, firstItemId)
    requires forall k :: 0 <= k < |ps| ==> ps[k].productId in ProductIds(products)
    ensures ProductTable(Decremented(products, ps), items + ItemsFor(o.id, firstItemId, ps), orders + [o], nextProductId)
    ensures OrderTables(orders + [o], items + ItemsFor(o.id, firstItemId, ps), o.id + 1, firstItemId + |ps|)
  {
    DecrementedKeepsKeys(products, ps);
    var orders' := orders + [o];
    var added := ItemsFor(o.id, firstItemId, ps);
    var items' := items + added;
    assert o.id in OrderIds(orders') by {
      assert orders'[|orders|] == o;
    }
    assert forall k :: 0 <= k < |items| ==> items[k].orderId in OrderIds(orders') by {
      forall k | 0 <= k < |items| ensures items[k].orderId in OrderIds(orders') {
        var j :| 0 <= j < |orders| && orders[j].id == items[k].orderId;
        assert orders'[j] == orders[j];
      }
    }
    forall k | 0 <= k < |items'|
      ensures items'[k].orderId in OrderIds(orders') && items'[k].productId in ProductIds(Decremented(products, ps))
    {
      if k >= |items| {
        assert items'[k] == added[k - |items|];
      }
    }
  }

  /** Lines whose rows were found by id name existing products. */
  lemma RowsNameProducts(products: seq<Product>, ps: seq<PricedLine>, rows: seq<nat>)
    requires |rows| == |ps|
    requires forall j :: 0 <= j < |rows| ==> rows[j] < |products| && products[rows[j]].id == ps[j].productId
    ensures forall k :: 0 <= k < |ps| ==> ps[k].productId in ProductIds(products)
  {
    forall k | 0 <= k < |ps| ensures ps[k].productId in ProductIds(products) {
      assert products[rows[k]].id == ps[k].productId;
    }
  }

  /**
   * On update the database's UNIQUE check can only catch what the handler's
   * own check let through: an empty SKU held by another product.
   */
  lemma UniqueConstraintOnlyCatchesEmptySku(products: seq<Product>, i: nat, u: ProductUpdate, q: Product)
    requires i < |products| && UniqueSkus(products)
    requires q.sku == if u.sku.Some? then u.sku else products[i].sku
    requires !(u.sku.Some? && u.sku.value != [] && u.sku != products[i].sku && SkuTaken(products, u.sku.value, -1))
    requires q.sku.Some? && SkuTaken(products, q.sku.value, i)
    ensures u.sku == Some([])
  {
    var j :| 0 <= j < |products| && j != i && products[j].sku == q.sku;
    if u.sku.Some? && u.sku != products[i].sku {
      assert SkuTaken(products, u.sku.value, -1);
    }
  }

  /**
   * The loop of `list_products` that builds one serialized entry per row of
   * the page, in order; `view` is the serialization of one row.
   */
  method Serialize(rows: seq<Product>, view: Product -> ProductView) returns (data: seq<ProductView>)
    ensures |data| == |rows|
    ensures forall k :: 0 <= k < |rows| ==> data[k] == view(rows[k])
  {
    data := [];
    for k := 0 to |rows|
      invariant |data| == k
      invariant forall j :: 0 <= j < k ==> data[j] == view(rows[j])
    {
      data := data + [view(rows[k])];
    }
  }

  /** The `setattr` loop: the supplied fields set one after another, in order. */
  method SetSupplied(p: Product, fields: seq<FieldValue>) returns (q: Product)
    ensures q == ApplyFields(p, fields)
  {
    q := p;
    for k := 0 to |fields|
      invariant q == ApplyFields(p, fields[..k])
    {
      assert fields[..k + 1][..k] == fields[..k];
      q := SetField(q, fields[k]);
    }
    assert fields[..|fields|] == fields;
  }

  /**
   * The product table's constraints: unique ids and SKUs, every item
   * naming an existing order and product, and every id below the next one
   * to be issued.
   */
  ghost predicate ProductTable(products: seq<Product>, items: seq<OrderItem>, orders: seq<Order>, nextProductId: int) {
    UniqueProductIds(products) && UniqueSkus(products)
    && ItemsReferenceRows(items, orders, products)
    && (forall i :: 0 <= i < |products| ==> products[i].id < nextProductId)
  }

  /** The order tables' keys, each below the next id to be issued. */
  ghost predicate OrderTables(orders: seq<Order>, items: seq<OrderItem>, nextOrderId: int, nextItemId: int) {
    UniqueOrderIds(orders) && UniqueItemIds(items)
    && (forall i :: 0 <= i < |orders| ==> orders[i].id < nextOrderId)
    && (forall i :: 0 <= i < |items| ==> items[i].id < nextItemId)
  }

  /** Appending a product with the next id and a free SKU keeps the product table. */
  lemma AppendKeepsTable(products: seq<Product>, p: Product, items: seq<OrderItem>, orders: seq<Order>, next: int)
    requires ProductTable(products, items, orders, next) && p.id == next
    requires p.sku.Some? ==> !SkuTaken(products, p.sku.value, -1)
    ensures ProductTable(products + [p], items, orders, next + 1)
    ensures p.id !in ProductIds(products)
  {
    assert p.id !in ProductIds(products);
    AppendProductKeepsConstraints(products, p, items, orders);
    assert forall k :: 0 <= k < |products| ==> (products + [p])[k] == products[k];
  }

  /** Replacing a product under its own id, with a SKU no other row holds, keeps the product table. */
  lemma ReplaceKeepsTable(products: seq<Product>, i: nat, q: Product, items: seq<OrderItem>, orders: seq<Order>, next: int)
    requires ProductTable(products, items, orders, next) && i < |products|
    requires q.id == products[i].id
    requires q.sku.Some? ==> !SkuTaken(products, q.sku.value, i)
    ensures ProductTable(products[i := q], items, orders, next)
  {
    ReplaceProductKeepsConstraints(products, i, q, items, orders);
  }

  /** Removing a product no item names keeps the product table, and its id is gone. */
  lemma RemoveKeepsTable(products: seq<Product>, i: nat, items: seq<OrderItem>, orders: seq<Order>, next: int)
    requires ProductTable(products, items, orders, next) && i < |products|
    requires forall k :: 0 <= k < |items| ==> items[k].productId != products[i].id
    ensures ProductTable(products[..i] + products[i + 1..], items, orders, next)
    ensures products[i].id !in ProductIds(products[..i] + products[i + 1..])
  {
    RemoveProductKeepsConstraints(products, i, items, orders);
    RemoveKeepsIdsBelow(products, i, next);
  }

  class Store {
    var products: seq<Product>
    var coupons: seq<Coupon>
    var orders: seq<Order>
    var items: seq<OrderItem>
    var nextProductId: int
    var nextOrderId: int
    var nextItemId: int

    /** The schema's keys, UNIQUE columns and foreign keys, and fresh ids above every stored one. */
    ghost predicate Valid()
      reads this
    {
      ProductTable(products, items, orders, nextProductId) && UniqueCodes(coupons)
      && OrderTables(orders, items, nextOrderId, nextItemId)
    }

    /** An empty shop with its coupons already loaded. */
    constructor(coupons: seq<Coupon>)
      requires UniqueCodes(coupons)
      ensures Valid()
      ensures this.coupons == coupons && products == [] && orders == [] && items == []
    {
      this.coupons := coupons;
      products := [];
      orders := [];
      items := [];
      nextProductId := 1;
      nextOrderId := 1;
      nextItemId := 1;
    }

    /**
     * `POST /products`.  A non-empty SKU another product holds is a 409.
     * An empty SKU skips that check, and if another product holds the empty
     * SKU the database's UNIQUE constraint fails the insert (500).
     * Otherwise the row is appended with a fresh id.
     */
    method CreateProduct(data: ProductCreate, now: int) returns (r: Result<Product, CrudError>)
      requires Valid()
      modifies this
      ensures Valid()
      ensures r.Err? ==> unchanged(this)
      ensures r == Err(SkuConflict) <==> data.sku.Some? && data.sku.value != [] && SkuTaken(old(products), data.sku.value, -1)
      ensures r == Err(ServerError) <==> data.sku == Some([]) && SkuTaken(old(products), [], -1)
      ensures r.Err? ==> r.error != NotFound
      ensures r.Ok? ==> r.value == Product(old(nextProductId), data.name, data.description, data.price, data.stock,
                                           data.category, data.sku, data.imageUrl, now, now)
      ensures r.Ok? ==> products == old(products) + [r.value] && r.value.id !in ProductIds(old(products))
      ensures orders == old(orders) && items == old(items) && coupons == old(coupons)
    {
      if data.sku.Some? && data.sku.value != [] && SkuTaken(products, data.sku.value, -1) {
        return Err(SkuConflict);
      }
      if data.sku.Some? && SkuTaken(products, data.sku.value, -1) {
        return Err(ServerError);
      }
      var p := Product(nextProductId, data.name, data.description, data.price, data.stock,
                       data.category, data.sku, data.imageUrl, now, now);
      AppendKeepsTable(products, p, items, orders, nextProductId);
      products := products + [p];
      nextProductId := nextProductId + 1;
      r := Ok(p);
    }

    /**
     * `PUT /products/{id}`.  An unknown id is a 404; a non-empty SKU that
     * differs from the product's own and is held by another product is a
     * 409.  Otherwise the supplied fields are set one by one and
     * `updated_at` becomes now; an empty SKU already held elsewhere then
     * fails the UNIQUE constraint (500).
     */
    method UpdateProduct(id: int, u: ProductUpdate, now: int) returns (r: Result<Product, CrudError>)
      requires Valid()
      modifies this
      ensures Valid()
      ensures r.Err? ==> unchanged(this)
      ensures r == Err(NotFound) <==> id !in ProductIds(old(products))
      ensures r == Err(ServerError) ==> u.sku == Some([])
      ensures id in ProductIds(old(products)) ==>
        var i := ProductIndex(old(products), id).value;
        (r == Err(ServerError) <==> u.sku == Some([]) && SkuTaken(old(products), [], i))
      ensures id in ProductIds(old(products)) ==>
        var i := ProductIndex(old(products), id).value;
        (r == Err(SkuConflict) <==> u.sku.Some? && u.sku.value != [] && u.sku != old(products)[i].sku
                                    && SkuTaken(old(products), u.sku.value, -1))
        && (r.Ok? ==> r.value == Patched(old(products)[i], u).(updatedAt := now)
                      && products == old(products)[i := r.value])
      ensures orders == old(orders) && items == old(items) && coupons == old(coupons)
    {
      var found := ProductIndex(products, id);
      if found.None? {
        return Err(NotFound);
      }
      var i := found.value;
      var p := products[i];
      if u.sku.Some? && u.sku.value != [] && u.sku != p.sku && SkuTaken(products, u.sku.value, -1) {
        return Err(SkuConflict);
      }
      var q := SetSupplied(p, SuppliedFields(u));
      SetattrLoopIsPatch(p, u);
      q := q.(updatedAt := now);
      if q.sku.Some? && SkuTaken(products, q.sku.value, i) {
        UniqueConstraintOnlyCatchesEmptySku(products, i, u, q);
        return Err(ServerError);
      }
      ReplaceKeepsTable(products, i, q, items, orders, nextProductId);
      products := products[i := q];
      r := Ok(q);
    }

    /**
     * `DELETE /products/{id}`.  An unknown id is a 404.  A product some
     * order item names cannot go: the ORM would null the item's NOT NULL
     * product reference and the commit fails (500).  Otherwise the row is
     * removed and the rest keep their order.
     */
    method DeleteProduct(id: int) returns (err: Option<CrudError>)
      requires Valid()
      modifies this
      ensures Valid()
      ensures err.Some? ==> unchanged(this)
      ensures err == Some(NotFound) <==> id !in ProductIds(old(products))
      ensures err == Some(ServerError) <==>
        id in ProductIds(old(products)) && exists k :: 0 <= k < |items| && items[k].productId == id
      ensures err.None? ==> var i := ProductIndex(old(products), id).value;
                            products == old(products)[..i] + old(products)[i + 1..]
                            && id !in ProductIds(products)
      ensures orders == old(orders) && items == old(items) && coupons == old(coupons)
    {
      var found := ProductIndex(products, id);
      if found.None? {
        return Some(NotFound);
      }
      if exists k :: 0 <= k < |items| && items[k].productId == id {
        return Some(ServerError);
      }
      var i := found.value;
      var rest := products[..i] + products[i + 1..];
      RemoveKeepsTable(products, i, items, orders, nextProductId);
      products := rest;
      err := None;
    }

    /**
     * `GET /products`: the rows of the requested page, serialized, and the
     * number of products the search selects before paging.
     */
    method ListProducts(q: ListQuery) returns (page: ProductsPage)
      requires q.page >= 1 && q.pageSize >= 1
      ensures page.total == |Filtered(products, q.search)|
      ensures |page.data| == |Listing(products, q)| <= q.pageSize
      ensures forall k :: 0 <= k < |page.data| ==> page.data[k] == View(Listing(products, q)[k])
      ensures page.query == q
    {
      var total := |Filtered(products, q.search)|;
      var rows := Listing(products, q);
      ListingSelectedAndOrdered(products, q);
      var data := Serialize(rows, View);
      page := ProductsPage(data, total, q);
    }

    /**
     * `POST /orders/confirm`.  Every line is checked against the stock as it
     * was before the order; the first refused line refuses the order and
     * nothing is written.  Otherwise one order row (no user) carries the
     * subtotal, the coupon discount and the total, one item row per line
     * records the price read during the check, and each product's stock
     * drops by the quantities of the lines naming it.
     */
    method ConfirmOrder(request: OrderCreate, now: int) returns (r: Result<Order, CheckoutError>)
      requires Valid()
      modifies this
      ensures Valid()
      ensures CheckLines(old(products), request.items).Err? ==>
        r == Err(CheckLines(old(products), request.items).error) && unchanged(this)
      ensures CheckLines(old(products), request.items).Ok? ==>
        var ps := CheckLines(old(products), request.items).value;
        var t := OrderTotals(old(coupons), request.couponCode, ps, now);
        r == Ok(Order(old(nextOrderId), None, t.subtotal, t.discount, t.totalFinal, now))
        && orders == old(orders) + [r.value]
        && items == old(items) + ItemsFor(r.value.id, old(nextItemId), ps)
        && products == Decremented(old(products), ps)
      ensures coupons == old(coupons)
    {
      // Check and price every line; nothing is written yet.
      var checked, rows, subtotal := PriceLines(products, request.items);
      if checked.Err? {
        return Err(checked.error);
      }
      var priced := checked.value;

      // The coupon, the total and the order row.
      var t := OrderTotals(coupons, request.couponCode, priced, now);
      var order := Order(nextOrderId, None, t.subtotal, t.discount, t.totalFinal, now);
      AddOrder(order, priced, rows);
      r := Ok(order);
    }

    /**
     * The writing half of `POST /orders/confirm`, once every line is
     * accepted: the order row with the next order id, then one item row per
     * line and the stock decrements.
     */
    method AddOrder(order: Order, priced: seq<PricedLine>, rows: seq<nat>)
      requires Valid() && order.id == nextOrderId
      requires |rows| == |priced|
      requires forall j :: 0 <= j < |rows| ==> rows[j] < |products| && products[rows[j]].id == priced[j].productId
      modifies this
      ensures Valid()
      ensures orders == old(orders) + [order]
      ensures items == old(items) + ItemsFor(order.id, old(nextItemId), priced)
      ensures products == Decremented(old(products), priced)
      ensures coupons == old(coupons)
    {
      var newProducts, newItems := WriteItems(products, items, nextItemId, order.id, priced, rows);
      RowsNameProducts(products, priced, rows);
      ConfirmKeepsConstraints(products, orders, items, priced, order, nextItemId, nextProductId);
      products, items, orders := newProducts, newItems, orders + [order];
      nextOrderId, nextItemId := nextOrderId + 1, nextItemId + |priced|;
    }
  }
}
