/**
 * What order confirmation computes, as functions of the catalog and the
 * request: the check of every line against the catalog as it stood before
 * the order (the first failing line decides the error), the subtotal, the
 * discount and total, and the stock after the decrements.  The store's
 * confirmation method is proved against these.
 */
module Checkout {
  import opened Wrappers
  import opened Money
  import opened Models
  import opened Schemas
  import opened Coupons

  /** Why an order is refused. */
  datatype CheckoutError =
    | ProductNotFound(productId: int)
    | InsufficientStock(name: string, available: int, requested: int)
    | OutOfStock(name: string)

  /** The HTTP status each refusal is reported with. */
  function Status(e: CheckoutError): (code: int)
    ensures e.ProductNotFound? <==> code == 404
    ensures code == 404 || code == 409
  {
    match e
    case ProductNotFound(_) => 404
    case InsufficientStock(_, _, _) => 409
    case OutOfStock(_) => 409
  }

  /** A line that passed the check, priced with the catalog price read during the check. */
  datatype PricedLine = PricedLine(productId: int, quantity: int, unitPrice: Cents, lineTotal: Cents)

  /**
   * One line against the catalog: unknown product, then too little stock,
   * then no stock at all; a passing line is priced at the product's price.
   */
  function CheckLine(products: seq<Product>, line: LineInput): (r: Result<PricedLine, CheckoutError>)
    ensures r == Err(ProductNotFound(line.productId)) <==> line.productId !in ProductIds(products)
    ensures r.Ok? ==> var p := products[ProductIndex(products, line.productId).value];
                      r.value.productId == line.productId && r.value.quantity == line.quantity
                      && r.value.unitPrice == p.price && r.value.lineTotal == p.price * line.quantity
                      && line.quantity <= p.stock && p.stock != 0
    ensures r.Ok? <==> line.productId in ProductIds(products)
                       && var p := products[ProductIndex(products, line.productId).value];
                          line.quantity <= p.stock && p.stock != 0
    ensures r.Err? && r.error.InsufficientStock? <==>
      line.productId in ProductIds(products)
      && products[ProductIndex(products, line.productId).value].stock < line.quantity
    ensures r.Err? && !r.error.ProductNotFound? ==>
      var p := products[ProductIndex(products, line.productId).value];
      r.error == (if p.stock < line.quantity then InsufficientStock(p.name, p.stock, line.quantity)
                  else OutOfStock(p.name))
  {
    match ProductIndex(products, line.productId)
    case None => Err(ProductNotFound(line.productId))
    case Some(i) =>
      var p := products[i];
      if p.stock < line.quantity then Err(InsufficientStock(p.name, p.stock, line.quantity))
      else if p.stock == 0 then Err(OutOfStock(p.name))
      else Ok(PricedLine(p.id, line.quantity, p.price, p.price * line.quantity))
  }

  /**
   * All lines in request order, each against the catalog as it was before
   * the order: the result is every line priced, or the error of the first
   * line that fails.
   */
  function CheckLines(products: seq<Product>, lines: seq<LineInput>): Result<seq<PricedLine>, CheckoutError>
    decreases |lines|
  {
    if lines == [] then Ok([])
    else
      match CheckLines(products, lines[..|lines| - 1])
      case Err(e) => Err(e)
      case Ok(ps) =>
        match CheckLine(products, lines[|lines| - 1])
        case Err(e) => Err(e)
        case Ok(p) => Ok(ps + [p])
  }

  /**
   * The lines are all accepted exactly when each passes the per-line
   * check, and then they come back priced one for one, in request order.
   */
  lemma {:induction false} CheckLinesAccepts(products: seq<Product>, lines: seq<LineInput>)
    ensures var r := CheckLines(products, lines);
      && (r.Ok? <==> forall k :: 0 <= k < |lines| ==> CheckLine(products, lines[k]).Ok?)
      && (r.Ok? ==> |r.value| == |lines| && forall k :: 0 <= k < |lines| ==> r.value[k] == CheckLine(products, lines[k]).value)
    decreases |lines|
  {
    if lines != [] {
      var init := lines[..|lines| - 1];
      CheckLinesAccepts(products, init);
      assert forall k :: 0 <= k < |init| ==> init[k] == lines[k];
    }
  }

  /**
   * A refusal is the error of a failing line with every line before it
   * accepted, so the first failing line decides.
   */
  lemma {:induction false} CheckLinesFirstRefusal(products: seq<Product>, lines: seq<LineInput>)
    ensures var r := CheckLines(products, lines);
      r.Err? ==> exists k :: 0 <= k < |lines| && CheckLine(products, lines[k]) == Err(r.error)
                             && forall j :: 0 <= j < k ==> CheckLine(products, lines[j]).Ok?
    decreases |lines|
  {
    if lines != [] {
      var init := lines[..|lines| - 1];
      CheckLinesFirstRefusal(products, init);
      CheckLinesAccepts(products, init);
      assert forall k :: 0 <= k < |init| ==> init[k] == lines[k];
    }
  }

  /** A refused line is refused for being out of stock only when its quantity is not positive. */
  lemma OutOfStockNeedsNonPositiveQuantity(products: seq<Product>, line: LineInput)
    ensures CheckLine(products, line).Err? && CheckLine(products, line).error.OutOfStock?
            <==> line.productId in ProductIds(products)
                 && products[ProductIndex(products, line.productId).value].stock == 0 && line.quantity <= 0
  {
  }

  /**
   * Because a validated order has only quantities of at least one, the
   * out-of-stock refusal never happens: a product without stock fails the
   * insufficient-stock test first.
   */
  lemma {:induction false} NeverOutOfStock(products: seq<Product>, o: OrderCreate)
    requires ValidateOrderCreate(o).Ok?
    ensures CheckLines(products, o.items).Err? ==> !CheckLines(products, o.items).error.OutOfStock?
  {
    var r := CheckLines(products, o.items);
    CheckLinesFirstRefusal(products, o.items);
    if r.Err? {
      var k :| 0 <= k < |o.items| && CheckLine(products, o.items[k]) == Err(r.error);
      assert LineOk(o.items[k]);
      OutOfStockNeedsNonPositiveQuantity(products, o.items[k]);
    }
  }

  // ---------------------------------------------------------------------
  // Amounts

  /** The running subtotal: the sum of the line totals. */
  function Subtotal(ps: seq<PricedLine>): (r: Cents)
    ensures (forall k :: 0 <= k < |ps| ==> ps[k].lineTotal >= 0) ==> r >= 0
  {
    if ps == [] then 0 else Subtotal(ps[..|ps| - 1]) + ps[|ps| - 1].lineTotal
  }

  /** The price of a catalog product, zero for an unknown one. */
  function PriceOf(products: seq<Product>, id: int): Cents {
    match ProductIndex(products, id)
    case None => 0
    case Some(i) => products[i].price
  }

  /** The value of the request at catalog prices, summed from the first line on. */
  function RequestValue(products: seq<Product>, lines: seq<LineInput>): Cents
    decreases |lines|
  {
    if lines == [] then 0 else PriceOf(products, lines[0].productId) * lines[0].quantity + RequestValue(products, lines[1..])
  }

  lemma {:induction false} RequestValueSnoc(products: seq<Product>, lines: seq<LineInput>, l: LineInput)
    ensures RequestValue(products, lines + [l]) == RequestValue(products, lines) + PriceOf(products, l.productId) * l.quantity
    decreases |lines|
  {
    if lines == [] {
      assert [l][1..] == [];
    } else {
      assert (lines + [l])[1..] == lines[1..] + [l];
      RequestValueSnoc(products, lines[1..], l);
    }
  }

  /** The subtotal of an accepted order is the sum of price times quantity over its lines. */
  lemma {:induction false} SubtotalIsRequestValue(products: seq<Product>, lines: seq<LineInput>)
    requires CheckLines(products, lines).Ok?
    ensures Subtotal(CheckLines(products, lines).value) == RequestValue(products, lines)
    decreases |lines|
  {
    if lines != [] {
      var init := lines[..|lines| - 1];
      var last := lines[|lines| - 1];
      assert lines == init + [last];
      var ps := CheckLines(products, lines).value;
      assert CheckLines(products, init).Ok?;
      SubtotalIsRequestValue(products, init);
      assert ps[..|ps| - 1] == CheckLines(products, init).value;
      RequestValueSnoc(products, init, last);
    }
  }

  /** The three amounts stored on the order. */
  datatype Totals = Totals(subtotal: Cents, discount: Cents, totalFinal: Cents)

  /** Subtotal, the coupon discount on it and the total after discount. */
  function OrderTotals(coupons: seq<Coupon>, code: Option<string>, ps: seq<PricedLine>, now: int): (t: Totals)
    ensures t.subtotal == Subtotal(ps)
    ensures t.discount == Discount(coupons, code, t.subtotal, now)
    ensures t.totalFinal + t.discount == t.subtotal
  {
    var s := Subtotal(ps);
    var d := Discount(coupons, code, s, now);
    Totals(s, d, s - d)
  }

  /**
   * With non-negative prices and discount percentages within 0-100 the
   * total lies between zero and the subtotal.
   */
  lemma TotalBounded(coupons: seq<Coupon>, code: Option<string>, ps: seq<PricedLine>, now: int)
    requires forall k :: 0 <= k < |ps| ==> ps[k].lineTotal >= 0
    requires forall k :: 0 <= k < |coupons| ==> 0 <= coupons[k].discountPercent <= 100
    ensures 0 <= OrderTotals(coupons, code, ps, now).totalFinal <= OrderTotals(coupons, code, ps, now).subtotal
  {
    DiscountBounded(coupons, code, Subtotal(ps), now);
  }

  // ---------------------------------------------------------------------
  // Stock

  /** Every product with this id loses `qty` units. */
  function Decrement(products: seq<Product>, id: int, qty: int): (r: seq<Product>)
    ensures |r| == |products|
    ensures forall i :: 0 <= i < |products| ==>
      r[i] == if products[i].id == id then products[i].(stock := products[i].stock - qty) else products[i]
  {
    seq(|products|, i requires 0 <= i < |products| =>
      if products[i].id == id then products[i].(stock := products[i].stock - qty) else products[i])
  }

  /** The catalog after the decrements of the accepted lines, applied in order. */
  function Decremented(products: seq<Product>, ps: seq<PricedLine>): (r: seq<Product>)
    ensures |r| == |products|
  {
    DecrementedUpTo(products, ps, |ps|)
  }

  /** The catalog after the decrements of the first `n` lines. */
  function DecrementedUpTo(products: seq<Product>, ps: seq<PricedLine>, n: nat): (r: seq<Product>)
    requires n <= |ps|
    ensures |r| == |products|
    decreases n
  {
    if n == 0 then products
    else Decrement(DecrementedUpTo(products, ps, n - 1), ps[n - 1].productId, ps[n - 1].quantity)
  }

  /** The decrements change only stock, so every row keeps its id. */
  lemma {:induction false} DecrementedUpToKeepsIds(products: seq<Product>, ps: seq<PricedLine>, n: nat)
    requires n <= |ps|
    ensures forall i :: 0 <= i < |products| ==> DecrementedUpTo(products, ps, n)[i].id == products[i].id
    decreases n
  {
    if n > 0 {
      DecrementedUpToKeepsIds(products, ps, n - 1);
    }
  }

  /** The total quantity the lines take from one product. */
  function QuantityFor(ps: seq<PricedLine>, id: int): int
    decreases |ps|
  {
    if ps == [] then 0
    else QuantityFor(ps[..|ps| - 1], id) + (if ps[|ps| - 1].productId == id then ps[|ps| - 1].quantity else 0)
  }

  /**
   * After the decrements each product has lost exactly the summed quantity
   * of the lines naming it; everything else about it, and every product no
   * line names, is unchanged.
   */
  lemma {:induction false} DecrementedClosedForm(products: seq<Product>, ps: seq<PricedLine>)
    ensures forall i :: 0 <= i < |products| ==>
      Decremented(products, ps)[i] == products[i].(stock := products[i].stock - QuantityFor(ps, products[i].id))
  {
    DecrementedUpToClosedForm(products, ps, |ps|);
    assert ps[..|ps|] == ps;
  }

  /** The closed form after the first `n` lines. */
  lemma {:induction false} DecrementedUpToClosedForm(products: seq<Product>, ps: seq<PricedLine>, n: nat)
    requires n <= |ps|
    ensures forall i :: 0 <= i < |products| ==>
      DecrementedUpTo(products, ps, n)[i] == products[i].(stock := products[i].stock - QuantityFor(ps[..n], products[i].id))
    decreases n
  {
    if n > 0 {
      DecrementedUpToClosedForm(products, ps, n - 1);
      assert ps[..n][..n - 1] == ps[..n - 1];
    }
  }

  /** The product ids survive the decrements. */
  lemma DecrementedKeepsIds(products: seq<Product>, ps: seq<PricedLine>)
    ensures forall i :: 0 <= i < |products| ==> Decremented(products, ps)[i].id == products[i].id
    ensures ProductIds(Decremented(products, ps)) == ProductIds(products)
  {
    DecrementedClosedForm(products, ps);
    var r := Decremented(products, ps);
    assert forall x :: x in ProductIds(r) ==> x in ProductIds(products) by {
      forall x | x in ProductIds(r) ensures x in ProductIds(products) {
        var i :| 0 <= i < |r| && r[i].id == x;
        assert products[i].id == x;
      }
    }
    assert forall x :: x in ProductIds(products) ==> x in ProductIds(r) by {
      forall x | x in ProductIds(products) ensures x in ProductIds(r) {
        var i :| 0 <= i < |products| && products[i].id == x;
        assert r[i].id == x;
      }
    }
  }

  /**
   * Each line passes against the stock before the order, so two lines for
   * the same product can together take more than there is: one unit in
   * stock, two lines of one unit, and the stock ends at -1.
   */
  lemma DuplicateLinesOverdraw()
    ensures var products := [Product(1, "Caderno", None, 1590, 1, "Cadernos", None, None, 0, 0)];
            var lines := [LineInput(1, 1), LineInput(1, 1)];
            CheckLines(products, lines).Ok? && Decremented(products, CheckLines(products, lines).value)[0].stock == -1
  {
    var products := [Product(1, "Caderno", None, 1590, 1, "Cadernos", None, None, 0, 0)];
    var lines := [LineInput(1, 1), LineInput(1, 1)];
    assert CheckLine(products, lines[0]).Ok?;
    CheckLinesAccepts(products, lines);
    var ps := CheckLines(products, lines).value;
    DecrementedClosedForm(products, ps);
    assert ps[..1][..0] == [];
    assert QuantityFor(ps[..1], 1) == 1;
    assert QuantityFor(ps, 1) == 2;
  }

  /**
   * The seeded catalog: a notebook at 15.90 with 50 in stock and the
   * ALUNO10 coupon (10%, valid for a year).  Two notebooks give a subtotal
   * of 31.80, a discount of 3.18 and a total of 28.62, and leave 48 in stock.
   */
  lemma SeedOrder(now: int)
    ensures var products := [Product(1, "Caderno Espiral Universitário 200 Folhas", None, 1590, 50, "Cadernos", Some("CAD-ESP-200"), None, now, now)];
            var coupons := [Coupon(1, "ALUNO10", 10, true, Some(now + 365), now)];
            var lines := [LineInput(1, 2)];
            CheckLines(products, lines).Ok?
            && OrderTotals(coupons, Some("ALUNO10"), CheckLines(products, lines).value, now) == Totals(3180, 318, 2862)
            && Decremented(products, CheckLines(products, lines).value)[0].stock == 48
  {
    var products := [Product(1, "Caderno Espiral Universitário 200 Folhas", None, 1590, 50, "Cadernos", Some("CAD-ESP-200"), None, now, now)];
    var coupons := [Coupon(1, "ALUNO10", 10, true, Some(now + 365), now)];
    var line := LineInput(1, 2);
    var ps := [PricedLine(1, 2, 1590, 3180)];
    assert CheckLine(products, line) == Ok(ps[0]);
    SingleLineAccepted(products, line);
    assert ps[..0] == [];
    assert Matches(coupons[0], "ALUNO10");
    assert CheckoutCoupon(coupons, Some("ALUNO10"), now) == Some(coupons[0]);
    TenPercentOfSeedSubtotal(coupons, Some("ALUNO10"), now);
    DecrementedClosedForm(products, ps);
  }

  /** A request of one accepted line is accepted as that one priced line. */
  lemma SingleLineAccepted(products: seq<Product>, line: LineInput)
    requires CheckLine(products, line).Ok?
    ensures CheckLines(products, [line]) == Ok([CheckLine(products, line).value])
  {
    var r := CheckLines(products, [line]);
    CheckLinesAccepts(products, [line]);
    assert r.Ok? && |r.value| == 1;
    assert r.value == [CheckLine(products, line).value];
  }

  /** Ten percent of 31.80, rounded half up, is 3.18. */
  lemma TenPercentOfSeedSubtotal(coupons: seq<Coupon>, code: Option<string>, now: int)
    requires CheckoutCoupon(coupons, code, now).Some? && CheckoutCoupon(coupons, code, now).value.discountPercent == 10
    ensures Discount(coupons, code, 3180, now) == 318
  {
    var d := Discount(coupons, code, 3180, now);
    assert 2 * Abs(31800 - 100 * d) <= 100;
  }
}
