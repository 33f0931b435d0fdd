/**
 * The shopping cart the storefront page keeps in the browser: a list of
 * `{product_id, quantity, product}` lines with add-or-merge, set-quantity,
 * remove and clear, the badge count, the coupon the shopper applied, and
 * the payload sent to order confirmation.  The server's answers are
 * parameters: the model decides only what the page does with them.
 */
module BrowserCart {
  import opened Wrappers
  import opened Text
  import opened Coupons
  import opened Schemas
  import opened Models

  /** The product fields a cart line keeps and the cart logic reads. */
  datatype CartProduct = CartProduct(id: int, name: string, stock: int)

  /** One cart line: the product id, the quantity and the product as it was when first added. */
  datatype CartLine = CartLine(productId: int, quantity: int, product: CartProduct)

  /** No two lines for the same product. */
  predicate UniqueLines(lines: seq<CartLine>) {
    forall i, j :: 0 <= i < j < |lines| ==> lines[i].productId != lines[j].productId
  }

  predicate HasLine(lines: seq<CartLine>, id: int) {
    exists k :: 0 <= k < |lines| && lines[k].productId == id
  }

  function Min(a: int, b: int): (r: int)
    ensures r <= a && r <= b && (r == a || r == b)
  {
    if a < b then a else b
  }

  /** `cart.find(item => item.product_id === id)`: the position of the first line for the product. */
  function FindLine(lines: seq<CartLine>, id: int): (r: Option<nat>)
    ensures r.Some? ==> r.value < |lines| && lines[r.value].productId == id
    ensures r.Some? ==> forall j :: 0 <= j < r.value ==> lines[j].productId != id
    ensures r.None? <==> !HasLine(lines, id)
    decreases |lines|
  {
    if lines == [] then None
    else if lines[0].productId == id then Some(0)
    else
      assert forall j :: 1 <= j < |lines| ==> lines[j] == lines[1..][j - 1];
      match FindLine(lines[1..], id)
      case None => None
      case Some(i) => Some(i + 1)
  }

  /** In a cart without repeated products the line found is the only one for its product. */
  lemma FoundLineIsOnly(lines: seq<CartLine>, id: int)
    requires UniqueLines(lines) && FindLine(lines, id).Some?
    ensures forall k :: 0 <= k < |lines| && lines[k].productId == id ==> k == FindLine(lines, id).value
  {
  }

  // ---------------------------------------------------------------------
  // The cart after each operation

  /**
   * `addItem(product, quantity)`: a product already in the cart gets the
   * quantity added to its line, capped at the stock of the product passed
   * in; a new product gets one line at the end with the quantity capped
   * the same way.
   */
  function Added(lines: seq<CartLine>, p: CartProduct, quantity: int): seq<CartLine> {
    match FindLine(lines, p.id)
    case Some(i) => lines[i := lines[i].(quantity := Min(lines[i].quantity + quantity, p.stock))]
    case None => lines + [CartLine(p.id, Min(quantity, p.stock), p)]
  }

  /**
   * Adding keeps one line per product: the product's line is merged into
   * when there is one and appended otherwise, every other line stays as it
   * was, and the product's line ends at or below the stock passed in
   * (`AddedMergedLine` gives the merged quantity).
   */
  /** The merged line holds the old quantity plus the added one, capped at the stock. */
  lemma AddedMergedLine(lines: seq<CartLine>, p: CartProduct, quantity: int, i: nat)
    requires FindLine(lines, p.id) == Some(i)
    ensures i < |lines| && |Added(lines, p, quantity)| == |lines|
    ensures Added(lines, p, quantity)[i] == lines[i].(quantity := Min(lines[i].quantity + quantity, p.stock))
  {
  }

  lemma AddedMergesOrAppends(lines: seq<CartLine>, p: CartProduct, quantity: int)
    ensures HasLine(lines, p.id) ==> |Added(lines, p, quantity)| == |lines|
    ensures !HasLine(lines, p.id) ==>
      var r := Added(lines, p, quantity);
      |r| == |lines| + 1 && r[..|lines|] == lines && r[|lines|] == CartLine(p.id, Min(quantity, p.stock), p)
    ensures forall k :: 0 <= k < |lines| && lines[k].productId != p.id ==> Added(lines, p, quantity)[k] == lines[k]
    ensures var r := Added(lines, p, quantity);
            FindLine(r, p.id).Some? && r[FindLine(r, p.id).value].quantity <= p.stock
    ensures UniqueLines(lines) ==> UniqueLines(Added(lines, p, quantity))
  {
    var r := Added(lines, p, quantity);
    match FindLine(lines, p.id)
    case Some(i) =>
      assert r == lines[i := lines[i].(quantity := Min(lines[i].quantity + quantity, p.stock))];
      assert FindLine(r, p.id) == Some(i) by {
        assert forall j :: 0 <= j < |lines| ==> r[j].productId == lines[j].productId;
      }
    case None =>
      assert r == lines + [CartLine(p.id, Min(quantity, p.stock), p)];
      assert FindLine(r, p.id) == Some(|lines|) by {
        assert forall j :: 0 <= j < |lines| ==> r[j] == lines[j];
        assert r[|lines|].productId == p.id;
        assert HasLine(r, p.id);
      }
  }

  /**
   * The cart without any line for the product, the other lines in their
   * original order (`cart.filter(item => item.product_id !== id)`).
   */
  function Without(lines: seq<CartLine>, id: int): (r: seq<CartLine>)
    ensures |r| <= |lines|
    ensures !HasLine(r, id)
    ensures forall l :: l in r ==> l in lines
    ensures forall l :: l in lines && l.productId != id ==> l in r
    decreases |lines|
  {
    if lines == [] then []
    else
      var init := Without(lines[..|lines| - 1], id);
      var last := lines[|lines| - 1];
      assert forall l :: l in lines ==> l in lines[..|lines| - 1] || l == last;
      init + (if last.productId != id then [last] else [])
  }

  /** Filtering keeps the order: the filtered cart is the filtered front followed by the filtered back. */
  lemma {:induction false} WithoutAppend(a: seq<CartLine>, b: seq<CartLine>, id: int)
    ensures Without(a + b, id) == Without(a, id) + Without(b, id)
    decreases |b|
  {
    if b == [] {
      assert a + b == a;
    } else {
      var b' := b[..|b| - 1];
      assert (a + b)[..|a + b| - 1] == a + b';
      WithoutAppend(a, b', id);
    }
  }

  /** A cart with no line for the product comes through the filter unchanged. */
  lemma {:induction false} WithoutAbsent(lines: seq<CartLine>, id: int)
    requires !HasLine(lines, id)
    ensures Without(lines, id) == lines
    decreases |lines|
  {
    if lines != [] {
      var n := |lines| - 1;
      var init := lines[..n];
      assert !HasLine(init, id) by {
        forall k | 0 <= k < n ensures init[k].productId != id {
          assert init[k] == lines[k];
        }
      }
      WithoutAbsent(init, id);
      assert lines[n].productId != id;
      assert lines == init + [lines[n]];
    }
  }

  /** Filtering never creates a repeated product. */
  lemma {:induction false} WithoutKeepsUnique(lines: seq<CartLine>, id: int)
    requires UniqueLines(lines)
    ensures UniqueLines(Without(lines, id))
    decreases |lines|
  {
    if lines != [] {
      var init := lines[..|lines| - 1];
      var last := lines[|lines| - 1];
      WithoutKeepsUnique(init, id);
      assert forall l :: l in Without(init, id) ==> l.productId != last.productId by {
        forall l | l in Without(init, id) ensures l.productId != last.productId {
          var k :| 0 <= k < |init| && init[k] == l;
        }
      }
    }
  }

  /**
   * `updateQuantity(id, quantity)`: nothing happens for a product not in the
   * cart; a quantity of zero or less removes the product; otherwise the
   * line's quantity becomes the requested one capped at the stock recorded
   * in the line.
   */
  function QuantitySet(lines: seq<CartLine>, id: int, quantity: int): (r: seq<CartLine>)
    ensures !HasLine(lines, id) ==> r == lines
    ensures HasLine(lines, id) && quantity <= 0 ==> r == Without(lines, id)
    ensures HasLine(lines, id) && quantity > 0 ==>
      var i := FindLine(lines, id).value;
      |r| == |lines| && r[i] == lines[i].(quantity := Min(quantity, lines[i].product.stock))
      && forall k :: 0 <= k < |lines| && k != i ==> r[k] == lines[k]
  {
    match FindLine(lines, id)
    case None => lines
    case Some(i) =>
      if quantity <= 0 then Without(lines, id)
      else lines[i := lines[i].(quantity := Min(quantity, lines[i].product.stock))]
  }

  /** Setting a quantity never creates a repeated product. */
  lemma QuantitySetKeepsUnique(lines: seq<CartLine>, id: int, quantity: int)
    requires UniqueLines(lines)
    ensures UniqueLines(QuantitySet(lines, id, quantity))
  {
    if HasLine(lines, id) && quantity <= 0 {
      WithoutKeepsUnique(lines, id);
    }
  }

  // ---------------------------------------------------------------------
  // The badge

  /** The badge count: the quantities of all lines added up. */
  function Badge(lines: seq<CartLine>): int
    decreases |lines|
  {
    if lines == [] then 0 else Badge(lines[..|lines| - 1]) + lines[|lines| - 1].quantity
  }

  lemma {:induction false} BadgeAppend(a: seq<CartLine>, b: seq<CartLine>)
    ensures Badge(a + b) == Badge(a) + Badge(b)
    decreases |b|
  {
    if b == [] {
      assert a + b == a;
    } else {
      var b' := b[..|b| - 1];
      assert (a + b)[..|a + b| - 1] == a + b';
      BadgeAppend(a, b');
    }
  }

  /** Changing one line changes the badge by that line's change of quantity. */
  lemma {:induction false} BadgeReplace(lines: seq<CartLine>, i: nat, l: CartLine)
    requires i < |lines|
    ensures Badge(lines[i := l]) == Badge(lines) - lines[i].quantity + l.quantity
    decreases |lines|
  {
    var n := |lines| - 1;
    if i < n {
      assert lines[i := l][..n] == lines[..n][i := l];
      BadgeReplace(lines[..n], i, l);
    } else {
      assert lines[i := l][..n] == lines[..n];
    }
  }

  /** Removing a product takes exactly its line's quantity off the badge. */
  lemma {:induction false} BadgeWithout(lines: seq<CartLine>, id: int)
    requires UniqueLines(lines) && HasLine(lines, id)
    ensures Badge(Without(lines, id)) == Badge(lines) - lines[FindLine(lines, id).value].quantity
    decreases |lines|
  {
    var n := |lines| - 1;
    var init := lines[..n];
    var last := lines[n];
    assert UniqueLines(init);
    FoundLineIsOnly(lines, id);
    if last.productId == id {
      assert FindLine(lines, id).value == n;
      assert !HasLine(init, id) by {
        forall k | 0 <= k < n ensures init[k].productId != id {
          assert init[k] == lines[k];
        }
      }
      WithoutAbsent(init, id);
      assert Without(lines, id) == init;
    } else {
      var i := FindLine(lines, id).value;
      assert i < n && init[i] == lines[i];
      assert HasLine(init, id);
      FoundLineIsOnly(init, id);
      assert FindLine(init, id).value == i;
      BadgeWithout(init, id);
      var w := Without(init, id);
      assert Without(lines, id) == w + [last];
      assert (w + [last])[..|w|] == w;
    }
  }

  /**
   * Adding raises the badge by the quantity that actually went in: the
   * capped new line, or the change of the existing line.
   */
  lemma BadgeAfterAdd(lines: seq<CartLine>, p: CartProduct, quantity: int)
    ensures !HasLine(lines, p.id) ==> Badge(Added(lines, p, quantity)) == Badge(lines) + Min(quantity, p.stock)
    ensures HasLine(lines, p.id) ==>
      var q := lines[FindLine(lines, p.id).value].quantity;
      Badge(Added(lines, p, quantity)) == Badge(lines) - q + Min(q + quantity, p.stock)
  {
    var found := FindLine(lines, p.id);
    if found.Some? {
      BadgeAfterMerge(lines, p, quantity, found.value);
    } else {
      BadgeAfterAppend(lines, p, quantity);
    }
  }

  lemma BadgeAfterMerge(lines: seq<CartLine>, p: CartProduct, quantity: int, i: nat)
    requires FindLine(lines, p.id) == Some(i)
    ensures Badge(Added(lines, p, quantity)) == Badge(lines) - lines[i].quantity + Min(lines[i].quantity + quantity, p.stock)
  {
    BadgeReplace(lines, i, lines[i].(quantity := Min(lines[i].quantity + quantity, p.stock)));
  }

  lemma BadgeAfterAppend(lines: seq<CartLine>, p: CartProduct, quantity: int)
    requires FindLine(lines, p.id).None?
    ensures Badge(Added(lines, p, quantity)) == Badge(lines) + Min(quantity, p.stock)
  {
    var l := CartLine(p.id, Min(quantity, p.stock), p);
    assert Added(lines, p, quantity) == lines + [l];
    assert (lines + [l])[..|lines|] == lines;
  }

  // ---------------------------------------------------------------------
  // The confirmation payload

  /** `cart.map(item => ({product_id, quantity}))`: one order line per cart line, in cart order. */
  function PayloadItems(lines: seq<CartLine>): (r: seq<LineInput>)
    ensures |r| == |lines|
    ensures forall k :: 0 <= k < |lines| ==> r[k] == LineInput(lines[k].productId, lines[k].quantity)
    decreases |lines|
  {
    if lines == [] then []
    else PayloadItems(lines[..|lines| - 1]) + [LineInput(lines[|lines| - 1].productId, lines[|lines| - 1].quantity)]
  }

  /** The confirmation body: the cart's lines and the applied coupon's code, if any. */
  function Payload(lines: seq<CartLine>, applied: Option<CouponCheck>): (r: OrderCreate)
    ensures r.items == PayloadItems(lines)
    ensures r.couponCode.Some? <==> applied.Some?
    ensures applied.Some? ==> r.couponCode.value == applied.value.code
  {
    OrderCreate(PayloadItems(lines), if applied.Some? then Some(applied.value.code) else None)
  }

  /**
   * The server accepts the body the cart sends exactly when the cart is not
   * empty and every line names a positive product id with a quantity of at
   * least one.
   */
  lemma PayloadValidates(lines: seq<CartLine>, applied: Option<CouponCheck>)
    ensures ValidateOrderCreate(Payload(lines, applied)).Ok?
            <==> lines != [] && forall k :: 0 <= k < |lines| ==> lines[k].productId > 0 && lines[k].quantity >= 1
  {
    var items := Payload(lines, applied).items;
    assert forall k :: 0 <= k < |lines| ==> (LineOk(items[k]) <==> lines[k].productId > 0 && lines[k].quantity >= 1);
  }

  /**
   * A product whose stock is zero, added for the first time with a
   * non-negative quantity, gets a line of quantity zero; the cart can then
   * no longer be confirmed, since the server refuses a line below one.
   */
  lemma ZeroStockAddBlocksConfirmation(lines: seq<CartLine>, p: CartProduct, quantity: int, applied: Option<CouponCheck>)
    requires !HasLine(lines, p.id) && p.stock == 0 && quantity >= 0
    ensures |Added(lines, p, quantity)| == |lines| + 1 && Added(lines, p, quantity)[|lines|].quantity == 0
    ensures ValidateOrderCreate(Payload(Added(lines, p, quantity), applied)).Err?
  {
    AddedMergesOrAppends(lines, p, quantity);
    var r := Added(lines, p, quantity);
    PayloadValidates(r, applied);
    assert r[|lines|].quantity < 1;
  }

  /**
   * A coupon code the shopper types is worth sending only when something
   * other than white space is left after trimming.
   */
  predicate CouponCodeEntered(code: string) {
    Trim(code) != []
  }

  // ---------------------------------------------------------------------
  // The page state

  class Cart {
    var lines: seq<CartLine>
    var applied: Option<CouponCheck>

    /** No product is listed twice, and only a coupon the server accepted is kept. */
    ghost predicate Valid()
      reads this
    {
      UniqueLines(lines) && (applied.Some? ==> applied.value.valid)
    }

    /** An empty cart with no coupon. */
    constructor()
      ensures Valid() && lines == [] && applied == None
    {
      lines := [];
      applied := None;
    }

    /** `cartManager.addItem`: merge into the product's line or append a new one. */
    method AddItem(product: CartProduct, quantity: int)
      requires Valid()
      modifies this
      ensures Valid()
      ensures lines == Added(old(lines), product, quantity)
      ensures applied == old(applied)
    {
      AddedMergesOrAppends(lines, product, quantity);
      var found := FindLine(lines, product.id);
      if found.Some? {
        var i := found.value;
        var q := lines[i].quantity + quantity;
        if q > product.stock {
          q := product.stock;
        }
        lines := lines[i := lines[i].(quantity := q)];
      } else {
        lines := lines + [CartLine(product.id, Min(quantity, product.stock), product)];
      }
    }

    /** `cartManager.updateQuantity`. */
    method UpdateQuantity(productId: int, quantity: int)
      requires Valid()
      modifies this
      ensures Valid()
      ensures lines == QuantitySet(old(lines), productId, quantity)
      ensures applied == old(applied)
    {
      QuantitySetKeepsUnique(lines, productId, quantity);
      var found := FindLine(lines, productId);
      if found.None? {
        return;
      }
      if quantity <= 0 {
        RemoveItem(productId);
        return;
      }
      var i := found.value;
      var q := quantity;
      if q > lines[i].product.stock {
        q := lines[i].product.stock;
      }
      lines := lines[i := lines[i].(quantity := q)];
    }

    /** `cartManager.removeItem`: drop every line for the product. */
    method RemoveItem(productId: int)
      requires Valid()
      modifies this
      ensures Valid()
      ensures lines == Without(old(lines), productId)
      ensures applied == old(applied)
    {
      WithoutKeepsUnique(lines, productId);
      lines := Without(lines, productId);
    }

    /** `cartManager.clear`: no lines and no coupon. */
    method Clear()
      modifies this
      ensures Valid()
      ensures lines == [] && applied == None
    {
      lines := [];
      applied := None;
    }

    /**
     * `couponManager.applyCoupon(code)`.  A code that is empty or only
     * white space is refused on the page: nothing is sent and nothing
     * changes.  Otherwise the trimmed code is sent, and the server's reply
     * (`None` when the request failed) is kept only if it says valid.
     */
    method ApplyCoupon(code: string, reply: Option<CouponCheck>) returns (sent: Option<string>)
      requires Valid()
      modifies this
      ensures Valid()
      ensures sent.None? <==> !CouponCodeEntered(code)
      ensures sent.Some? ==> sent.value == Trim(code) && sent.value != []
      ensures applied == if sent.Some? && reply.Some? && reply.value.valid then reply else old(applied)
      ensures lines == old(lines)
    {
      if Trim(code) == [] {
        return None;
      }
      sent := Some(Trim(code));
      if reply.Some? && reply.value.valid {
        applied := reply;
      }
    }

    /** `couponManager.removeCoupon`. */
    method RemoveCoupon()
      requires Valid()
      modifies this
      ensures Valid()
      ensures applied == None && lines == old(lines)
    {
      applied := None;
    }

    /**
     * `orderManager.confirmOrder`.  An empty cart sends nothing.  Otherwise
     * the body lists the lines in cart order with the applied coupon's code,
     * and the cart is cleared only when the server answered with an order.
     */
    method ConfirmOrder(accepted: bool) returns (sent: Option<OrderCreate>)
      requires Valid()
      modifies this
      ensures Valid()
      ensures sent.None? <==> old(lines) == []
      ensures sent.Some? ==> sent.value == Payload(old(lines), old(applied))
      ensures sent.Some? && accepted ==> lines == [] && applied == None
      ensures sent.None? || !accepted ==> lines == old(lines) && applied == old(applied)
    {
      if |lines| == 0 {
        return None;
      }
      var items: seq<LineInput> := [];
      for k := 0 to |lines|
        invariant items == PayloadItems(lines[..k])
      {
        assert lines[..k + 1][..k] == lines[..k];
        items := items + [LineInput(lines[k].productId, lines[k].quantity)];
      }
      assert lines[..|lines|] == lines;
      var couponCode: Option<string> := if applied.Some? then Some(applied.value.code) else None;
      sent := Some(OrderCreate(items, couponCode));
      if accepted {
        Clear();
      }
    }
  }

  /**
   * A coupon the page applied after the validation endpoint accepted the
   * trimmed code is sent back at confirmation, and there it finds the same
   * coupon again; checkout applies it exactly when it is still usable.
   */
  lemma AppliedCouponReachesCheckout(coupons: seq<Coupon>, code: string, validatedAt: int, now: int,
                                     lines: seq<CartLine>)
    requires CouponCodeEntered(code)
    requires ValidateCoupon(coupons, Trim(code), validatedAt).valid
    ensures var c := FindCoupon(coupons, Trim(code)).value;
            var body := Payload(lines, Some(ValidateCoupon(coupons, Trim(code), validatedAt)));
            CheckoutCoupon(coupons, body.couponCode, now) == (if UsableAtCheckout(c, now) then Some(c) else None)
  {
    ValidatedCodeAtCheckout(coupons, Trim(code), validatedAt, now);
  }
}
