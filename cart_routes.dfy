/**
 * The cart and order routes of the second backend.  A user's cart is their
 * pending order: adding to the cart finds or opens it, the item routes
 * change or delete its items, and checkout turns it into a completed order.
 * The caller's user id comes from the token check, which is not modelled.
 */
module CartRoutes {
  import opened Wrappers
  import opened FlaskOrders

  /** The refusals of the routes, each with its HTTP status. */
  datatype CartError =
    | ProductNotFound  // 404 from `get_or_404`
    | CartNotFound     // 404 "Carrinho não encontrado"
    | ItemNotFound     // 404 "Item não encontrado no carrinho"
    | CartEmpty        // 400 "Carrinho vazio"
    | OrderNotFound    // 404 from `first_or_404`
    | ServerError      // 500: an item whose product row is gone

  function HttpStatus(e: CartError): (code: int)
    ensures code == 400 <==> e == CartEmpty
    ensures code == 500 <==> e == ServerError
    ensures code in {400, 404, 500}
  {
    match e
    case CartEmpty => 400
    case ServerError => 500
    case _ => 404
  }

  /** The reply of `GET /cart`: an empty cart when there is no pending order. */
  datatype CartReply = NoPendingOrder | PendingCart(order: OrderView, total: int)

  /** An order with its total, as checkout and the order listings reply. */
  datatype OrderSummary = OrderSummary(order: OrderView, total: int)

  // ---------------------------------------------------------------------
  // The tables after each change

  /** The items after adding `quantity` of a product to an order: merged into its item, or a new item. */
  function ItemAdded(items: seq<CartItem>, orderId: int, productId: int, quantity: int): seq<CartItem> {
    match FindItem(items, orderId, productId)
    case Some(j) => items[j := items[j].(quantity := items[j].quantity + quantity)]
    case None => items + [CartItem(orderId, productId, quantity)]
  }

  /**
   * Adding never gives an order a second item for the product: afterwards
   * there is exactly the one item, holding the old quantity plus the added
   * one (or just the added one when it is new), and every other item is
   * as it was.
   */
  lemma ItemAddedMerges(items: seq<CartItem>, orderId: int, productId: int, quantity: int)
    requires ItemKeysUnique(items)
    ensures var r := ItemAdded(items, orderId, productId, quantity);
            ItemKeysUnique(r) && FindItem(r, orderId, productId).Some?
            && r[FindItem(r, orderId, productId).value].quantity
               == quantity + (if FindItem(items, orderId, productId).Some?
                              then items[FindItem(items, orderId, productId).value].quantity else 0)
    ensures var r := ItemAdded(items, orderId, productId, quantity);
            forall k :: 0 <= k < |items| && !IsItem(items[k], orderId, productId) ==> r[k] == items[k]
    ensures FindItem(items, orderId, productId).None? ==>
            |ItemAdded(items, orderId, productId, quantity)| == |items| + 1
    ensures FindItem(items, orderId, productId).Some? ==>
            |ItemAdded(items, orderId, productId, quantity)| == |items|
  {
    var r := ItemAdded(items, orderId, productId, quantity);
    match FindItem(items, orderId, productId)
    case Some(j) =>
      assert r == items[j := items[j].(quantity := items[j].quantity + quantity)];
      assert FindItem(r, orderId, productId).Some? by {
        assert IsItem(r[j], orderId, productId);
      }
      assert FindItem(r, orderId, productId).value == j;
    case None =>
      assert r == items + [CartItem(orderId, productId, quantity)];
      assert FindItem(r, orderId, productId).Some? by {
        assert IsItem(r[|items|], orderId, productId);
      }
      assert FindItem(r, orderId, productId).value == |items| by {
        assert forall k :: 0 <= k < |items| ==> r[k] == items[k];
      }
  }

  /** An order's items after one new item of that order is appended. */
  lemma ItemsOfAppend(items: seq<CartItem>, it: CartItem, orderId: int)
    ensures ItemsOf(items + [it], orderId) == ItemsOf(items, orderId) + (if it.orderId == orderId then [it] else [])
  {
    assert (items + [it])[..|items|] == items;
  }

  /**
   * After item `j` is set to `quantity`, its order's total exists and has
   * moved by the product's price times the change of quantity.
   */
  ghost predicate SetShiftsTotal(items: seq<CartItem>, j: nat, quantity: int, products: seq<CatalogProduct>)
    requires j < |items| && FindProduct(products, items[j].productId).Some?
    requires LinesTotal(ItemsOf(items, items[j].orderId), products).Some?
  {
    var oid := items[j].orderId;
    var price := FindProduct(products, items[j].productId).value.price;
    var after := LinesTotal(ItemsOf(items[j := items[j].(quantity := quantity)], oid), products);
    after.Some?
    && after.value + price * items[j].quantity == LinesTotal(ItemsOf(items, oid), products).value + price * quantity
  }

  /**
   * Setting an item's quantity, as `PUT /cart/item` does, changes its
   * order's total by the product's price times the change of quantity.
   */
  lemma {:induction false} TotalAfterSet(items: seq<CartItem>, j: nat, quantity: int, products: seq<CatalogProduct>)
    requires j < |items| && FindProduct(products, items[j].productId).Some?
    requires LinesTotal(ItemsOf(items, items[j].orderId), products).Some?
    ensures SetShiftsTotal(items, j, quantity, products)
    decreases |items|
  {
    if j == |items| - 1 {
      SetLastShiftsTotal(items, j, quantity, products);
    } else {
      var init := items[..|items| - 1];
      InitTotalExists(items, items[j].orderId, products);
      assert init[j] == items[j];
      TotalAfterSet(init, j, quantity, products);
      SetEarlierShiftsTotal(items, j, quantity, products);
    }
  }

  /** An order's total over all item rows exists only if it exists without the last row. */
  lemma InitTotalExists(items: seq<CartItem>, oid: int, products: seq<CatalogProduct>)
    requires items != [] && LinesTotal(ItemsOf(items, oid), products).Some?
    ensures LinesTotal(ItemsOf(items[..|items| - 1], oid), products).Some?
  {
    var init := items[..|items| - 1];
    var last := items[|items| - 1];
    assert items == init + [last];
    ItemsOfAppend(init, last, oid);
    TotalOfPrefix(ItemsOf(init, oid), if last.orderId == oid then [last] else [], products);
  }

  /** The step of `TotalAfterSet` for the last row. */
  lemma SetLastShiftsTotal(items: seq<CartItem>, j: nat, quantity: int, products: seq<CatalogProduct>)
    requires j == |items| - 1 && FindProduct(products, items[j].productId).Some?
    requires LinesTotal(ItemsOf(items, items[j].orderId), products).Some?
    ensures SetShiftsTotal(items, j, quantity, products)
  {
    var oid := items[j].orderId;
    var x := items[j].(quantity := quantity);
    var init := items[..j];
    var last := items[j];
    assert items == init + [last];
    assert items[j := x] == init + [x];
    ItemsOfAppend(init, last, oid);
    ItemsOfAppend(init, x, oid);
    LinesTotalSingle(last, products);
    LinesTotalSingle(x, products);
    TotalOfPrefix(ItemsOf(init, oid), [last], products);
    LinesTotalAppend(ItemsOf(init, oid), [last], products);
    LinesTotalAppend(ItemsOf(init, oid), [x], products);
  }

  /** The step of `TotalAfterSet` for an earlier row, given the fact for the rows before the last. */
  lemma SetEarlierShiftsTotal(items: seq<CartItem>, j: nat, quantity: int, products: seq<CatalogProduct>)
    requires j < |items| - 1 && FindProduct(products, items[j].productId).Some?
    requires LinesTotal(ItemsOf(items, items[j].orderId), products).Some?
    requires LinesTotal(ItemsOf(items[..|items| - 1], items[j].orderId), products).Some?
    requires SetShiftsTotal(items[..|items| - 1], j, quantity, products)
    ensures SetShiftsTotal(items, j, quantity, products)
  {
    var oid := items[j].orderId;
    var x := items[j].(quantity := quantity);
    var init := items[..|items| - 1];
    var last := items[|items| - 1];
    var price := FindProduct(products, items[j].productId).value.price;
    assert items == init + [last];
    assert init[j] == items[j];
    assert items[j := x] == init[j := x] + [last];
    ItemsOfAppend(init, last, oid);
    ItemsOfAppend(init[j := x], last, oid);
    var rest := if last.orderId == oid then [last] else [];
    TotalOfSuffix(ItemsOf(init, oid), rest, products);
    LinesTotalAppend(ItemsOf(init, oid), rest, products);
    LinesTotalAppend(ItemsOf(init[j := x], oid), rest, products);
  }

  /** When the product already has an item in the order, adding merges into that item. */
  lemma MergedAt(items: seq<CartItem>, orderId: int, productId: int, quantity: int, j: nat)
    requires FindItem(items, orderId, productId) == Some(j)
    ensures j < |items| && items[j].orderId == orderId && items[j].productId == productId
    ensures ItemAdded(items, orderId, productId, quantity) == items[j := items[j].(quantity := items[j].quantity + quantity)]
  {
  }

  /** Merging more of a product into its item raises the order's total by the price of what was added. */
  lemma TotalAfterMerge(items: seq<CartItem>, orderId: int, productId: int, quantity: int, products: seq<CatalogProduct>, j: nat)
    requires j < |items| && items[j].orderId == orderId && items[j].productId == productId
    requires FindProduct(products, productId).Some? && LinesTotal(ItemsOf(items, orderId), products).Some?
    ensures LinesTotal(ItemsOf(items[j := items[j].(quantity := items[j].quantity + quantity)], orderId), products)
            == Some(LinesTotal(ItemsOf(items, orderId), products).value + FindProduct(products, productId).value.price * quantity)
  {
    TotalAfterSet(items, j, items[j].quantity + quantity, products);
    Distributes(FindProduct(products, productId).value.price, items[j].quantity, quantity);
  }

  /** Multiplication distributes over addition. */
  lemma Distributes(p: int, a: int, b: int)
    ensures p * (a + b) == p * a + p * b
  {
  }

  /** A total that exists has its prefix's total. */
  lemma TotalOfPrefix(a: seq<CartItem>, b: seq<CartItem>, products: seq<CatalogProduct>)
    requires LinesTotal(a + b, products).Some?
    ensures LinesTotal(a, products).Some?
  {
    LinesTotalDefined(a + b, products);
    LinesTotalDefined(a, products);
    assert forall k :: 0 <= k < |a| ==> (a + b)[k] == a[k];
  }

  /** A total that exists has its suffix's total. */
  lemma TotalOfSuffix(a: seq<CartItem>, b: seq<CartItem>, products: seq<CatalogProduct>)
    requires LinesTotal(a + b, products).Some?
    ensures LinesTotal(b, products).Some?
  {
    LinesTotalDefined(a + b, products);
    LinesTotalDefined(b, products);
    assert forall k :: 0 <= k < |b| ==> (a + b)[|a| + k] == b[k];
  }

  /**
   * Adding `quantity` of an existing product to an order whose total exists
   * raises the total by its price times `quantity`, whether the product was
   * already in the order or not.
   */
  lemma TotalAfterAdd(items: seq<CartItem>, orderId: int, productId: int, quantity: int, products: seq<CatalogProduct>)
    requires FindProduct(products, productId).Some? && LinesTotal(ItemsOf(items, orderId), products).Some?
    ensures LinesTotal(ItemsOf(ItemAdded(items, orderId, productId, quantity), orderId), products)
            == Some(LinesTotal(ItemsOf(items, orderId), products).value + FindProduct(products, productId).value.price * quantity)
  {
    match FindItem(items, orderId, productId)
    case Some(j) =>
      MergedAt(items, orderId, productId, quantity, j);
      TotalAfterMerge(items, orderId, productId, quantity, products, j);
    case None =>
      assert ItemAdded(items, orderId, productId, quantity) == items + [CartItem(orderId, productId, quantity)];
      TotalAfterAppend(items, orderId, productId, quantity, products);
  }

  /** A new item for the product raises the order's total by the price of what was added. */
  lemma TotalAfterAppend(items: seq<CartItem>, orderId: int, productId: int, quantity: int, products: seq<CatalogProduct>)
    requires FindProduct(products, productId).Some? && LinesTotal(ItemsOf(items, orderId), products).Some?
    ensures LinesTotal(ItemsOf(items + [CartItem(orderId, productId, quantity)], orderId), products)
            == Some(LinesTotal(ItemsOf(items, orderId), products).value + FindProduct(products, productId).value.price * quantity)
  {
    var it := CartItem(orderId, productId, quantity);
    var mine := ItemsOf(items, orderId);
    ItemsOfAppend(items, it, orderId);
    assert ItemsOf(items + [it], orderId) == mine + [it];
    LinesTotalSingle(it, products);
    LinesTotalAppend(mine, [it], products);
  }

  /** The items without the one at position `j`. */
  function ItemRemoved(items: seq<CartItem>, j: nat): seq<CartItem>
    requires j < |items|
  {
    items[..j] + items[j + 1..]
  }

  /** Removing deletes exactly that item: the rest are kept as a multiset, and its key is gone. */
  lemma ItemRemovedExactly(items: seq<CartItem>, j: nat)
    requires j < |items| && ItemKeysUnique(items)
    ensures multiset(ItemRemoved(items, j)) + multiset{items[j]} == multiset(items)
    ensures FindItem(ItemRemoved(items, j), items[j].orderId, items[j].productId).None?
    ensures ItemKeysUnique(ItemRemoved(items, j))
  {
    var r := ItemRemoved(items, j);
    calc {
      multiset(items);
      { assert items == items[..j] + [items[j]] + items[j + 1..]; }
      multiset(items[..j]) + multiset{items[j]} + multiset(items[j + 1..]);
    }
    ItemRemovedShifts(items, j);
  }

  /** Positions after the removed one move down by one. */
  lemma ItemRemovedShifts(items: seq<CartItem>, j: nat)
    requires j < |items|
    ensures |ItemRemoved(items, j)| == |items| - 1
    ensures forall k :: 0 <= k < j ==> ItemRemoved(items, j)[k] == items[k]
    ensures forall k :: j <= k < |items| - 1 ==> ItemRemoved(items, j)[k] == items[k + 1]
  {
  }

  /** The orders with the one at position `i` completed. */
  function CompletedAt(orders: seq<CartOrder>, i: nat): seq<CartOrder>
    requires i < |orders|
  {
    orders[i := orders[i].(status := Completed)]
  }

  /** The orders of a user that are no longer pending, in table order. */
  function History(orders: seq<CartOrder>, userId: int): seq<CartOrder>
    decreases |orders|
  {
    if orders == [] then []
    else
      var last := orders[|orders| - 1];
      History(orders[..|orders| - 1], userId) + (if last.userId == userId && last.status != Pending then [last] else [])
  }

  /** The history holds exactly the user's orders that are no longer pending. */
  lemma {:induction false} HistoryMembers(orders: seq<CartOrder>, userId: int)
    ensures forall o :: o in History(orders, userId) <==> o in orders && o.userId == userId && o.status != Pending
    decreases |orders|
  {
    if orders != [] {
      var init := orders[..|orders| - 1];
      HistoryMembers(init, userId);
      assert orders == init + [orders[|orders| - 1]];
    }
  }

  /** The history of one order on its own: kept exactly when it is the user's and no longer pending. */
  lemma HistorySingle(o: CartOrder, userId: int)
    ensures History([o], userId) == if o.userId == userId && o.status != Pending then [o] else []
  {
    assert [o][..0] == [];
  }

  /** The history keeps the table order: it distributes over concatenation. */
  lemma {:induction false} HistoryAppend(a: seq<CartOrder>, b: seq<CartOrder>, userId: int)
    ensures History(a + b, userId) == History(a, userId) + History(b, userId)
    decreases |b|
  {
    if b == [] {
      assert a + b == a;
    } else {
      var init := b[..|b| - 1];
      var last := b[|b| - 1];
      var kept := if last.userId == userId && last.status != Pending then [last] else [];
      assert (a + b)[..|a + b| - 1] == a + init && (a + b)[|a + b| - 1] == last;
      HistoryAppend(a, init, userId);
      calc {
        History(a + b, userId);
        History(a + init, userId) + kept;
        (History(a, userId) + History(init, userId)) + kept;
        { assert (History(a, userId) + History(init, userId)) + kept
              == History(a, userId) + (History(init, userId) + kept); }
        History(a, userId) + (History(init, userId) + kept);
        History(a, userId) + History(b, userId);
      }
    }
  }

  /** `Order.query.filter_by(id=..., user_id=...).first()`. */
  function FindOwned(orders: seq<CartOrder>, orderId: int, userId: int): (r: Option<nat>)
    ensures r.Some? ==> r.value < |orders| && orders[r.value].id == orderId && orders[r.value].userId == userId
    ensures r.None? <==> forall k :: 0 <= k < |orders| ==> orders[k].id != orderId || orders[k].userId != userId
    decreases |orders|
  {
    if orders == [] then None
    else if orders[0].id == orderId && orders[0].userId == userId then Some(0)
    else
      assert forall k :: 1 <= k < |orders| ==> orders[k] == orders[1..][k - 1];
      match FindOwned(orders[1..], orderId, userId)
      case None => None
      case Some(i) => Some(i + 1)
  }

  /** The total of an order's items, `None` when one of their products is gone. */
  function OrderTotal(o: CartOrder, items: seq<CartItem>, products: seq<CatalogProduct>): Option<int> {
    LinesTotal(ItemsOf(items, o.id), products)
  }

  /** An order serialized with its total, as the order routes reply; `None` when the total fails. */
  function Summary(o: CartOrder, items: seq<CartItem>, products: seq<CatalogProduct>): Option<OrderSummary> {
    match OrderTotal(o, items, products)
    case None => None
    case Some(t) => Some(OrderSummary(OrderToDict(o, items, products), t))
  }

  // ---------------------------------------------------------------------
  // The constraints survive each change

  /** The orders once the user has a cart: theirs, or a new pending order appended; and its position. */
  function WithCart(orders: seq<CartOrder>, userId: int, nextId: int, now: int): (seq<CartOrder>, nat) {
    match FindPending(orders, userId)
    case Some(i) => (orders, i)
    case None => (orders + [NewOrder(nextId, userId, now)], |orders|)
  }

  /** Opening a cart for a user without one keeps every constraint and makes it that user's cart. */
  lemma OpenCartKeepsConstraints(orders: seq<CartOrder>, items: seq<CartItem>, o: CartOrder)
    requires UniqueOrderIds(orders) && OnePendingPerUser(orders) && ItemsHaveOrders(items, orders)
    requires forall k :: 0 <= k < |orders| ==> orders[k].id < o.id
    requires o.status == Pending && FindPending(orders, o.userId).None?
    ensures UniqueOrderIds(orders + [o]) && OnePendingPerUser(orders + [o]) && ItemsHaveOrders(items, orders + [o])
    ensures forall k :: 0 <= k < |orders + [o]| ==> (orders + [o])[k].id < o.id + 1
    ensures FindPending(orders + [o], o.userId) == Some(|orders|)
  {
    var r := orders + [o];
    assert forall k :: 0 <= k < |orders| ==> r[k] == orders[k];
    assert IsPendingOf(r[|orders|], o.userId);
    assert forall x :: x in OrderIds(orders) ==> x in OrderIds(r) by {
      forall x | x in OrderIds(orders) ensures x in OrderIds(r) {
        var k :| 0 <= k < |orders| && orders[k].id == x;
        assert r[k].id == x;
      }
    }
  }

  /**
   * Adding to the cart keeps every constraint: the user ends up with exactly
   * one cart, found by the lookup, and the item goes into it.
   */
  lemma AddToCartKeepsConstraints(orders: seq<CartOrder>, items: seq<CartItem>, userId: int, nextId: int, now: int,
                                  productId: int, quantity: int)
    requires UniqueOrderIds(orders) && OnePendingPerUser(orders) && ItemsHaveOrders(items, orders) && ItemKeysUnique(items)
    requires forall k :: 0 <= k < |orders| ==> orders[k].id < nextId
    ensures var (os, i) := WithCart(orders, userId, nextId, now);
            var next := if FindPending(orders, userId).Some? then nextId else nextId + 1;
            var its := ItemAdded(items, os[i].id, productId, quantity);
            i < |os| && FindPending(os, userId) == Some(i)
            && UniqueOrderIds(os) && OnePendingPerUser(os) && ItemsHaveOrders(its, os) && ItemKeysUnique(its)
            && (forall k :: 0 <= k < |os| ==> os[k].id < next)
  {
    var (os, i) := WithCart(orders, userId, nextId, now);
    if FindPending(orders, userId).None? {
      OpenCartKeepsConstraints(orders, items, NewOrder(nextId, userId, now));
    }
    assert os[i].id in OrderIds(os);
    ItemAddedKeepsConstraints(items, os, os[i].id, productId, quantity);
  }

  /** Adding to an existing order keeps the key and the ownership of items. */
  lemma ItemAddedKeepsConstraints(items: seq<CartItem>, orders: seq<CartOrder>, orderId: int, productId: int, quantity: int)
    requires ItemKeysUnique(items) && ItemsHaveOrders(items, orders) && orderId in OrderIds(orders)
    ensures ItemKeysUnique(ItemAdded(items, orderId, productId, quantity))
    ensures ItemsHaveOrders(ItemAdded(items, orderId, productId, quantity), orders)
  {
    ItemAddedMerges(items, orderId, productId, quantity);
    var r := ItemAdded(items, orderId, productId, quantity);
    match FindItem(items, orderId, productId)
    case Some(j) =>
      assert forall k :: 0 <= k < |r| ==> r[k].orderId == items[k].orderId;
    case None =>
      assert forall k :: 0 <= k < |items| ==> r[k] == items[k];
  }

  /** Setting an item's quantity or deleting it keeps the key and the ownership of items. */
  lemma ItemChangeKeepsConstraints(items: seq<CartItem>, orders: seq<CartOrder>, j: nat, quantity: int)
    requires j < |items| && ItemKeysUnique(items) && ItemsHaveOrders(items, orders)
    ensures ItemKeysUnique(items[j := items[j].(quantity := quantity)])
    ensures ItemsHaveOrders(items[j := items[j].(quantity := quantity)], orders)
    ensures ItemKeysUnique(ItemRemoved(items, j)) && ItemsHaveOrders(ItemRemoved(items, j), orders)
  {
    ItemRemovedExactly(items, j);
    var r := ItemRemoved(items, j);
    assert forall k :: 0 <= k < |r| ==> r[k] == if k < j then items[k] else items[k + 1];
  }

  /** Completing an order keeps every constraint: ids are untouched and pending orders only get fewer. */
  lemma CompletedKeepsConstraints(orders: seq<CartOrder>, items: seq<CartItem>, i: nat, next: int)
    requires i < |orders| && UniqueOrderIds(orders) && OnePendingPerUser(orders) && ItemsHaveOrders(items, orders)
    requires forall k :: 0 <= k < |orders| ==> orders[k].id < next
    ensures UniqueOrderIds(CompletedAt(orders, i)) && OnePendingPerUser(CompletedAt(orders, i))
    ensures ItemsHaveOrders(items, CompletedAt(orders, i))
    ensures forall k :: 0 <= k < |orders| ==> CompletedAt(orders, i)[k].id < next
  {
    var r := CompletedAt(orders, i);
    assert forall k :: 0 <= k < |orders| ==> r[k].id == orders[k].id;
    assert OrderIds(r) == OrderIds(orders) by {
      assert forall x :: x in OrderIds(r) ==> x in OrderIds(orders);
      assert forall x :: x in OrderIds(orders) ==> x in OrderIds(r) by {
        forall x | x in OrderIds(orders) ensures x in OrderIds(r) {
          var k :| 0 <= k < |orders| && orders[k].id == x;
          assert r[k].id == x;
        }
      }
    }
  }

  /** Checkout leaves the user without a cart: the next add opens a new one. */
  lemma CheckoutClosesCart(orders: seq<CartOrder>, i: nat, userId: int)
    requires OnePendingPerUser(orders) && FindPending(orders, userId) == Some(i)
    ensures FindPending(CompletedAt(orders, i), userId).None?
    ensures forall u :: u != userId ==> FindPending(CompletedAt(orders, i), u) == FindPending(orders, u)
  {
    PendingIsOnly(orders, userId);
    var r := CompletedAt(orders, i);
    forall u | u != userId
      ensures FindPending(r, u) == FindPending(orders, u)
    {
      assert forall k :: 0 <= k < |orders| ==> (IsPendingOf(r[k], u) <==> IsPendingOf(orders[k], u));
      FindPendingSameMatches(orders, r, u);
    }
  }

  /** Two order tables that agree on which rows are a user's pending order agree on the lookup. */
  lemma {:induction false} FindPendingSameMatches(a: seq<CartOrder>, b: seq<CartOrder>, u: int)
    requires |a| == |b|
    requires forall k :: 0 <= k < |a| ==> (IsPendingOf(a[k], u) <==> IsPendingOf(b[k], u))
    ensures FindPending(a, u) == FindPending(b, u)
    decreases |a|
  {
    if a != [] {
      assert forall k :: 0 <= k < |a| - 1 ==> a[1..][k] == a[k + 1] && b[1..][k] == b[k + 1];
      FindPendingSameMatches(a[1..], b[1..], u);
    }
  }

  /**
   * The table changes of adding to the cart: find the user's pending order
   * or open one with the next id, then merge the quantity into the
   * product's item of that order or add a new item.
   */
  method PutInCart(orders: seq<CartOrder>, items: seq<CartItem>, nextId: int, userId: int, productId: int, quantity: int, now: int)
    returns (newOrders: seq<CartOrder>, newItems: seq<CartItem>, newNext: int, order: CartOrder)
    ensures var (os, i) := WithCart(orders, userId, nextId, now);
            newOrders == os && i < |os| && order == os[i]
            && newNext == (if FindPending(orders, userId).Some? then nextId else nextId + 1)
            && newItems == ItemAdded(items, order.id, productId, quantity)
  {
    var found := FindPending(orders, userId);
    if found.Some? {
      order := orders[found.value];
      newOrders, newNext := orders, nextId;
    } else {
      order := NewOrder(nextId, userId, now);
      newOrders, newNext := orders + [order], nextId + 1;
    }
    var existing := FindItem(items, order.id, productId);
    if existing.Some? {
      var j := existing.value;
      newItems := items[j := items[j].(quantity := items[j].quantity + quantity)];
    } else {
      newItems := items + [CartItem(order.id, productId, quantity)];
    }
  }

  // ---------------------------------------------------------------------
  // The routes

  class OrderService {
    var products: seq<CatalogProduct>
    var orders: seq<CartOrder>
    var items: seq<CartItem>
    var nextOrderId: int

    /** Keys, ownership of items, fresh order ids, and one cart per user. */
    ghost predicate Valid()
      reads this
    {
      UniqueOrderIds(orders) && ItemKeysUnique(items) && ItemsHaveOrders(items, orders)
      && OnePendingPerUser(orders)
      && (forall k :: 0 <= k < |orders| ==> orders[k].id < nextOrderId)
    }

    /** A shop with its catalog and no orders yet. */
    constructor(products: seq<CatalogProduct>)
      ensures Valid() && this.products == products && orders == [] && items == []
    {
      this.products := products;
      orders := [];
      items := [];
      nextOrderId := 1;
    }

    /**
     * `POST /cart`.  An unknown product is a 404.  Otherwise the user's
     * pending order is found, or opened when there is none, and the quantity
     * (1 when not given, and not checked otherwise) is added to the
     * product's item in it, or becomes a new item.  The reply is the cart.
     */
    method AddToCart(userId: int, productId: int, quantity: Option<int>, now: int) returns (r: Result<OrderView, CartError>)
      requires Valid()
      modifies this
      ensures Valid()
      ensures products == old(products)
      ensures r.Err? <==> FindProduct(products, productId).None?
      ensures r.Err? ==> r.error == ProductNotFound && unchanged(this)
      ensures r.Ok? ==>
        var q := if quantity.Some? then quantity.value else 1;
        var (os, i) := WithCart(old(orders), userId, old(nextOrderId), now);
        orders == os && FindPending(orders, userId) == Some(i)
        && nextOrderId == (if FindPending(old(orders), userId).Some? then old(nextOrderId) else old(nextOrderId) + 1)
        && items == ItemAdded(old(items), os[i].id, productId, q)
        && r.value == OrderToDict(os[i], items, products)
    {
      if FindProduct(products, productId).None? {
        return Err(ProductNotFound);
      }
      var q := if quantity.Some? then quantity.value else 1;
      AddToCartKeepsConstraints(orders, items, userId, nextOrderId, now, productId, q);
      var newOrders, newItems, newNext, order := PutInCart(orders, items, nextOrderId, userId, productId, q, now);
      orders, items, nextOrderId := newOrders, newItems, newNext;
      r := Ok(OrderToDict(order, items, products));
    }

    /**
     * `GET /cart`: no pending order gives the empty cart with total 0;
     * otherwise the cart and the sum of price times quantity over its items
     * (a 500 when an item's product is gone).
     */
    method GetCart(userId: int) returns (r: Result<CartReply, CartError>)
      ensures FindPending(orders, userId).None? ==> r == Ok(NoPendingOrder)
      ensures FindPending(orders, userId).Some? ==>
        var o := orders[FindPending(orders, userId).value];
        (r.Err? <==> OrderTotal(o, items, products).None?)
        && (r.Err? ==> r.error == ServerError)
        && (r.Ok? ==> r.value == PendingCart(OrderToDict(o, items, products), OrderTotal(o, items, products).value))
    {
      var found := FindPending(orders, userId);
      if found.None? {
        return Ok(NoPendingOrder);
      }
      var o := orders[found.value];
      var total := LinesTotal(ItemsOf(items, o.id), products);
      if total.None? {
        return Err(ServerError);
      }
      r := Ok(PendingCart(OrderToDict(o, items, products), total.value));
    }

    /**
     * `PUT /cart/item/{product_id}`: 404 without a pending order or without
     * the product's item in it; a quantity of zero or less deletes the item,
     * any other quantity replaces its quantity.
     */
    method UpdateCartItem(userId: int, productId: int, quantity: int) returns (r: Result<OrderView, CartError>)
      requires Valid()
      modifies this
      ensures Valid()
      ensures products == old(products) && orders == old(orders) && nextOrderId == old(nextOrderId)
      ensures FindPending(orders, userId).None? ==> r == Err(CartNotFound) && items == old(items)
      ensures FindPending(orders, userId).Some? ==>
        var o := orders[FindPending(orders, userId).value];
        var j := FindItem(old(items), o.id, productId);
        (j.None? ==> r == Err(ItemNotFound) && items == old(items))
        && (j.Some? && quantity <= 0 ==> items == ItemRemoved(old(items), j.value))
        && (j.Some? && quantity > 0 ==> items == old(items)[j.value := old(items)[j.value].(quantity := quantity)])
        && (j.Some? ==> r == Ok(OrderToDict(o, items, products)))
    {
      var found := FindPending(orders, userId);
      if found.None? {
        return Err(CartNotFound);
      }
      var o := orders[found.value];
      var existing := FindItem(items, o.id, productId);
      if existing.None? {
        return Err(ItemNotFound);
      }
      var j := existing.value;
      ItemChangeKeepsConstraints(items, orders, j, quantity);
      if quantity <= 0 {
        items := items[..j] + items[j + 1..];
      } else {
        items := items[j := items[j].(quantity := quantity)];
      }
      r := Ok(OrderToDict(o, items, products));
    }

    /**
     * `DELETE /cart/item/{product_id}`: 404 without a pending order or
     * without the product's item in it; otherwise exactly that item goes.
     */
    method RemoveFromCart(userId: int, productId: int) returns (r: Result<OrderView, CartError>)
      requires Valid()
      modifies this
      ensures Valid()
      ensures products == old(products) && orders == old(orders) && nextOrderId == old(nextOrderId)
      ensures FindPending(orders, userId).None? ==> r == Err(CartNotFound) && items == old(items)
      ensures FindPending(orders, userId).Some? ==>
        var o := orders[FindPending(orders, userId).value];
        var j := FindItem(old(items), o.id, productId);
        (j.None? ==> r == Err(ItemNotFound) && items == old(items))
        && (j.Some? ==> items == ItemRemoved(old(items), j.value) && r == Ok(OrderToDict(o, items, products)))
    {
      var found := FindPending(orders, userId);
      if found.None? {
        return Err(CartNotFound);
      }
      var o := orders[found.value];
      var existing := FindItem(items, o.id, productId);
      if existing.None? {
        return Err(ItemNotFound);
      }
      var j := existing.value;
      ItemChangeKeepsConstraints(items, orders, j, 0);
      items := items[..j] + items[j + 1..];
      r := Ok(OrderToDict(o, items, products));
    }

    /**
     * `POST /checkout`: 400 and no change without a pending order or with an
     * empty one.  Otherwise that order becomes completed (and stays so) and
     * then its total is computed, which is a 500 when an item's product is
     * gone.
     */
    method Checkout(userId: int) returns (r: Result<OrderSummary, CartError>)
      requires Valid()
      modifies this
      ensures Valid()
      ensures products == old(products) && items == old(items) && nextOrderId == old(nextOrderId)
      ensures var found := FindPending(old(orders), userId);
              found.None? || ItemsOf(items, old(orders)[found.value].id) == [] ==>
                r == Err(CartEmpty) && orders == old(orders)
      ensures var found := FindPending(old(orders), userId);
              found.Some? && ItemsOf(items, old(orders)[found.value].id) != [] ==>
                var i := found.value;
                orders == CompletedAt(old(orders), i)
                && (r.Err? <==> Summary(orders[i], items, products).None?)
                && (r.Err? ==> r.error == ServerError)
                && (r.Ok? ==> Some(r.value) == Summary(orders[i], items, products))
    {
      var found := FindPending(orders, userId);
      if found.None? {
        return Err(CartEmpty);
      }
      var i := found.value;
      if ItemsOf(items, orders[i].id) == [] {
        return Err(CartEmpty);
      }
      CompletedKeepsConstraints(orders, items, i, nextOrderId);
      orders := orders[i := orders[i].(status := Completed)];
      var total := LinesTotal(ItemsOf(items, orders[i].id), products);
      if total.None? {
        return Err(ServerError);
      }
      r := Ok(OrderSummary(OrderToDict(orders[i], items, products), total.value));
    }

    /**
     * `GET /orders`: the user's orders that are not pending, each serialized
     * with its total, in table order; a 500 when any of their items' products
     * is gone.
     */
    method GetUserOrders(userId: int) returns (r: Result<seq<OrderSummary>, CartError>)
      ensures var h := History(orders, userId);
              (r.Err? <==> exists k :: 0 <= k < |h| && Summary(h[k], items, products).None?)
              && (r.Err? ==> r.error == ServerError)
              && (r.Ok? ==> |r.value| == |h| && forall k :: 0 <= k < |h| ==> Some(r.value[k]) == Summary(h[k], items, products))
    {
      var h := History(orders, userId);
      var summaries: seq<OrderSummary> := [];
      for k := 0 to |h|
        invariant |summaries| == k
        invariant forall j :: 0 <= j < k ==> Some(summaries[j]) == Summary(h[j], items, products)
      {
        var total := OrderTotal(h[k], items, products);
        if total.None? {
          assert Summary(h[k], items, products).None?;
          assert h == History(orders, userId);
          return Err(ServerError);
        }
        summaries := summaries + [OrderSummary(OrderToDict(h[k], items, products), total.value)];
      }
      r := Ok(summaries);
    }

    /**
     * `GET /orders/{order_id}`: only an order of the caller is found (404
     * otherwise, whoever owns it); its reply carries the total, or is a 500
     * when an item's product is gone.
     */
    method GetOrder(userId: int, orderId: int) returns (r: Result<OrderSummary, CartError>)
      ensures FindOwned(orders, orderId, userId).None? <==> r == Err(OrderNotFound)
      ensures r.Ok? ==> r.value.order.userId == userId && r.value.order.id == orderId
      ensures FindOwned(orders, orderId, userId).Some? ==>
        var o := orders[FindOwned(orders, orderId, userId).value];
        (r.Err? <==> Summary(o, items, products).None?)
        && (r.Ok? ==> Some(r.value) == Summary(o, items, products))
      ensures r.Err? && r != Err(OrderNotFound) ==> r.error == ServerError
    {
      var found := FindOwned(orders, orderId, userId);
      if found.None? {
        return Err(OrderNotFound);
      }
      var o := orders[found.value];
      var total := LinesTotal(ItemsOf(items, o.id), products);
      if total.None? {
        return Err(ServerError);
      }
      r := Ok(OrderSummary(OrderToDict(o, items, products), total.value));
    }
  }
}
